/**
 Mesh establishment as a protocol over a shared room board: every node joins, waits for the full roster,
 binds and publishes one tagged socket per peer, resolves each peer's socket for itself in turn, and then
 runs all pairwise Noise handshakes concurrently over a network that loses nothing.
 Each node may take its peers in any fixed order; the code uses id order.
 */
module Mesh {
  import opened Prelude
  import opened NoiseIk
  import opened MeshNames

  /** Nodes and sockets are numbered; names matter only for who initiates, texts only on the board. */
  type Node = nat

  type Socket = nat

  /** The party: who is expected, each node's order over its peers, names, static secrets, and the room code. */
  datatype Party = Party(group: set<Node>, peers: map<Node, seq<Node>>, name: map<Node, Id>, secret: map<Node, Secret>,
                         code: seq<Byte>)

  /** The smaller name of a pair initiates. */
  predicate Initiates(c: Party, x: Node, p: Node) { x in c.name && p in c.name && Less(c.name[x], c.name[p]) }

  ghost predicate DistinctNames(c: Party)
    requires c.name.Keys == c.group
  {
    forall x, y :: x in c.group && y in c.group && x != y ==> c.name[x] != c.name[y]
  }

  /** Each node's order lists every other node exactly once. */
  ghost predicate EveryoneListed(c: Party)
    requires c.peers.Keys == c.group
  {
    && (forall x, p :: x in c.group ==> (p in c.peers[x] <==> p in c.group && p != x))
    && (forall x, i, j :: x in c.group && 0 <= i < j < |c.peers[x]| ==> c.peers[x][i] != c.peers[x][j])
  }

  ghost predicate ValidParty(c: Party) {
    && c.peers.Keys == c.group && c.secret.Keys == c.group && c.name.Keys == c.group
    && DistinctNames(c) && EveryoneListed(c)
  }

  datatype Phase = Outside | Waiting | Posting(k: nat) | Resolving(k: nat) | Talking | Done

  /** One handshake thread; `Broken` is an error returned by the handshake. */
  datatype Thread = Unborn | Ready | Sent(ist: InitiatorState) | Up(outcome: Outcome, e: Secret) | Broken

  datatype Packet = Hello(from: Socket, m1: RawMessage1) | Answer(from: Socket, m2: RawMessage2)

  /** Room board (members and candidates), sockets and their receive queues, and each node's progress. */
  datatype State = State(
    nodes: map<Node, Phase>, members: set<Node>, cands: map<Node, seq<Tagged<Node, Socket>>>,
    socks: map<(Node, Node), Socket>, resolved: map<(Node, Node), Socket>,
    threads: map<(Node, Node), Thread>, inbox: map<Socket, seq<Packet>>)

  function Start(c: Party): State {
    State(map x | x in c.group :: Outside, {}, map[], map[], map[], map[], map[])
  }

  function Th(s: State, x: Node, p: Node): Thread { if (x, p) in s.threads then s.threads[(x, p)] else Unborn }

  function Queue(s: State, addr: Socket): seq<Packet> { if addr in s.inbox then s.inbox[addr] else [] }

  /** What waits on the socket `x` keeps for `p`. */
  function Box(s: State, x: Node, p: Node): seq<Packet> { if (x, p) in s.socks then Queue(s, s.socks[(x, p)]) else [] }

  /** A datagram reaches the socket bound to its destination, and nothing when there is none. */
  function Deliver(s: State, addr: Socket, packet: Packet): State {
    if addr in s.inbox then s.(inbox := s.inbox[addr := s.inbox[addr] + [packet]]) else s
  }

  function Drop(s: State, addr: Socket): State {
    if Queue(s, addr) == [] then s else s.(inbox := s.inbox[addr := Queue(s, addr)[1..]])
  }

  function SetThread(s: State, x: Node, p: Node, t: Thread): State { s.(threads := s.threads[(x, p) := t]) }

  function SetNode(s: State, x: Node, n: Phase): State { s.(nodes := s.nodes[x := n]) }

  // ----- actions -----

  datatype Action =
    | Join(x: Node)
    | ReadRoster(x: Node)
    | Post(x: Node, k: nat, addr: Socket)
    | StartResolving(x: Node)
    | Resolve(x: Node, k: nat)
    | Spawn(x: Node)
    | SendHello(x: Node, p: Node, e: Secret)
    | Accept(x: Node, p: Node, e: Secret)
    | Finish(x: Node, p: Node)
    | Conclude(x: Node)

  /** `x` is a node of the party standing at `n`. */
  predicate At(c: Party, s: State, x: Node, n: Phase) {
    x in s.nodes && x in c.peers && x in c.secret && s.nodes[x] == n
  }

  function DoJoin(s: State, x: Node): State {
    SetNode(s.(members := s.members + {x}, cands := s.cands[x := []]), x, Waiting)
  }

  predicate CanPost(c: Party, s: State, x: Node, k: nat, addr: Socket) {
    At(c, s, x, Posting(k)) && k < |c.peers[x]| && x in s.cands && addr !in s.inbox
  }

  /** Bind a fresh socket for the next peer and publish it under that peer's tag. */
  function DoPost(c: Party, s: State, x: Node, k: nat, addr: Socket): State
    requires CanPost(c, s, x, k, addr)
  {
    var p := c.peers[x][k];
    SetNode(s.(socks := s.socks[(x, p) := addr], cands := s.cands[x := s.cands[x] + [Tagged(p, addr)]],
               inbox := s.inbox[addr := []]), x, Posting(k + 1))
  }

  predicate CanResolve(c: Party, s: State, x: Node, k: nat) {
    && At(c, s, x, Resolving(k)) && k < |c.peers[x]|
    && c.peers[x][k] in s.cands && Lookup(s.cands[c.peers[x][k]], x).Some?
  }

  function DoResolve(c: Party, s: State, x: Node, k: nat): State
    requires CanResolve(c, s, x, k)
  {
    var p := c.peers[x][k];
    SetNode(s.(resolved := s.resolved[(x, p) := Lookup(s.cands[p], x).value]), x, Resolving(k + 1))
  }

  function DoSpawn(c: Party, s: State, x: Node): State
    requires x in c.peers
  {
    SetNode(s.(threads := s.threads + (map p | p in c.peers[x] :: (x, p) := Ready)), x, Talking)
  }

  predicate CanSendHello(c: Party, s: State, x: Node, p: Node) {
    && At(c, s, x, Talking) && p in c.secret && Initiates(c, x, p) && Th(s, x, p) == Ready
    && (x, p) in s.socks && (x, p) in s.resolved
  }

  function DoSendHello(c: Party, s: State, x: Node, p: Node, e: Secret): State
    requires CanSendHello(c, s, x, p)
  {
    var (ist, m1) := InitiatorStart(c.secret[x], e, Public(c.secret[p]), c.code);
    Deliver(SetThread(s, x, p, Sent(ist)), s.resolved[(x, p)], Hello(s.socks[(x, p)], m1))
  }

  predicate CanAccept(c: Party, s: State, x: Node, p: Node) {
    At(c, s, x, Talking) && !Initiates(c, x, p) && Th(s, x, p) == Ready && (x, p) in s.socks && Box(s, x, p) != []
  }

  /** Take the first datagram on the dedicated socket and answer its sender. */
  function DoAccept(c: Party, s: State, x: Node, p: Node, e: Secret): State
    requires CanAccept(c, s, x, p)
  {
    var packet := Box(s, x, p)[0];
    var t := Drop(s, s.socks[(x, p)]);
    if packet.Answer? then SetThread(t, x, p, Broken)
    else
      match ResponderReceive(c.secret[x], c.code, packet.m1)
      case Err(_) => SetThread(t, x, p, Broken)
      case Ok(rst) =>
        var (outcome, m2) := ResponderReply(rst, e);
        Deliver(SetThread(t, x, p, Up(outcome, e)), packet.from, Answer(s.socks[(x, p)], m2))
  }

  predicate CanFinish(c: Party, s: State, x: Node, p: Node) {
    At(c, s, x, Talking) && Th(s, x, p).Sent? && (x, p) in s.socks && Box(s, x, p) != []
  }

  function DoFinish(c: Party, s: State, x: Node, p: Node): State
    requires CanFinish(c, s, x, p)
  {
    var packet, ist := Box(s, x, p)[0], Th(s, x, p).ist;
    var t := Drop(s, s.socks[(x, p)]);
    if packet.Hello? then SetThread(t, x, p, Broken)
    else
      match InitiatorFinish(ist, c.secret[x], packet.m2)
      case Err(_) => SetThread(t, x, p, Broken)
      case Ok(outcome) => SetThread(t, x, p, Up(outcome, ist.eSecret))
  }

  predicate CanConclude(c: Party, s: State, x: Node) {
    At(c, s, x, Talking) && forall p :: p in c.peers[x] ==> Th(s, x, p).Up?
  }

  predicate Enabled(c: Party, s: State, a: Action) {
    match a
    case Join(x) => At(c, s, x, Outside)
    case ReadRoster(x) => At(c, s, x, Waiting) && |s.members| >= |c.group|
    case Post(x, k, addr) => CanPost(c, s, x, k, addr)
    case StartResolving(x) => x in c.peers && At(c, s, x, Posting(|c.peers[x]|))
    case Resolve(x, k) => CanResolve(c, s, x, k)
    case Spawn(x) => x in c.peers && At(c, s, x, Resolving(|c.peers[x]|))
    case SendHello(x, p, _) => CanSendHello(c, s, x, p)
    case Accept(x, p, _) => CanAccept(c, s, x, p)
    case Finish(x, p) => CanFinish(c, s, x, p)
    case Conclude(x) => CanConclude(c, s, x)
  }

  function Next(c: Party, s: State, a: Action): State
    requires Enabled(c, s, a)
  {
    match a
    case Join(x) => DoJoin(s, x)
    case ReadRoster(x) => SetNode(s, x, Posting(0))
    case Post(x, k, addr) => DoPost(c, s, x, k, addr)
    case StartResolving(x) => SetNode(s, x, Resolving(0))
    case Resolve(x, k) => DoResolve(c, s, x, k)
    case Spawn(x) => DoSpawn(c, s, x)
    case SendHello(x, p, e) => DoSendHello(c, s, x, p, e)
    case Accept(x, p, e) => DoAccept(c, s, x, p, e)
    case Finish(x, p) => DoFinish(c, s, x, p)
    case Conclude(x) => SetNode(s, x, Done)
  }

  // ----- invariant: board and sockets -----

  function PostedCount(c: Party, n: Phase, x: Node): nat
    requires x in c.peers
  {
    match n
    case Outside => 0
    case Waiting => 0
    case Posting(k) => k
    case _ => |c.peers[x]|
  }

  function ResolvedCount(c: Party, n: Phase, x: Node): nat
    requires x in c.peers
  {
    match n
    case Resolving(k) => k
    case Talking => |c.peers[x]|
    case Done => |c.peers[x]|
    case _ => 0
  }

  ghost predicate HasPosted(c: Party, s: State, x: Node)
    requires x in c.peers && x in s.nodes
  {
    var n := PostedCount(c, s.nodes[x], x);
    && n <= |c.peers[x]|
    && (forall i :: 0 <= i < |c.peers[x]| ==> ((x, c.peers[x][i]) in s.socks <==> i < n))
    && (x in s.cands <==> s.nodes[x] != Outside)
    && (x in s.cands ==>
          && |s.cands[x]| == n
          && forall i :: 0 <= i < n ==> s.cands[x][i] == Tagged(c.peers[x][i], s.socks[(x, c.peers[x][i])]))
  }

  ghost predicate BoardOk(c: Party, s: State)
    requires ValidParty(c)
  {
    && s.nodes.Keys == c.group
    && s.members <= c.group
    && (forall x :: x in c.group ==> (x in s.members <==> s.nodes[x] != Outside))
    && (forall x :: x in c.group && s.nodes[x] != Outside && s.nodes[x] != Waiting ==> s.members == c.group)
    && (forall x :: x in c.group ==> HasPosted(c, s, x))
  }

  /** Every socket belongs to one ordered pair of the party and no two share an address. */
  ghost predicate SocketsOk(c: Party, s: State) {
    && (forall x, p :: (x, p) in s.socks ==> x in c.group && p in c.group && x != p)
    && (forall k :: k in s.socks ==> s.socks[k] in s.inbox)
    && (forall k, l :: k in s.socks && l in s.socks && k != l ==> s.socks[k] != s.socks[l])
  }

  /** Every resolved address is the peer's socket dedicated to this node. */
  ghost predicate RoutesOk(c: Party, s: State)
    requires ValidParty(c)
  {
    && (forall x :: x in c.group && x in s.nodes ==> ResolvedCount(c, s.nodes[x], x) <= |c.peers[x]|)
    && (forall x, i :: x in c.group && x in s.nodes && 0 <= i < |c.peers[x]| ==>
          ((x, c.peers[x][i]) in s.resolved <==> i < ResolvedCount(c, s.nodes[x], x)))
    && (forall x, p :: (x, p) in s.resolved ==> (p, x) in s.socks && s.resolved[(x, p)] == s.socks[(p, x)])
  }

  predicate Speaking(n: Phase) { n.Talking? || n.Done? }

  ghost predicate ThreadsOk(c: Party, s: State)
    requires ValidParty(c)
  {
    && (forall x, p :: (x, p) in s.threads ==> x in c.group && p in c.group && x != p)
    && (forall x, p :: x in c.group && x in s.nodes && p in c.peers[x] ==>
          && (Th(s, x, p) == Unborn <==> !Speaking(s.nodes[x]))
          && (s.nodes[x].Done? ==> Th(s, x, p).Up?))
  }

  // ----- invariant: each pair's handshake -----

  /** The outcome pair of an honest handshake between `x` (initiator) and `p`. */
  ghost predicate Answered(c: Party, x: Node, p: Node, ist: InitiatorState, theirs: Thread, m2: RawMessage2)
    requires x in c.secret && p in c.secret
  {
    && theirs.Up?
    && var (_, m1) := InitiatorStart(c.secret[x], ist.eSecret, Public(c.secret[p]), c.code);
       var got := ResponderReceive(c.secret[p], c.code, m1);
       got.Ok? && (theirs.outcome, m2) == ResponderReply(got.value, theirs.e)
  }

  ghost predicate Agreed(c: Party, x: Node, p: Node, mine: Outcome, theirs: Outcome)
    requires x in c.secret && p in c.secret
  {
    && mine.keys == theirs.keys && mine.transcript == theirs.transcript
    && mine.remoteStatic == Public(c.secret[p]) && theirs.remoteStatic == Public(c.secret[x])
    && mine.isInitiator && !theirs.isInitiator
  }

  /** Where the handshake of initiator `x` with `p` stands, told from both threads and both sockets. */
  ghost predicate PairOk(c: Party, s: State, x: Node, p: Node)
    requires x in c.secret && p in c.secret
  {
    match Th(s, x, p)
    case Broken => false
    case Sent(ist) =>
      && ist == InitiatorStart(c.secret[x], ist.eSecret, Public(c.secret[p]), c.code).0
      && (x, p) in s.socks && (p, x) in s.socks
      && (match Th(s, p, x)
          case Unborn => Box(s, x, p) == [] && Greeted(c, s, x, p, ist)
          case Ready => Box(s, x, p) == [] && Greeted(c, s, x, p, ist)
          case Up(_, _) =>
            && Box(s, p, x) == [] && |Box(s, x, p)| == 1 && Box(s, x, p)[0].Answer?
            && Answered(c, x, p, ist, Th(s, p, x), Box(s, x, p)[0].m2)
          case _ => false)
    case Up(mine, _) =>
      && Th(s, p, x).Up? && Agreed(c, x, p, mine, Th(s, p, x).outcome)
      && Box(s, x, p) == [] && Box(s, p, x) == []
    case _ =>
      (Th(s, p, x) == Unborn || Th(s, p, x) == Ready) && Box(s, x, p) == [] && Box(s, p, x) == []
  }

  ghost predicate Greeted(c: Party, s: State, x: Node, p: Node, ist: InitiatorState)
    requires x in c.secret && p in c.secret && (x, p) in s.socks
  {
    Box(s, p, x)
    == [Hello(s.socks[(x, p)], InitiatorStart(c.secret[x], ist.eSecret, Public(c.secret[p]), c.code).1)]
  }

  ghost predicate PairsOk(c: Party, s: State)
    requires ValidParty(c)
  {
    forall x, p :: x in c.group && p in c.group && Initiates(c, x, p) ==> PairOk(c, s, x, p)
  }

  ghost predicate Inv(c: Party, s: State)
    requires ValidParty(c)
  {
    BoardOk(c, s) && SocketsOk(c, s) && RoutesOk(c, s) && ThreadsOk(c, s) && PairsOk(c, s)
  }

  lemma StartInv(c: Party)
    requires ValidParty(c)
    ensures Inv(c, Start(c))
  {
    hide DistinctNames, EveryoneListed, InitiatorStart, ResponderReceive, ResponderReply, InitiatorFinish, Initiates;
    var s := Start(c);
    assert BoardOk(c, s);
    assert PairsOk(c, s);
  }

  // ----- facts about the party -----

  lemma Listed(c: Party, x: Node, p: Node)
    requires ValidParty(c) && x in c.group
    ensures p in c.peers[x] <==> p in c.group && p != x
  {
    hide DistinctNames;
  }

  lemma ListedOnce(c: Party, x: Node, k: nat)
    requires ValidParty(c) && x in c.group && k < |c.peers[x]|
    ensures c.peers[x][k] in c.group && c.peers[x][k] != x
    ensures forall i :: 0 <= i < |c.peers[x]| && i != k ==> c.peers[x][i] != c.peers[x][k]
  {
    hide DistinctNames;
    assert c.peers[x][k] in c.peers[x];
  }

  // ----- frames -----

  /** A thread that has not spoken yet counts the same whether or not it has been spawned. */
  ghost predicate SameSpeech(s: State, t: State, x: Node, p: Node) {
    Th(s, x, p) == Th(t, x, p) || (Th(s, x, p) == Unborn && Th(t, x, p) == Ready)
  }

  ghost predicate SamePair(s: State, t: State, x: Node, p: Node) {
    && SameSpeech(s, t, x, p) && SameSpeech(s, t, p, x)
    && Box(s, x, p) == Box(t, x, p) && Box(s, p, x) == Box(t, p, x)
    && ((x, p) in s.socks ==> (x, p) in t.socks && t.socks[(x, p)] == s.socks[(x, p)])
    && ((p, x) in s.socks ==> (p, x) in t.socks && t.socks[(p, x)] == s.socks[(p, x)])
  }

  lemma PairFrame(c: Party, s: State, t: State, x: Node, p: Node)
    requires x in c.secret && p in c.secret && PairOk(c, s, x, p) && SamePair(s, t, x, p)
    ensures PairOk(c, t, x, p)
  {
    hide InitiatorStart, ResponderReceive, ResponderReply, InitiatorFinish;
  }

  lemma PairsFrame(c: Party, s: State, t: State)
    requires ValidParty(c) && PairsOk(c, s)
    requires forall x, p :: x in c.group && p in c.group && Initiates(c, x, p) ==> SamePair(s, t, x, p)
    ensures PairsOk(c, t)
  {
    hide PairOk, SamePair, Initiates;
    forall x, p | x in c.group && p in c.group && Initiates(c, x, p) ensures PairOk(c, t, x, p) {
      PairFrame(c, s, t, x, p);
    }
  }

  lemma HasPostedFrame(c: Party, s: State, t: State, y: Node)
    requires y in c.peers && y in s.nodes && y in t.nodes && HasPosted(c, s, y)
    requires PostedCount(c, s.nodes[y], y) == PostedCount(c, t.nodes[y], y)
    requires (s.nodes[y] == Outside <==> t.nodes[y] == Outside)
    requires (y in s.cands <==> y in t.cands) && (y in s.cands ==> s.cands[y] == t.cands[y])
    requires forall i :: 0 <= i < |c.peers[y]| ==>
               var k := (y, c.peers[y][i]);
               (k in s.socks <==> k in t.socks) && (k in s.socks ==> s.socks[k] == t.socks[k])
    ensures HasPosted(c, t, y)
  {
    assert forall i :: 0 <= i < |c.peers[y]| ==> ((y, c.peers[y][i]) in s.socks <==> (y, c.peers[y][i]) in t.socks);
  }

  lemma RoutesFrame(c: Party, s: State, t: State)
    requires ValidParty(c) && RoutesOk(c, s) && s.nodes.Keys == t.nodes.Keys == c.group
    requires forall x :: x in c.group ==> ResolvedCount(c, s.nodes[x], x) == ResolvedCount(c, t.nodes[x], x)
    requires t.resolved == s.resolved
    requires forall k :: k in s.socks ==> k in t.socks && t.socks[k] == s.socks[k]
    ensures RoutesOk(c, t)
  {
    hide DistinctNames, EveryoneListed;
  }

  lemma ThreadsFrame(c: Party, s: State, t: State)
    requires ValidParty(c) && ThreadsOk(c, s) && s.nodes.Keys == t.nodes.Keys == c.group && t.threads == s.threads
    requires forall x :: x in c.group ==>
               (s.nodes[x] == t.nodes[x] || (!Speaking(s.nodes[x]) && !Speaking(t.nodes[x])))
    ensures ThreadsOk(c, t)
  {
    hide DistinctNames, EveryoneListed;
  }

  lemma PairsUntouched(c: Party, s: State, t: State)
    requires ValidParty(c) && PairsOk(c, s)
    requires t.threads == s.threads && t.socks == s.socks && t.inbox == s.inbox
    ensures PairsOk(c, t)
  {
    hide DistinctNames, EveryoneListed, PairsOk, PairOk, Initiates;
    forall x: Node, p: Node ensures SamePair(s, t, x, p) {
    }
    PairsFrame(c, s, t);
  }

  /** Moving `x` between phases that have published alike keeps the board. */
  lemma BoardMove(c: Party, s: State, t: State, x: Node)
    requires ValidParty(c) && BoardOk(c, s) && x in c.group && t.nodes.Keys == c.group
    requires forall y :: y in c.group && y != x ==> t.nodes[y] == s.nodes[y]
    requires s.nodes[x] != Outside && t.nodes[x] != Outside
    requires t.nodes[x] == Waiting || s.members == c.group
    requires PostedCount(c, s.nodes[x], x) == PostedCount(c, t.nodes[x], x)
    requires t.members == s.members && t.cands == s.cands && t.socks == s.socks
    ensures BoardOk(c, t)
  {
    hide DistinctNames, EveryoneListed, HasPosted;
    forall y | y in c.group ensures HasPosted(c, t, y) {
      HasPostedFrame(c, s, t, y);
    }
  }

  /** A step that only moves `x` between silent phases that publish and resolve alike. */
  lemma PhaseKeeps(c: Party, s: State, x: Node, n: Phase)
    requires ValidParty(c) && Inv(c, s) && x in c.group && x in s.nodes && s.nodes.Keys == c.group
    requires s.nodes[x] != Outside && n != Outside && s.members == c.group && !Speaking(s.nodes[x]) && !Speaking(n)
    requires PostedCount(c, s.nodes[x], x) == PostedCount(c, n, x)
    requires ResolvedCount(c, s.nodes[x], x) == ResolvedCount(c, n, x)
    ensures Inv(c, SetNode(s, x, n))
  {
    hide DistinctNames, EveryoneListed, PairsOk, RoutesOk, ThreadsOk, BoardOk;
    var t := SetNode(s, x, n);
    BoardMove(c, s, t, x);
    RoutesFrame(c, s, t);
    ThreadsFrame(c, s, t);
    PairsUntouched(c, s, t);
  }

  // ----- board actions -----

  lemma JoinBoard(c: Party, s: State, x: Node)
    requires ValidParty(c) && BoardOk(c, s) && At(c, s, x, Outside)
    ensures BoardOk(c, DoJoin(s, x))
  {
    hide DistinctNames, EveryoneListed, HasPosted;
    var t := DoJoin(s, x);
    forall y | y in c.group ensures HasPosted(c, t, y) {
      if y == x {
        EmptyPosted(c, s, t, x);
      } else {
        HasPostedFrame(c, s, t, y);
      }
    }
  }

  lemma EmptyPosted(c: Party, s: State, t: State, x: Node)
    requires x in c.peers && x in s.nodes && x in t.nodes && HasPosted(c, s, x) && s.nodes[x] == Outside
    requires t.nodes[x] == Waiting && t.socks == s.socks && x in t.cands && t.cands[x] == []
    ensures HasPosted(c, t, x)
  {
  }

  lemma JoinKeeps(c: Party, s: State, x: Node)
    requires ValidParty(c) && Inv(c, s) && At(c, s, x, Outside)
    ensures Inv(c, DoJoin(s, x))
  {
    hide DistinctNames, EveryoneListed, PairsOk, RoutesOk, ThreadsOk, HasPosted;
    var t := DoJoin(s, x);
    JoinBoard(c, s, x);
    hide BoardOk;
    RoutesFrame(c, s, t);
    ThreadsFrame(c, s, t);
    PairsUntouched(c, s, t);
  }

  lemma RosterKeeps(c: Party, s: State, x: Node)
    requires ValidParty(c) && Inv(c, s) && At(c, s, x, Waiting) && |s.members| >= |c.group|
    ensures Inv(c, SetNode(s, x, Posting(0)))
  {
    hide DistinctNames, EveryoneListed, PairsOk, RoutesOk, ThreadsOk, HasPosted, SocketsOk;
    assert c.group == s.members + (c.group - s.members);
    assert s.members == c.group;
    PhaseKeeps(c, s, x, Posting(0));
  }

  lemma StartResolvingKeeps(c: Party, s: State, x: Node)
    requires ValidParty(c) && Inv(c, s) && x in c.peers && At(c, s, x, Posting(|c.peers[x]|))
    ensures Inv(c, SetNode(s, x, Resolving(0)))
  {
    hide DistinctNames, EveryoneListed, PairsOk, RoutesOk, ThreadsOk, HasPosted, SocketsOk;
    PhaseKeeps(c, s, x, Resolving(0));
  }

  // ----- publishing -----

  lemma PostPosted(c: Party, s: State, x: Node, k: nat, addr: Socket)
    requires ValidParty(c) && x in c.group && x in s.nodes && HasPosted(c, s, x) && CanPost(c, s, x, k, addr)
    ensures HasPosted(c, DoPost(c, s, x, k, addr), x)
    ensures (x, c.peers[x][k]) !in s.socks
  {
    hide DistinctNames, EveryoneListed;
    ListedOnce(c, x, k);
  }

  lemma PostBoard(c: Party, s: State, x: Node, k: nat, addr: Socket)
    requires ValidParty(c) && BoardOk(c, s) && CanPost(c, s, x, k, addr)
    ensures BoardOk(c, DoPost(c, s, x, k, addr))
  {
    hide DistinctNames, EveryoneListed, HasPosted;
    var t := DoPost(c, s, x, k, addr);
    PostPosted(c, s, x, k, addr);
    forall y | y in c.group ensures HasPosted(c, t, y) {
      if y != x {
        HasPostedFrame(c, s, t, y);
      }
    }
  }

  lemma PostBoxes(c: Party, s: State, x: Node, k: nat, addr: Socket, y: Node, q: Node)
    requires CanPost(c, s, x, k, addr) && SocketsOk(c, s) && (x, c.peers[x][k]) !in s.socks
    ensures SamePair(s, DoPost(c, s, x, k, addr), y, q)
  {
  }

  lemma PostSockets(c: Party, s: State, x: Node, k: nat, addr: Socket)
    requires ValidParty(c) && SocketsOk(c, s) && x in c.group && CanPost(c, s, x, k, addr)
    requires (x, c.peers[x][k]) !in s.socks
    ensures SocketsOk(c, DoPost(c, s, x, k, addr))
  {
    hide DistinctNames, EveryoneListed;
    ListedOnce(c, x, k);
  }

  lemma PostKeeps(c: Party, s: State, x: Node, k: nat, addr: Socket)
    requires ValidParty(c) && Inv(c, s) && CanPost(c, s, x, k, addr)
    ensures Inv(c, DoPost(c, s, x, k, addr))
  {
    hide DistinctNames, EveryoneListed, PairsOk, PairOk, RoutesOk, ThreadsOk, HasPosted, SocketsOk, SamePair;
    var t := DoPost(c, s, x, k, addr);
    assert x in c.group;
    PostPosted(c, s, x, k, addr);
    PostBoard(c, s, x, k, addr);
    PostSockets(c, s, x, k, addr);
    RoutesFrame(c, s, t);
    ThreadsFrame(c, s, t);
    forall y: Node, q: Node ensures SamePair(s, t, y, q) {
      PostBoxes(c, s, x, k, addr, y, q);
    }
    PairsFrame(c, s, t);
  }

  // ----- resolving -----

  lemma {:induction false} LookupFinds(cands: seq<Tagged<Node, Socket>>, me: Node)
    ensures Lookup(cands, me).Some? <==> exists i :: 0 <= i < |cands| && cands[i].peer == me
    ensures Lookup(cands, me).Some? ==> exists i :: 0 <= i < |cands| && cands[i] == Tagged(me, Lookup(cands, me).value)
  {
    if cands != [] {
      LookupFinds(cands[1..], me);
      assert forall i :: 0 <= i < |cands[1..]| ==> cands[1..][i] == cands[i + 1];
      if cands[0].peer == me {
        assert cands[0] == Tagged(me, cands[0].addr);
      } else if Lookup(cands[1..], me).Some? {
        var i :| 0 <= i < |cands[1..]| && cands[1..][i] == Tagged(me, Lookup(cands[1..], me).value);
        assert cands[i + 1] == Tagged(me, Lookup(cands, me).value);
      }
    }
  }

  /** What a node finds under its own tag is the peer's socket for it. */
  lemma LookupIsPeerSocket(c: Party, s: State, p: Node, x: Node)
    requires p in c.peers && p in s.nodes && HasPosted(c, s, p) && p in s.cands && Lookup(s.cands[p], x).Some?
    ensures (p, x) in s.socks && Lookup(s.cands[p], x).value == s.socks[(p, x)]
  {
    LookupFinds(s.cands[p], x);
    var i :| 0 <= i < |s.cands[p]| && s.cands[p][i] == Tagged(x, Lookup(s.cands[p], x).value);
    assert s.cands[p][i] == Tagged(c.peers[p][i], s.socks[(p, c.peers[p][i])]);
  }

  lemma ResolveRoutes(c: Party, s: State, x: Node, k: nat)
    requires ValidParty(c) && BoardOk(c, s) && RoutesOk(c, s) && CanResolve(c, s, x, k)
    ensures RoutesOk(c, DoResolve(c, s, x, k))
  {
    hide DistinctNames, EveryoneListed, HasPosted, Lookup;
    ListedOnce(c, x, k);
    LookupIsPeerSocket(c, s, c.peers[x][k], x);
  }

  lemma ResolveKeeps(c: Party, s: State, x: Node, k: nat)
    requires ValidParty(c) && Inv(c, s) && CanResolve(c, s, x, k)
    ensures Inv(c, DoResolve(c, s, x, k))
  {
    hide DistinctNames, EveryoneListed, PairsOk, RoutesOk, ThreadsOk, HasPosted, Lookup;
    var t := DoResolve(c, s, x, k);
    ResolveRoutes(c, s, x, k);
    BoardMove(c, s, t, x);
    ThreadsFrame(c, s, t);
    PairsUntouched(c, s, t);
  }

  // ----- spawning and concluding -----

  lemma SpawnedThread(c: Party, s: State, x: Node, y: Node, q: Node)
    requires x in c.peers
    ensures Th(DoSpawn(c, s, x), y, q) == if y == x && q in c.peers[x] then Ready else Th(s, y, q)
    ensures (y, q) in DoSpawn(c, s, x).threads <==> (y, q) in s.threads || (y == x && q in c.peers[x])
  {
  }

  lemma SpawnSpeech(c: Party, s: State, x: Node, y: Node, q: Node)
    requires ValidParty(c) && ThreadsOk(c, s) && s.nodes.Keys == c.group && x in c.group
    requires s.nodes[x] == Resolving(|c.peers[x]|)
    ensures SameSpeech(s, DoSpawn(c, s, x), y, q)
  {
    hide DistinctNames, EveryoneListed;
    SpawnedThread(c, s, x, y, q);
  }

  lemma SpawnThreads(c: Party, s: State, x: Node)
    requires ValidParty(c) && ThreadsOk(c, s) && s.nodes.Keys == c.group && x in c.group
    requires s.nodes[x] == Resolving(|c.peers[x]|)
    ensures ThreadsOk(c, DoSpawn(c, s, x))
  {
    hide DistinctNames, EveryoneListed;
    var t := DoSpawn(c, s, x);
    forall y: Node, q: Node | (y, q) in t.threads ensures y in c.group && q in c.group && y != q {
      SpawnedThread(c, s, x, y, q);
      Listed(c, x, q);
    }
    forall y: Node, q: Node | y in c.group && q in c.peers[y]
      ensures Th(t, y, q) == Unborn <==> !Speaking(t.nodes[y])
      ensures t.nodes[y].Done? ==> Th(t, y, q).Up?
    {
      SpawnedThread(c, s, x, y, q);
    }
  }

  lemma SpawnKeeps(c: Party, s: State, x: Node)
    requires ValidParty(c) && Inv(c, s) && x in c.peers && At(c, s, x, Resolving(|c.peers[x]|))
    ensures Inv(c, DoSpawn(c, s, x))
  {
    hide DistinctNames, EveryoneListed, PairsOk, PairOk, RoutesOk, ThreadsOk, HasPosted, SameSpeech;
    var t := DoSpawn(c, s, x);
    SpawnThreads(c, s, x);
    BoardMove(c, s, t, x);
    RoutesFrame(c, s, t);
    forall y: Node, q: Node ensures SamePair(s, t, y, q) {
      SpawnSpeech(c, s, x, y, q);
      SpawnSpeech(c, s, x, q, y);
    }
    PairsFrame(c, s, t);
  }

  lemma ConcludeThreads(c: Party, s: State, x: Node)
    requires ValidParty(c) && ThreadsOk(c, s) && CanConclude(c, s, x)
    ensures ThreadsOk(c, SetNode(s, x, Done))
  {
    hide DistinctNames, EveryoneListed;
  }

  lemma ConcludeKeeps(c: Party, s: State, x: Node)
    requires ValidParty(c) && Inv(c, s) && CanConclude(c, s, x)
    ensures Inv(c, SetNode(s, x, Done))
  {
    hide DistinctNames, EveryoneListed, PairsOk, RoutesOk, HasPosted, ThreadsOk;
    var t := SetNode(s, x, Done);
    BoardMove(c, s, t, x);
    RoutesFrame(c, s, t);
    ConcludeThreads(c, s, x);
    PairsUntouched(c, s, t);
  }

  // ----- handshakes -----

  /** A handshake step of `x` towards `p` touches one thread and at most the two sockets of the pair. */
  ghost predicate OnlyPair(s: State, t: State, x: Node, p: Node) {
    && (x, p) in s.socks && (p, x) in s.socks
    && t.nodes == s.nodes && t.members == s.members && t.cands == s.cands
    && t.socks == s.socks && t.resolved == s.resolved
    && t.inbox.Keys == s.inbox.Keys
    && (forall a :: a in s.inbox && a != s.socks[(x, p)] && a != s.socks[(p, x)] ==> t.inbox[a] == s.inbox[a])
    && (x, p) in t.threads && t.threads == s.threads[(x, p) := t.threads[(x, p)]]
  }

  lemma OthersUntouched(c: Party, s: State, t: State, x: Node, p: Node, y: Node, q: Node)
    requires SocketsOk(c, s) && OnlyPair(s, t, x, p) && (y, q) != (x, p) && (y, q) != (p, x)
    ensures SamePair(s, t, y, q)
  {
  }

  lemma OnlyPairThreads(c: Party, s: State, t: State, x: Node, p: Node)
    requires ValidParty(c) && ThreadsOk(c, s) && s.nodes.Keys == c.group && OnlyPair(s, t, x, p) && SocketsOk(c, s)
    requires s.nodes[x].Talking? && Th(t, x, p) != Unborn
    ensures ThreadsOk(c, t)
  {
    hide DistinctNames, EveryoneListed;
  }

  lemma OnlyPairBoard(c: Party, s: State, t: State, x: Node, p: Node)
    requires ValidParty(c) && BoardOk(c, s) && OnlyPair(s, t, x, p)
    ensures BoardOk(c, t)
  {
    hide DistinctNames, EveryoneListed, HasPosted;
    forall y | y in c.group ensures HasPosted(c, t, y) {
      HasPostedFrame(c, s, t, y);
    }
  }

  /** If the touched pair is left in order, the whole state is. */
  lemma HandshakeKeeps(c: Party, s: State, t: State, x: Node, p: Node)
    requires ValidParty(c) && Inv(c, s) && OnlyPair(s, t, x, p) && x in c.group && p in c.group
    requires x in s.nodes && s.nodes[x].Talking? && Th(t, x, p) != Unborn
    requires Initiates(c, x, p) ==> PairOk(c, t, x, p)
    requires Initiates(c, p, x) ==> PairOk(c, t, p, x)
    ensures Inv(c, t)
  {
    hide DistinctNames, EveryoneListed, PairOk, SamePair, HasPosted, RoutesOk, ThreadsOk, Initiates;
    OnlyPairBoard(c, s, t, x, p);
    OnlyPairThreads(c, s, t, x, p);
    RoutesFrame(c, s, t);
    forall y, q | y in c.group && q in c.group && Initiates(c, y, q) ensures PairOk(c, t, y, q) {
      if (y, q) != (x, p) && (y, q) != (p, x) {
        OthersUntouched(c, s, t, x, p, y, q);
        PairFrame(c, s, t, y, q);
      }
    }
  }

  lemma Opposite(c: Party, x: Node, p: Node)
    requires ValidParty(c) && x in c.group && p in c.group && x != p
    ensures Initiates(c, x, p) <==> !Initiates(c, p, x)
  {
    hide EveryoneListed, Less;
    OneInitiator(c.name[x], c.name[p]);
  }

  lemma HelloKeeps(c: Party, s: State, x: Node, p: Node, e: Secret)
    requires ValidParty(c) && Inv(c, s) && CanSendHello(c, s, x, p)
    ensures Inv(c, DoSendHello(c, s, x, p, e))
  {
    hide DistinctNames, EveryoneListed, HasPosted, Initiates, InitiatorStart, ResponderReceive, ResponderReply;
    var t := DoSendHello(c, s, x, p, e);
    assert x in c.group && p in c.group && x != p;
    Opposite(c, x, p);
    HelloPair(c, s, x, p, e);
    hide BoardOk, RoutesOk, PairsOk, ThreadsOk, SocketsOk, PairOk, DoSendHello;
    HandshakeKeeps(c, s, t, x, p);
  }

  lemma HelloPair(c: Party, s: State, x: Node, p: Node, e: Secret)
    requires x in c.secret && p in c.secret && CanSendHello(c, s, x, p) && PairOk(c, s, x, p)
    requires (p, x) in s.socks && s.resolved[(x, p)] == s.socks[(p, x)] && s.socks[(p, x)] in s.inbox
    requires s.socks[(x, p)] != s.socks[(p, x)]
    ensures var t := DoSendHello(c, s, x, p, e);
            OnlyPair(s, t, x, p) && PairOk(c, t, x, p) && Th(t, x, p) != Unborn
  {
    StartKeepsSecret(c.secret[x], e, Public(c.secret[p]), c.code);
    hide InitiatorStart, ResponderReceive, ResponderReply, Initiates;
    var t := DoSendHello(c, s, x, p, e);
    assert Box(t, p, x) == Box(s, p, x) + [t.inbox[s.socks[(p, x)]][|Box(s, p, x)|]];
  }

  lemma StartKeepsSecret(s: Secret, e: Secret, remote: Term, code: seq<Byte>)
    ensures InitiatorStart(s, e, remote, code).0.eSecret == e
  {
  }

  ghost predicate TwoSockets(s: State, x: Node, p: Node) {
    && (x, p) in s.socks && (p, x) in s.socks && s.socks[(x, p)] != s.socks[(p, x)]
    && s.socks[(x, p)] in s.inbox && s.socks[(p, x)] in s.inbox
  }

  /** `x` takes the one datagram waiting for it and moves its thread on. */
  lemma DropBoxes(s: State, x: Node, p: Node, th: Thread)
    requires TwoSockets(s, x, p) && |Box(s, x, p)| == 1
    ensures var t := SetThread(Drop(s, s.socks[(x, p)]), x, p, th);
            && OnlyPair(s, t, x, p) && TwoSockets(t, x, p) && Box(t, x, p) == [] && Box(t, p, x) == Box(s, p, x)
            && Th(t, x, p) == th && (x != p ==> Th(t, p, x) == Th(s, p, x))
  {
    assert Box(s, x, p)[1..] == [];
  }

  lemma DeliverBoxes(s: State, x: Node, p: Node, packet: Packet)
    requires TwoSockets(s, x, p)
    ensures var t := Deliver(s, s.socks[(p, x)], packet);
            && t == s.(inbox := t.inbox) && t.inbox.Keys == s.inbox.Keys
            && (forall a :: a in s.inbox && a != s.socks[(p, x)] ==> t.inbox[a] == s.inbox[a])
            && Box(t, x, p) == Box(s, x, p) && Box(t, p, x) == Box(s, p, x) + [packet]
  {
  }

  /** A responder that finds a datagram on its socket finds the honest first message of its own initiator. */
  lemma AcceptFinds(c: Party, s: State, x: Node, p: Node)
    requires x in c.secret && p in c.secret && CanAccept(c, s, x, p) && PairOk(c, s, p, x)
    ensures Th(s, p, x).Sent? && (p, x) in s.socks && Box(s, p, x) == [] && Greeted(c, s, p, x, Th(s, p, x).ist)
    ensures Th(s, p, x).ist == InitiatorStart(c.secret[p], Th(s, p, x).ist.eSecret, Public(c.secret[x]), c.code).0
  {
    hide InitiatorStart, ResponderReceive, ResponderReply, Initiates;
  }

  lemma AcceptIs(c: Party, s: State, x: Node, p: Node, e: Secret, ist: InitiatorState, outcome: Outcome,
                 m2: RawMessage2)
    requires x in c.secret && p in c.secret && x != p && CanAccept(c, s, x, p) && TwoSockets(s, x, p)
    requires Box(s, p, x) == [] && Greeted(c, s, p, x, ist) && Answered(c, p, x, ist, Up(outcome, e), m2)
    ensures var t := DoAccept(c, s, x, p, e);
            && OnlyPair(s, t, x, p) && Th(t, x, p) == Up(outcome, e) && Th(t, p, x) == Th(s, p, x)
            && Box(t, x, p) == [] && Box(t, p, x) == [Answer(s.socks[(x, p)], m2)]
  {
    hide InitiatorStart, ResponderReceive, ResponderReply, Initiates;
    var mid := SetThread(Drop(s, s.socks[(x, p)]), x, p, Up(outcome, e));
    DropBoxes(s, x, p, Up(outcome, e));
    DeliverBoxes(mid, x, p, Answer(s.socks[(x, p)], m2));
    assert DoAccept(c, s, x, p, e) == Deliver(mid, s.socks[(p, x)], Answer(s.socks[(x, p)], m2));
  }

  lemma AcceptPair(c: Party, s: State, x: Node, p: Node, e: Secret)
    requires x in c.secret && p in c.secret && x != p
    requires CanAccept(c, s, x, p) && PairOk(c, s, p, x) && TwoSockets(s, x, p)
    ensures var t := DoAccept(c, s, x, p, e);
            OnlyPair(s, t, x, p) && PairOk(c, t, p, x) && Th(t, x, p) != Unborn
  {
    hide InitiatorStart, ResponderReceive, ResponderReply, InitiatorFinish, Initiates, DoAccept, CanAccept;
    AcceptFinds(c, s, x, p);
    var ist := Th(s, p, x).ist;
    HandshakeAgreement(c.secret[p], ist.eSecret, c.secret[x], e, c.code);
    var m1 := InitiatorStart(c.secret[p], ist.eSecret, Public(c.secret[x]), c.code).1;
    var (outcome, m2) := ResponderReply(ResponderReceive(c.secret[x], c.code, m1).value, e);
    AcceptIs(c, s, x, p, e, ist, outcome, m2);
  }

  /** An initiator that finds a datagram on its socket finds the honest reply to its own message. */
  lemma FinishFinds(c: Party, s: State, x: Node, p: Node)
    requires x in c.secret && p in c.secret && CanFinish(c, s, x, p) && PairOk(c, s, x, p)
    ensures Th(s, p, x).Up? && Box(s, p, x) == [] && |Box(s, x, p)| == 1 && Box(s, x, p)[0].Answer?
    ensures Answered(c, x, p, Th(s, x, p).ist, Th(s, p, x), Box(s, x, p)[0].m2)
    ensures Th(s, x, p).ist == InitiatorStart(c.secret[x], Th(s, x, p).ist.eSecret, Public(c.secret[p]), c.code).0
  {
    hide InitiatorStart, ResponderReceive, ResponderReply, Initiates;
  }

  lemma FinishPair(c: Party, s: State, x: Node, p: Node)
    requires x in c.secret && p in c.secret && x != p
    requires CanFinish(c, s, x, p) && PairOk(c, s, x, p) && TwoSockets(s, x, p)
    ensures var t := DoFinish(c, s, x, p);
            OnlyPair(s, t, x, p) && PairOk(c, t, x, p) && Th(t, x, p) != Unborn
  {
    FinishFinds(c, s, x, p);
    var ist, theirs, m2 := Th(s, x, p).ist, Th(s, p, x), Box(s, x, p)[0].m2;
    HandshakeAgreement(c.secret[x], ist.eSecret, c.secret[p], theirs.e, c.code);
    hide InitiatorStart, ResponderReceive, ResponderReply, InitiatorFinish, Initiates;
    var done := InitiatorFinish(ist, c.secret[x], m2);
    assert done.Ok? && Agreed(c, x, p, done.value, theirs.outcome);
    var th := Up(done.value, ist.eSecret);
    DropBoxes(s, x, p, th);
    var t := SetThread(Drop(s, s.socks[(x, p)]), x, p, th);
    assert DoFinish(c, s, x, p) == t;
    hide Drop, DoFinish, SetThread;
    assert Th(t, x, p) == th && Th(t, p, x) == theirs;
  }

  lemma BothSockets(c: Party, s: State, x: Node, p: Node)
    requires ValidParty(c) && Inv(c, s) && (x, p) in s.socks && Th(s, x, p) != Unborn && (x, p) in s.threads
    ensures x in c.group && p in c.group && x != p && x in s.nodes && Speaking(s.nodes[x])
    ensures TwoSockets(s, x, p)
  {
    hide DistinctNames, EveryoneListed, HasPosted, PairsOk;
    assert x in c.group && p in c.group && x != p;
    Listed(c, x, p);
    var i :| 0 <= i < |c.peers[x]| && c.peers[x][i] == p;
    assert (x, c.peers[x][i]) in s.resolved;
  }

  lemma AcceptKeeps(c: Party, s: State, x: Node, p: Node, e: Secret)
    requires ValidParty(c) && Inv(c, s) && CanAccept(c, s, x, p)
    ensures Inv(c, DoAccept(c, s, x, p, e))
  {
    var t := DoAccept(c, s, x, p, e);
    hide DistinctNames, EveryoneListed, HasPosted, Initiates, PairOk, DoAccept, BoardOk, RoutesOk, ThreadsOk, SocketsOk;
    BothSockets(c, s, x, p);
    Opposite(c, x, p);
    AcceptPair(c, s, x, p, e);
    hide PairsOk;
    HandshakeKeeps(c, s, t, x, p);
  }

  lemma RespondersNeverSend(c: Party, s: State, x: Node, p: Node)
    requires x in c.secret && p in c.secret && PairOk(c, s, p, x)
    ensures !Th(s, x, p).Sent?
  {
    hide InitiatorStart, ResponderReceive, ResponderReply;
  }

  lemma FinishKeeps(c: Party, s: State, x: Node, p: Node)
    requires ValidParty(c) && Inv(c, s) && CanFinish(c, s, x, p)
    ensures Inv(c, DoFinish(c, s, x, p))
  {
    var t := DoFinish(c, s, x, p);
    hide DistinctNames, EveryoneListed, HasPosted, Initiates, PairOk, DoFinish, BoardOk, RoutesOk, ThreadsOk, SocketsOk;
    BothSockets(c, s, x, p);
    Opposite(c, x, p);
    assert Initiates(c, x, p) by {
      if Initiates(c, p, x) {
        RespondersNeverSend(c, s, x, p);
      }
    }
    FinishPair(c, s, x, p);
    hide PairsOk;
    HandshakeKeeps(c, s, t, x, p);
  }

  lemma StepKeeps(c: Party, s: State, a: Action)
    requires ValidParty(c) && Inv(c, s) && Enabled(c, s, a)
    ensures Inv(c, Next(c, s, a))
  {
    hide Inv, ValidParty, DoPost, DoResolve, DoSendHello, DoAccept, DoFinish;
    match a
    case Join(x) => JoinKeeps(c, s, x);
    case ReadRoster(x) => RosterKeeps(c, s, x);
    case Post(x, k, addr) => PostKeeps(c, s, x, k, addr);
    case StartResolving(x) => StartResolvingKeeps(c, s, x);
    case Resolve(x, k) => ResolveKeeps(c, s, x, k);
    case Spawn(x) => SpawnKeeps(c, s, x);
    case SendHello(x, p, e) => HelloKeeps(c, s, x, p, e);
    case Accept(x, p, e) => AcceptKeeps(c, s, x, p, e);
    case Finish(x, p) => FinishKeeps(c, s, x, p);
    case Conclude(x) => ConcludeKeeps(c, s, x);
  }

  // ----- runs -----

  /** A run: from the start, each state follows from the one before by some enabled action. */
  ghost predicate IsRun(c: Party, states: seq<State>, actions: seq<Action>) {
    && |states| == |actions| + 1 && states[0] == Start(c)
    && forall i :: 0 <= i < |actions| ==>
         Enabled(c, states[i], actions[i]) && states[i + 1] == Next(c, states[i], actions[i])
  }

  lemma {:induction false} RunsKeepInv(c: Party, states: seq<State>, actions: seq<Action>)
    requires ValidParty(c) && IsRun(c, states, actions)
    ensures Inv(c, states[|actions|])
    decreases |actions|
  {
    hide Inv, ValidParty, Enabled, Next, Start;
    if actions == [] {
      StartInv(c);
    } else {
      var n := |actions| - 1;
      assert IsRun(c, states[..n + 1], actions[..n]);
      RunsKeepInv(c, states[..n + 1], actions[..n]);
      StepKeeps(c, states[n], actions[n]);
    }
  }

  /** In every reachable state a resolved address is the peer's socket dedicated to this node. */
  lemma ResolvedIsDedicated(c: Party, states: seq<State>, actions: seq<Action>, x: Node, p: Node)
    requires ValidParty(c) && IsRun(c, states, actions)
    requires (x, p) in states[|actions|].resolved
    ensures var s := states[|actions|]; (p, x) in s.socks && s.resolved[(x, p)] == s.socks[(p, x)]
  {
    hide ValidParty, IsRun;
    RunsKeepInv(c, states, actions);
  }

  lemma PairNotBroken(c: Party, s: State, x: Node, p: Node)
    requires x in c.secret && p in c.secret && PairOk(c, s, x, p)
    ensures Th(s, x, p) != Broken && Th(s, p, x) != Broken
  {
    hide InitiatorStart, ResponderReceive, ResponderReply;
  }

  /** In every reachable state no handshake has failed. */
  lemma NoHandshakeFails(c: Party, states: seq<State>, actions: seq<Action>, x: Node, p: Node)
    requires ValidParty(c) && IsRun(c, states, actions) && x in c.group && p in c.group && x != p
    ensures Th(states[|actions|], x, p) != Broken
  {
    var s := states[|actions|];
    RunsKeepInv(c, states, actions);
    hide IsRun, DistinctNames, EveryoneListed, Initiates, BoardOk, SocketsOk, RoutesOk, ThreadsOk, PairOk;
    Opposite(c, x, p);
    if Initiates(c, x, p) {
      PairNotBroken(c, s, x, p);
    } else {
      PairNotBroken(c, s, p, x);
    }
  }

  /** A node's candidates as they stand on the board: each peer's name and the text of the socket's address. */
  function OnBoard(c: Party, text: Socket -> string, cands: seq<Tagged<Node, Socket>>): seq<Tagged<Id, string>>
    requires forall i :: 0 <= i < |cands| ==> cands[i].peer in c.name
  {
    seq(|cands|, i requires 0 <= i < |cands| => Tagged(c.name[cands[i].peer], text(cands[i].addr)))
  }

  /** Looking up a node's tag is what searching the strings on the board for its name yields, whatever the names. */
  lemma {:induction false} BoardSearch(c: Party, text: Socket -> string, cands: seq<Tagged<Node, Socket>>, me: Node)
    requires c.name.Keys == c.group && DistinctNames(c) && me in c.group && (forall a :: IsAddr(text(a)))
    requires forall i :: 0 <= i < |cands| ==> cands[i].peer in c.group
    ensures FindAddr(Written(OnBoard(c, text, cands)), c.name[me])
         == match Lookup(cands, me) case None => None case Some(addr) => Some(text(addr))
    decreases |cands|
  {
    var board := OnBoard(c, text, cands);
    SearchIsLookup(board, c.name[me]);
    if cands != [] {
      assert board[1..] == OnBoard(c, text, cands[1..]);
      SearchIsLookup(board[1..], c.name[me]);
      BoardSearch(c, text, cands[1..], me);
    }
  }

  /** Every candidate `p` has posted is for a member, and the one for `x` is there as soon as its socket is bound. */
  lemma PostedForMembers(c: Party, s: State, p: Node, x: Node)
    requires ValidParty(c) && p in c.group && x in c.group && x != p
    requires p in s.nodes && p in s.cands && HasPosted(c, s, p)
    ensures forall i :: 0 <= i < |s.cands[p]| ==> s.cands[p][i].peer in c.group
    ensures Lookup(s.cands[p], x) == if (p, x) in s.socks then Some(s.socks[(p, x)]) else None
  {
    hide DistinctNames, EveryoneListed;
    forall i | 0 <= i < |s.cands[p]| ensures s.cands[p][i].peer in c.group {
      ListedOnce(c, p, i);
    }
    LookupFinds(s.cands[p], x);
    if (p, x) in s.socks {
      Listed(c, p, x);
      var j :| 0 <= j < |c.peers[p]| && c.peers[p][j] == x;
      assert s.cands[p][j].peer == x;
    }
    if Lookup(s.cands[p], x).Some? {
      LookupIsPeerSocket(c, s, p, x);
    }
  }

  /**
   In every reachable state, searching the strings `p` has on the board for `x`'s name yields the address of
   the socket `p` keeps for `x`, and nothing as long as there is none; ids may contain any characters.
   */
  lemma BoardNamesDedicatedSocket(c: Party, states: seq<State>, actions: seq<Action>, text: Socket -> string,
                                  p: Node, x: Node)
    requires ValidParty(c) && IsRun(c, states, actions) && x in c.group && p in c.group && x != p
    requires p in states[|actions|].cands && forall a :: IsAddr(text(a))
    ensures var s := states[|actions|];
            && (forall i :: 0 <= i < |s.cands[p]| ==> s.cands[p][i].peer in c.name)
            && FindAddr(Written(OnBoard(c, text, s.cands[p])), c.name[x])
               == if (p, x) in s.socks then Some(text(s.socks[(p, x)])) else None
  {
    var s := states[|actions|];
    RunsKeepInv(c, states, actions);
    hide IsRun, EveryoneListed, PairsOk, SocketsOk, RoutesOk, ThreadsOk, HasPosted, FindAddr, Written, OnBoard, Lookup;
    PostedForMembers(c, s, p, x);
    BoardSearch(c, text, s.cands[p], x);
  }

  // ----- no circular wait -----

  lemma {:induction false} FreshSocket(used: set<Socket>) returns (a: Socket)
    ensures forall u :: u in used ==> u < a
    decreases |used|
  {
    if used == {} {
      a := 0;
    } else {
      var u :| u in used;
      var b := FreshSocket(used - {u});
      a := if b > u then b else u + 1;
      assert forall v :: v in used ==> v == u || v in used - {u};
    }
  }

  lemma PostingMoves(c: Party, s: State, x: Node) returns (a: Action)
    requires ValidParty(c) && Inv(c, s) && x in c.group && x in s.nodes && s.nodes[x].Posting?
    ensures Enabled(c, s, a)
  {
    hide DistinctNames, EveryoneListed, PairsOk, RoutesOk, ThreadsOk, SocketsOk;
    hide CanResolve, CanSendHello, CanAccept, CanFinish, CanConclude;
    assert HasPosted(c, s, x);
    if s.nodes[x].k == |c.peers[x]| {
      a := StartResolving(x);
    } else {
      var addr := FreshSocket(s.inbox.Keys);
      a := Post(x, s.nodes[x].k, addr);
    }
  }

  /** A peer that has published everything can be found by everyone. */
  lemma PublishedIsFound(c: Party, s: State, p: Node, x: Node)
    requires ValidParty(c) && p in c.group && x in c.group && x != p && p in s.nodes && HasPosted(c, s, p)
    requires s.nodes[p].Resolving? || Speaking(s.nodes[p])
    ensures p in s.cands && Lookup(s.cands[p], x).Some?
  {
    hide DistinctNames, EveryoneListed, Lookup;
    Listed(c, p, x);
    var j :| 0 <= j < |c.peers[p]| && c.peers[p][j] == x;
    assert s.cands[p][j].peer == x;
    LookupFinds(s.cands[p], x);
  }

  /** Once everyone has published, nobody waits for an address. */
  lemma ResolvingMoves(c: Party, s: State, x: Node) returns (a: Action)
    requires ValidParty(c) && Inv(c, s) && x in c.group && x in s.nodes && s.nodes[x].Resolving?
    requires forall y :: y in c.group && y in s.nodes ==> s.nodes[y].Resolving? || Speaking(s.nodes[y])
    ensures Enabled(c, s, a)
  {
    hide DistinctNames, EveryoneListed, PairsOk, RoutesOk, ThreadsOk, SocketsOk, Lookup, HasPosted;
    hide CanPost, CanSendHello, CanAccept, CanFinish, CanConclude;
    var k := s.nodes[x].k;
    ResolvedBound(c, s, x);
    if k == |c.peers[x]| {
      a := Spawn(x);
    } else {
      ListedOnce(c, x, k);
      PublishedIsFound(c, s, c.peers[x][k], x);
      a := Resolve(x, k);
    }
  }

  lemma ResolvedBound(c: Party, s: State, x: Node)
    requires ValidParty(c) && Inv(c, s) && x in c.group && x in s.nodes && s.nodes[x].Resolving?
    ensures s.nodes[x].k <= |c.peers[x]|
  {
    hide DistinctNames, EveryoneListed, PairsOk, ThreadsOk, SocketsOk, BoardOk;
    assert ResolvedCount(c, s.nodes[x], x) <= |c.peers[x]|;
  }

  lemma SpeakingIsWired(c: Party, s: State, x: Node, p: Node)
    requires ValidParty(c) && Inv(c, s) && x in c.group && p in c.group && x != p
    requires x in s.nodes && Speaking(s.nodes[x])
    ensures (x, p) in s.socks && (x, p) in s.resolved && Th(s, x, p) != Unborn
    ensures s.nodes[x].Done? ==> Th(s, x, p).Up?
  {
    hide DistinctNames, EveryoneListed, PairsOk, SocketsOk;
    Listed(c, x, p);
    var i :| 0 <= i < |c.peers[x]| && c.peers[x][i] == p;
    assert HasPosted(c, s, x);
    assert (x, c.peers[x][i]) in s.socks && (x, c.peers[x][i]) in s.resolved;
  }

  /** A handshake that is not finished can always move: one of its two sides has something to do. */
  lemma PairMoves(c: Party, s: State, x: Node, p: Node) returns (a: Action)
    requires ValidParty(c) && x in c.group && p in c.group && x != p && PairOk(c, s, x, p)
    requires Initiates(c, x, p) && !Initiates(c, p, x) && x in s.nodes && p in s.nodes
    requires Speaking(s.nodes[x]) && Speaking(s.nodes[p]) && Th(s, x, p) != Unborn && Th(s, p, x) != Unborn
    requires (s.nodes[x].Done? ==> Th(s, x, p).Up?) && (s.nodes[p].Done? ==> Th(s, p, x).Up?)
    requires (x, p) in s.socks && (p, x) in s.socks && (x, p) in s.resolved
    requires !Th(s, x, p).Up? || !Th(s, p, x).Up?
    ensures Enabled(c, s, a)
  {
    hide DistinctNames, EveryoneListed, InitiatorStart, ResponderReceive, ResponderReply, Initiates;
    if Th(s, x, p).Ready? {
      a := SendHello(x, p, 0);
    } else if Th(s, p, x).Ready? {
      a := Accept(p, x, 0);
    } else {
      a := Finish(x, p);
    }
  }

  lemma UnfinishedMoves(c: Party, s: State, x: Node, p: Node) returns (a: Action)
    requires ValidParty(c) && Inv(c, s) && x in c.group && p in c.group && x != p && x in s.nodes && p in s.nodes
    requires Speaking(s.nodes[x]) && Speaking(s.nodes[p]) && !Th(s, x, p).Up?
    ensures Enabled(c, s, a)
  {
    hide DistinctNames, EveryoneListed, PairOk, BoardOk, SocketsOk, ThreadsOk, RoutesOk, Enabled, Initiates;
    Opposite(c, x, p);
    SpeakingIsWired(c, s, x, p);
    SpeakingIsWired(c, s, p, x);
    if Initiates(c, x, p) {
      a := PairMoves(c, s, x, p);
    } else {
      a := PairMoves(c, s, p, x);
    }
  }

  lemma TalkingMoves(c: Party, s: State, x: Node) returns (a: Action)
    requires ValidParty(c) && Inv(c, s) && x in c.group && x in s.nodes && s.nodes[x].Talking?
    requires s.nodes.Keys == c.group && forall y :: y in c.group ==> Speaking(s.nodes[y])
    ensures Enabled(c, s, a)
  {
    hide Inv, DistinctNames, EveryoneListed;
    if CanConclude(c, s, x) {
      a := Conclude(x);
    } else {
      var p :| p in c.peers[x] && !Th(s, x, p).Up?;
      Listed(c, x, p);
      a := UnfinishedMoves(c, s, x, p);
    }
  }

  lemma SomeoneMoves(c: Party, s: State, x: Node) returns (a: Action)
    requires ValidParty(c) && Inv(c, s) && x in c.group && x in s.nodes && s.nodes[x] != Done
    ensures Enabled(c, s, a)
  {
    hide DistinctNames, EveryoneListed, PairsOk, HasPosted, SocketsOk, ThreadsOk, RoutesOk;
    hide CanPost, CanResolve, CanSendHello, CanAccept, CanFinish, CanConclude;
    if y :| y in c.group && s.nodes[y] == Outside {
      a := Join(y);
    } else if y :| y in c.group && s.nodes[y] == Waiting {
      assert s.members == c.group;
      a := ReadRoster(y);
    } else if y :| y in c.group && s.nodes[y].Posting? {
      a := PostingMoves(c, s, y);
    } else if y :| y in c.group && s.nodes[y].Resolving? {
      a := ResolvingMoves(c, s, y);
    } else {
      a := TalkingMoves(c, s, x);
    }
  }

  /** No circular wait: in every reachable state short of the full mesh some action is enabled. */
  lemma NeverStuck(c: Party, states: seq<State>, actions: seq<Action>, x: Node)
    requires ValidParty(c) && IsRun(c, states, actions)
    requires x in c.group && x in states[|actions|].nodes && states[|actions|].nodes[x] != Done
    ensures exists a :: Enabled(c, states[|actions|], a)
  {
    var s := states[|actions|];
    RunsKeepInv(c, states, actions);
    hide IsRun, Inv, ValidParty, Enabled;
    var a := SomeoneMoves(c, s, x);
  }

  /** When everyone is done, every pair holds one session from each side, with the same keys and the right peer. */
  lemma FullMeshAgrees(c: Party, states: seq<State>, actions: seq<Action>, x: Node, p: Node)
    requires ValidParty(c) && IsRun(c, states, actions) && x in c.group && p in c.group && Initiates(c, x, p) && x != p
    requires forall y :: y in states[|actions|].nodes ==> states[|actions|].nodes[y] == Done
    ensures var s := states[|actions|];
            Th(s, x, p).Up? && Th(s, p, x).Up? && Agreed(c, x, p, Th(s, x, p).outcome, Th(s, p, x).outcome)
  {
    var s := states[|actions|];
    RunsKeepInv(c, states, actions);
    hide IsRun, DistinctNames, EveryoneListed, Initiates, InitiatorStart, ResponderReceive, ResponderReply;
    assert x in s.nodes && p in s.nodes;
    SpeakingIsWired(c, s, x, p);
    assert PairOk(c, s, x, p);
  }

  /** Who called whom in the finished mesh: of every two nodes the one whose id comes first. */
  lemma SmallerIdCalled(c: Party, states: seq<State>, actions: seq<Action>, x: Node, p: Node)
    requires ValidParty(c) && IsRun(c, states, actions) && x in c.group && p in c.group && x != p
    requires forall y :: y in states[|actions|].nodes ==> states[|actions|].nodes[y] == Done
    ensures var s := states[|actions|];
            && Th(s, x, p).Up?
            && (Th(s, x, p).outcome.isInitiator <==> exists k: nat :: SmallerAt(c.name[x], c.name[p], k))
  {
    SmallerInitiates(c.name[x], c.name[p]);
    Opposite(c, x, p);
    hide ValidParty, IsRun, Less, SmallerAt;
    if Initiates(c, x, p) {
      FullMeshAgrees(c, states, actions, x, p);
    } else {
      FullMeshAgrees(c, states, actions, p, x);
    }
  }
}
