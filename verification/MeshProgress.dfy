/** Every run of mesh establishment ends: each action reaches a milestone that no earlier action reached. */
module MeshProgress {
  import opened NoiseIk
  import opened Mesh

  datatype Milestone =
    | Joined(x: Node) | Rostered(x: Node) | Published(x: Node, k: nat)
    | Searching(x: Node) | Found(x: Node, k: nat) | Spawned(x: Node)
    | Spoke(x: Node, p: Node) | Settled(x: Node, p: Node) | Concluded(x: Node)

  function Goal(a: Action): Milestone {
    match a
    case Join(x) => Joined(x)
    case ReadRoster(x) => Rostered(x)
    case Post(x, k, _) => Published(x, k)
    case StartResolving(x) => Searching(x)
    case Resolve(x, k) => Found(x, k)
    case Spawn(x) => Spawned(x)
    case SendHello(x, p, _) => Spoke(x, p)
    case Accept(x, p, _) => Settled(x, p)
    case Finish(x, p) => Settled(x, p)
    case Conclude(x) => Concluded(x)
  }

  function Rank(n: Phase): nat {
    match n
    case Outside => 0
    case Waiting => 1
    case Posting(_) => 2
    case Resolving(_) => 3
    case Talking => 4
    case Done => 5
  }

  /** How far a thread has come. */
  function Voice(t: Thread): nat {
    match t
    case Unborn => 0
    case Ready => 0
    case Sent(_) => 1
    case _ => 2
  }

  predicate Reached(s: State, m: Milestone) {
    && m.x in s.nodes
    && match m
       case Joined(x) => Rank(s.nodes[x]) >= 1
       case Rostered(x) => Rank(s.nodes[x]) >= 2
       case Published(x, k) => Rank(s.nodes[x]) >= 3 || (s.nodes[x].Posting? && s.nodes[x].k > k)
       case Searching(x) => Rank(s.nodes[x]) >= 3
       case Found(x, k) => Rank(s.nodes[x]) >= 4 || (s.nodes[x].Resolving? && s.nodes[x].k > k)
       case Spawned(x) => Rank(s.nodes[x]) >= 4
       case Spoke(x, p) => Voice(Th(s, x, p)) >= 1
       case Settled(x, p) => Voice(Th(s, x, p)) >= 2
       case Concluded(x) => s.nodes[x].Done?
  }

  /** No phase goes back. */
  ghost predicate Onward(n: Phase, m: Phase) {
    || Rank(n) < Rank(m)
    || (n == m)
    || (n.Posting? && m.Posting? && n.k <= m.k)
    || (n.Resolving? && m.Resolving? && n.k <= m.k)
  }

  ghost predicate Forward(s: State, t: State) {
    && t.nodes.Keys == s.nodes.Keys
    && (forall x :: x in s.nodes ==> Onward(s.nodes[x], t.nodes[x]))
    && (forall x, p :: Voice(Th(s, x, p)) <= Voice(Th(t, x, p)))
  }

  /** A step moves nodes and threads only forward, and makes its own goal true for the first time. */
  ghost predicate Advances(s: State, t: State, goal: Milestone) {
    Forward(s, t) && !Reached(s, goal) && Reached(t, goal)
  }

  lemma NodeMoves(s: State, t: State, x: Node)
    requires x in s.nodes && x in t.nodes && t.nodes == s.nodes[x := t.nodes[x]] && Onward(s.nodes[x], t.nodes[x])
    requires t.threads == s.threads
    ensures Forward(s, t)
  {
  }

  lemma ThreadMoves(s: State, t: State, x: Node, p: Node, th: Thread)
    requires t.nodes == s.nodes && t.threads == s.threads[(x, p) := th] && Voice(Th(s, x, p)) < Voice(th)
    ensures Forward(s, t) && Th(t, x, p) == th
  {
  }

  lemma SpawnMoves(c: Party, s: State, x: Node)
    requires ValidParty(c) && Inv(c, s) && x in c.peers && At(c, s, x, Resolving(|c.peers[x]|))
    ensures Advances(s, DoSpawn(c, s, x), Spawned(x))
  {
    hide DistinctNames, EveryoneListed, PairsOk, HasPosted, SocketsOk, RoutesOk;
    var t := DoSpawn(c, s, x);
    assert x in c.group && t.nodes == s.nodes[x := Talking];
    forall y: Node, q: Node ensures Voice(Th(s, y, q)) <= Voice(Th(t, y, q)) {
      SpawnSpeech(c, s, x, y, q);
    }
  }

  lemma HelloMoves(c: Party, s: State, x: Node, p: Node, e: Secret)
    requires CanSendHello(c, s, x, p)
    ensures Advances(s, DoSendHello(c, s, x, p, e), Spoke(x, p))
  {
    hide InitiatorStart, Initiates;
    var t := DoSendHello(c, s, x, p, e);
    ThreadMoves(s, t, x, p, t.threads[(x, p)]);
  }

  lemma AcceptMoves(c: Party, s: State, x: Node, p: Node, e: Secret)
    requires CanAccept(c, s, x, p)
    ensures Advances(s, DoAccept(c, s, x, p, e), Settled(x, p))
  {
    hide ResponderReceive, ResponderReply, Initiates;
    var t := DoAccept(c, s, x, p, e);
    ThreadMoves(s, t, x, p, t.threads[(x, p)]);
  }

  lemma FinishMoves(c: Party, s: State, x: Node, p: Node)
    requires CanFinish(c, s, x, p)
    ensures Advances(s, DoFinish(c, s, x, p), Settled(x, p))
  {
    hide InitiatorFinish, Initiates;
    var t := DoFinish(c, s, x, p);
    ThreadMoves(s, t, x, p, t.threads[(x, p)]);
  }

  /** The actions of one node on its own. */
  lemma PhaseMoves(c: Party, s: State, a: Action)
    requires Enabled(c, s, a) && !a.Spawn? && !a.SendHello? && !a.Accept? && !a.Finish?
    ensures Advances(s, Next(c, s, a), Goal(a))
  {
    hide Forward, Th, DoSendHello, DoAccept, DoFinish, DoSpawn, CanSendHello, CanAccept, CanFinish;
    NodeMoves(s, Next(c, s, a), a.x);
  }

  lemma StepAdvances(c: Party, s: State, a: Action)
    requires ValidParty(c) && Inv(c, s) && Enabled(c, s, a)
    ensures Advances(s, Next(c, s, a), Goal(a))
  {
    hide Inv, ValidParty, Advances, DoJoin, DoPost, DoResolve, DoSendHello, DoAccept, DoFinish, DoSpawn;
    hide CanSendHello, CanAccept, CanFinish, CanPost, CanResolve, CanConclude;
    match a
    case Spawn(x) => SpawnMoves(c, s, x);
    case SendHello(x, p, e) => HelloMoves(c, s, x, p, e);
    case Accept(x, p, e) => AcceptMoves(c, s, x, p, e);
    case Finish(x, p) => FinishMoves(c, s, x, p);
    case _ => PhaseMoves(c, s, a);
  }

  lemma ReachedStays(s: State, t: State, m: Milestone)
    requires Forward(s, t) && Reached(s, m)
    ensures Reached(t, m)
  {
  }

  // ----- the bound -----

  /** Every milestone there is for a party. */
  function Milestones(c: Party): set<Milestone>
    requires c.peers.Keys == c.group
  {
    (set x | x in c.group :: Joined(x)) + (set x | x in c.group :: Rostered(x)) + (set x | x in c.group :: Searching(x))
    + (set x | x in c.group :: Spawned(x)) + (set x | x in c.group :: Concluded(x))
    + (set x, k | x in c.group && 0 <= k < |c.peers[x]| :: Published(x, k))
    + (set x, k | x in c.group && 0 <= k < |c.peers[x]| :: Found(x, k))
    + (set x, p | x in c.group && p in c.group :: Spoke(x, p))
    + (set x, p | x in c.group && p in c.group :: Settled(x, p))
  }

  lemma GoalIsMilestone(c: Party, s: State, a: Action)
    requires ValidParty(c) && Inv(c, s) && Enabled(c, s, a)
    ensures Goal(a) in Milestones(c)
  {
    hide DistinctNames, EveryoneListed, PairsOk, HasPosted, RoutesOk, Initiates;
  }

  function Goals(actions: seq<Action>): set<Milestone> {
    if actions == [] then {} else Goals(actions[..|actions| - 1]) + {Goal(actions[|actions| - 1])}
  }

  /** The goals of a run are all different, all reached, and all among the party's milestones. */
  lemma {:induction false} RunCollectsGoals(c: Party, states: seq<State>, actions: seq<Action>)
    requires ValidParty(c) && IsRun(c, states, actions)
    ensures |Goals(actions)| == |actions| && Goals(actions) <= Milestones(c)
    ensures forall m :: m in Goals(actions) ==> Reached(states[|actions|], m)
    decreases |actions|
  {
    hide Inv, Enabled, Next, Start, Goal, Milestones, DistinctNames, EveryoneListed, Forward;
    if actions != [] {
      var n := |actions| - 1;
      assert IsRun(c, states[..n + 1], actions[..n]);
      RunCollectsGoals(c, states[..n + 1], actions[..n]);
      RunsKeepInv(c, states[..n + 1], actions[..n]);
      StepAdvances(c, states[n], actions[n]);
      GoalIsMilestone(c, states[n], actions[n]);
      forall m | m in Goals(actions[..n]) ensures Reached(states[n + 1], m) {
        ReachedStays(states[n], states[n + 1], m);
      }
    }
  }

  /** Every run has at most as many steps as the party has milestones, so every run ends; it ends in the full mesh. */
  lemma EveryRunEnds(c: Party, states: seq<State>, actions: seq<Action>)
    requires ValidParty(c) && IsRun(c, states, actions)
    ensures |actions| <= |Milestones(c)|
    ensures (forall a :: !Enabled(c, states[|actions|], a)) ==>
              forall x :: x in c.group ==> x in states[|actions|].nodes && states[|actions|].nodes[x] == Done
  {
    hide Enabled, Next, Start, Goal, Milestones, DistinctNames, EveryoneListed;
    RunCollectsGoals(c, states, actions);
    RunsKeepInv(c, states, actions);
    var s := states[|actions|];
    assert Milestones(c) == Goals(actions) + (Milestones(c) - Goals(actions));
    hide PairsOk, SocketsOk, RoutesOk, ThreadsOk, HasPosted, IsRun;
    if x :| x in c.group && s.nodes[x] != Done {
      NeverStuck(c, states, actions, x);
    }
  }
}
