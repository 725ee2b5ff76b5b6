/** ICE candidate gathering: host, server-reflexive and relayed candidates, each phase on its own retry timer. */
module IceGatherer {
  import opened Prelude
  import RetryTimer

  const ICE_STUN_TIMEOUT_TICKS: nat := 5
  const ICE_STUN_MAX_RETRIES: nat := 2
  const ICE_TURN_TIMEOUT_TICKS: nat := 10
  const ICE_TURN_MAX_RETRIES: nat := 2
  const ICE_HOST_TYPE_PREFERENCE: nat := 126
  const ICE_SRFLX_TYPE_PREFERENCE: nat := 100
  const ICE_RELAY_TYPE_PREFERENCE: nat := 0
  const ICE_LOCAL_PREFERENCE_BASE: nat := 65535
  const ICE_COMPONENT_ID: nat := 1

  type Addr = string

  datatype Kind = Host | ServerReflexive | Relayed

  datatype Candidate = Candidate(kind: Kind, addr: Addr, priority: nat, foundation: nat)

  datatype Event =
    | CandidateReady(candidate: Candidate)
    | SendStunRequest | RetransmitStun
    | SendTurnAllocate | RetransmitTurn
    | GatheringComplete

  // ----- priorities (section 5.1.2.1 of RFC 8445) -----

  /** The three fields do not overlap, so combining them with `or` adds them. */
  lemma PriorityFieldsDisjoint(typePref: bv32, localPref: bv32)
    requires typePref <= 127 && localPref <= 0xFFFF
    ensures (typePref << 24) | (localPref << 8) | 255 == typePref * 0x100_0000 + localPref * 0x100 + 255
  {
  }

  function IcePriority(typePref: nat, localPref: nat): nat {
    typePref * 0x100_0000 + localPref * 0x100 + (256 - ICE_COMPONENT_ID)
  }

  function LocalPreference(i: nat): nat { if i > ICE_LOCAL_PREFERENCE_BASE then 0 else ICE_LOCAL_PREFERENCE_BASE - i }

  function HostPriority(i: nat): nat { IcePriority(ICE_HOST_TYPE_PREFERENCE, LocalPreference(i)) }

  function SrflxPriority(): nat { IcePriority(ICE_SRFLX_TYPE_PREFERENCE, ICE_LOCAL_PREFERENCE_BASE) }

  function RelayPriority(): nat { IcePriority(ICE_RELAY_TYPE_PREFERENCE, ICE_LOCAL_PREFERENCE_BASE) }

  /**
   Every host outranks the server-reflexive candidate, which outranks the relay; an earlier host outranks
   a later one exactly while the local preference has not run out, that is among the first 65 535 hosts.
   */
  lemma PriorityOrder(i: nat, j: nat)
    requires i < j
    ensures HostPriority(i) >= HostPriority(j) > SrflxPriority() > RelayPriority()
    ensures HostPriority(i) > HostPriority(j) <==> i < ICE_LOCAL_PREFERENCE_BASE
  {
  }

  // ----- the gatherer -----

  datatype Phase = Idle | Stun(retries: nat, ticks: nat) | Turn(retries: nat, ticks: nat) | Complete

  datatype State = State(phase: Phase, nextFoundation: nat)

  const START: State := State(Idle, 1)

  datatype Input = Begin(hosts: seq<Addr>) | StunResponse(addr: Addr) | TurnAllocated(addr: Addr) | Tick

  const STUN_ARMED: Phase := Stun(ICE_STUN_MAX_RETRIES, ICE_STUN_TIMEOUT_TICKS)
  const TURN_ARMED: Phase := Turn(ICE_TURN_MAX_RETRIES, ICE_TURN_TIMEOUT_TICKS)

  function HostEvents(hosts: seq<Addr>, foundation: nat): seq<Event> {
    seq(|hosts|, i requires 0 <= i < |hosts| =>
      CandidateReady(Candidate(Host, hosts[i], HostPriority(i), foundation + i)))
  }

  function Srflx(addr: Addr, foundation: nat): Event {
    CandidateReady(Candidate(ServerReflexive, addr, SrflxPriority(), foundation))
  }

  function Relay(addr: Addr, foundation: nat): Event {
    CandidateReady(Candidate(Relayed, addr, RelayPriority(), foundation))
  }

  function Step(s: State, i: Input): (State, seq<Event>) {
    match (i, s.phase)
    case (Begin(hosts), _) =>
      (State(STUN_ARMED, s.nextFoundation + |hosts|), HostEvents(hosts, s.nextFoundation) + [SendStunRequest])
    case (StunResponse(addr), Stun(_, _)) =>
      (State(TURN_ARMED, s.nextFoundation + 1), [Srflx(addr, s.nextFoundation), SendTurnAllocate])
    case (TurnAllocated(addr), Turn(_, _)) =>
      (State(Complete, s.nextFoundation + 1), [Relay(addr, s.nextFoundation), GatheringComplete])
    case (Tick, Stun(retries, ticks)) =>
      if ticks > 0 then (s.(phase := Stun(retries, ticks - 1)), [])
      else if retries == 0 then (s.(phase := TURN_ARMED), [SendTurnAllocate])
      else (s.(phase := Stun(retries - 1, ICE_STUN_TIMEOUT_TICKS)), [RetransmitStun])
    case (Tick, Turn(retries, ticks)) =>
      if ticks > 0 then (s.(phase := Turn(retries, ticks - 1)), [])
      else if retries == 0 then (s.(phase := Complete), [GatheringComplete])
      else (s.(phase := Turn(retries - 1, ICE_TURN_TIMEOUT_TICKS)), [RetransmitTurn])
    case (_, _) => (s, [])
  }

  function Run(s: State, inputs: seq<Input>): State {
    if inputs == [] then s else Step(Run(s, inputs[..|inputs| - 1]), inputs[|inputs| - 1]).0
  }

  function Events(s: State, inputs: seq<Input>): seq<Event> {
    if inputs == [] then []
    else
      Events(s, inputs[..|inputs| - 1]) + Step(Run(s, inputs[..|inputs| - 1]), inputs[|inputs| - 1]).1
  }

  // ----- what candidates say -----

  /** The `k`-th host event carries the `k`-th address, with the priority of its rank and the next number. */
  lemma HostsCarryTheirAddresses(s: State, hosts: seq<Addr>, k: nat)
    requires k < |hosts|
    ensures var events := Step(s, Begin(hosts)).1;
            && |events| == |hosts| + 1 && events[|hosts|] == SendStunRequest
            && events[k].CandidateReady? && events[k].candidate.kind == Host && events[k].candidate.addr == hosts[k]
            && events[k].candidate.foundation == s.nextFoundation + k
            && events[k].candidate.priority == 2130706431 - 256 * (if k > 65535 then 65535 else k)
            && 2130706431 == 126 * 0x100_0000 + 65535 * 0x100 + 255
  {
  }

  /** An answer becomes one candidate with its own address: reflexive during STUN, relayed during TURN. */
  lemma AnswersCarryTheirAddresses(s: State, addr: Addr)
    ensures s.phase.Stun? ==>
              Step(s, StunResponse(addr)).1
              == [CandidateReady(Candidate(ServerReflexive, addr, 1694498815, s.nextFoundation)), SendTurnAllocate]
    ensures s.phase.Turn? ==>
              Step(s, TurnAllocated(addr)).1
              == [CandidateReady(Candidate(Relayed, addr, 16777215, s.nextFoundation)), GatheringComplete]
    ensures !s.phase.Stun? ==> Step(s, StunResponse(addr)) == (s, [])
    ensures !s.phase.Turn? ==> Step(s, TurnAllocated(addr)) == (s, [])
  {
  }

  /** The input told the candidate's address, in the way its kind is learnt. */
  predicate Tells(i: Input, c: Candidate) {
    match c.kind
    case Host => i.Begin? && c.addr in i.hosts
    case ServerReflexive => i == StunResponse(c.addr)
    case Relayed => i == TurnAllocated(c.addr)
  }

  lemma StepTells(s: State, i: Input, k: nat)
    requires k < |Step(s, i).1| && Step(s, i).1[k].CandidateReady?
    ensures Tells(i, Step(s, i).1[k].candidate)
  {
  }

  /** Over any run, restarts included, every candidate's address is one the gatherer was told. */
  lemma {:induction false} CandidatesWereTold(s: State, inputs: seq<Input>, k: nat)
    requires k < |Events(s, inputs)| && Events(s, inputs)[k].CandidateReady?
    ensures exists i :: 0 <= i < |inputs| && Tells(inputs[i], Events(s, inputs)[k].candidate)
    decreases |inputs|
  {
    hide Step, Tells;
    var before, last := inputs[..|inputs| - 1], inputs[|inputs| - 1];
    var earlier := |Events(s, before)|;
    if k < earlier {
      CandidatesWereTold(s, before, k);
      var i :| 0 <= i < |before| && Tells(before[i], Events(s, before)[k].candidate);
      assert inputs[i] == before[i];
    } else {
      StepTells(Run(s, before), last, k - earlier);
      assert Tells(inputs[|inputs| - 1], Events(s, inputs)[k].candidate);
    }
  }

  // ----- the event grammar -----

  function Repeated(e: Event, n: nat): seq<Event> { seq(n, _ => e) }

  /** At most one candidate of the given kind. */
  predicate Optional(events: seq<Event>, kind: Kind) {
    events == [] || (|events| == 1 && events[0].CandidateReady? && events[0].candidate.kind == kind)
  }

  predicate AllHosts(events: seq<Event>) {
    forall i :: 0 <= i < |events| ==> events[i].CandidateReady? && events[i].candidate.kind == Host
  }

  /** A complete gathering, as a word: hosts, STUN with retries, perhaps srflx, TURN with retries, perhaps relay. */
  function Word(hosts: seq<Event>, stunRetries: nat, srflx: seq<Event>, turnRetries: nat,
                relay: seq<Event>): seq<Event>
  {
    hosts + [SendStunRequest] + Repeated(RetransmitStun, stunRetries) + srflx
    + [SendTurnAllocate] + Repeated(RetransmitTurn, turnRetries) + relay + [GatheringComplete]
  }

  /** The shape of what has been sent, given the phase: how much of the word is out. */
  ghost predicate SentSoFar(p: Phase, events: seq<Event>) {
    match p
    case Idle => false
    case Stun(retries, _) => exists hosts, n: nat :: n + retries == ICE_STUN_MAX_RETRIES && StunPart(hosts, n, events)
    case Turn(retries, _) =>
      exists hosts, n, srflx, m: nat :: m + retries == ICE_TURN_MAX_RETRIES && TurnPart(hosts, n, srflx, m, events)
    case Complete => exists hosts, n, srflx, m, relay :: WholePart(hosts, n, srflx, m, relay, events)
  }

  ghost predicate StunPart(hosts: seq<Event>, n: nat, events: seq<Event>) {
    AllHosts(hosts) && events == hosts + [SendStunRequest] + Repeated(RetransmitStun, n)
  }

  ghost predicate TurnPart(hosts: seq<Event>, n: nat, srflx: seq<Event>, m: nat, events: seq<Event>) {
    && AllHosts(hosts) && n <= ICE_STUN_MAX_RETRIES && Optional(srflx, ServerReflexive)
    && events == hosts + [SendStunRequest] + Repeated(RetransmitStun, n) + srflx
                 + [SendTurnAllocate] + Repeated(RetransmitTurn, m)
  }

  ghost predicate WholePart(hosts: seq<Event>, n: nat, srflx: seq<Event>, m: nat, relay: seq<Event>,
                            events: seq<Event>)
  {
    && AllHosts(hosts) && n <= ICE_STUN_MAX_RETRIES && Optional(srflx, ServerReflexive)
    && m <= ICE_TURN_MAX_RETRIES && Optional(relay, Relayed)
    && events == Word(hosts, n, srflx, m, relay)
  }

  lemma StunPartGrows(hosts: seq<Event>, n: nat, events: seq<Event>)
    requires StunPart(hosts, n, events)
    ensures StunPart(hosts, n + 1, events + [RetransmitStun])
  {
  }

  lemma StunPartEnds(hosts: seq<Event>, n: nat, events: seq<Event>, srflx: seq<Event>)
    requires StunPart(hosts, n, events) && n <= ICE_STUN_MAX_RETRIES && Optional(srflx, ServerReflexive)
    ensures TurnPart(hosts, n, srflx, 0, events + (srflx + [SendTurnAllocate]))
  {
  }

  lemma TurnPartGrows(hosts: seq<Event>, n: nat, srflx: seq<Event>, m: nat, events: seq<Event>)
    requires TurnPart(hosts, n, srflx, m, events)
    ensures TurnPart(hosts, n, srflx, m + 1, events + [RetransmitTurn])
  {
  }

  lemma TurnPartEnds(hosts: seq<Event>, n: nat, srflx: seq<Event>, m: nat, events: seq<Event>, relay: seq<Event>)
    requires TurnPart(hosts, n, srflx, m, events) && m <= ICE_TURN_MAX_RETRIES && Optional(relay, Relayed)
    ensures WholePart(hosts, n, srflx, m, relay, events + (relay + [GatheringComplete]))
  {
  }

  lemma StunStep(s: State, i: Input, events: seq<Event>)
    requires s.phase.Stun? && SentSoFar(s.phase, events) && !i.Begin?
    ensures SentSoFar(Step(s, i).0.phase, events + Step(s, i).1)
  {
    hide StunPart, TurnPart, WholePart, HostEvents, RelayPriority, SrflxPriority;
    var hosts, n: nat :| n + s.phase.retries == ICE_STUN_MAX_RETRIES && StunPart(hosts, n, events);
    var out := Step(s, i).1;
    if out == [] {
      assert events + out == events;
    } else if i.Tick? && s.phase.retries > 0 {
      StunPartGrows(hosts, n, events);
    } else {
      var srflx := out[..|out| - 1];
      assert out == srflx + [SendTurnAllocate];
      StunPartEnds(hosts, n, events, srflx);
    }
  }

  lemma TurnStep(s: State, i: Input, events: seq<Event>)
    requires s.phase.Turn? && SentSoFar(s.phase, events) && !i.Begin?
    ensures SentSoFar(Step(s, i).0.phase, events + Step(s, i).1)
  {
    hide StunPart, TurnPart, WholePart, HostEvents, RelayPriority, SrflxPriority;
    var hosts, n, srflx, m: nat :| m + s.phase.retries == ICE_TURN_MAX_RETRIES && TurnPart(hosts, n, srflx, m, events);
    var out := Step(s, i).1;
    if out == [] {
      assert events + out == events;
    } else if i.Tick? && s.phase.retries > 0 {
      TurnPartGrows(hosts, n, srflx, m, events);
    } else {
      var relay := out[..|out| - 1];
      assert out == relay + [GatheringComplete];
      TurnPartEnds(hosts, n, srflx, m, events, relay);
    }
  }

  /** Everything sent since the last start is on the way through one word of the grammar. */
  lemma {:induction false} GrammarInvariant(s: State, hosts: seq<Addr>, inputs: seq<Input>)
    requires forall i :: 0 <= i < |inputs| ==> !inputs[i].Begin?
    ensures var all := [Begin(hosts)] + inputs;
            Run(s, all).phase != Idle && SentSoFar(Run(s, all).phase, Events(s, all))
  {
    var all := [Begin(hosts)] + inputs;
    var before := all[..|all| - 1];
    if inputs == [] {
      assert all == [Begin(hosts)] && before == [];
      var hostEvents := HostEvents(hosts, s.nextFoundation);
      assert Events(s, all) == [] + (hostEvents + [SendStunRequest]);
      assert Repeated(RetransmitStun, 0) == [];
      assert StunPart(hostEvents, 0, Events(s, all));
    } else {
      assert before == [Begin(hosts)] + inputs[..|inputs| - 1];
      GrammarInvariant(s, hosts, inputs[..|inputs| - 1]);
      var mid, last := Run(s, before), inputs[|inputs| - 1];
      if mid.phase.Stun? {
        StunStep(mid, last, Events(s, before));
      } else if mid.phase.Turn? {
        TurnStep(mid, last, Events(s, before));
      } else {
        assert Events(s, before) + [] == Events(s, before);
      }
    }
  }

  /** `events` is how some complete gathering begins. */
  ghost predicate BeginsGathering(events: seq<Event>) {
    exists hosts, n, srflx, m, relay, word :: WholePart(hosts, n, srflx, m, relay, word) && events <= word
  }

  /** Events since the last start always form a prefix of one complete gathering. */
  lemma EventsFollowGrammar(s: State, hosts: seq<Addr>, inputs: seq<Input>)
    requires forall i :: 0 <= i < |inputs| ==> !inputs[i].Begin?
    ensures BeginsGathering(Events(s, [Begin(hosts)] + inputs))
  {
    GrammarInvariant(s, hosts, inputs);
    var all := [Begin(hosts)] + inputs;
    var p, events := Run(s, all).phase, Events(s, all);
    match p {
      case Stun(retries, _) =>
        var h, n: nat :| n + retries == ICE_STUN_MAX_RETRIES && StunPart(h, n, events);
        PrefixOfWord(h, n, [], 0, events);
      case Turn(retries, _) =>
        var h, n, srflx, m: nat :| m + retries == ICE_TURN_MAX_RETRIES && TurnPart(h, n, srflx, m, events);
        PrefixOfWord(h, n, srflx, m, events);
      case Complete =>
    }
  }

  lemma PrefixOfWord(hosts: seq<Event>, n: nat, srflx: seq<Event>, m: nat, events: seq<Event>)
    requires AllHosts(hosts) && n <= ICE_STUN_MAX_RETRIES && Optional(srflx, ServerReflexive)
    requires m <= ICE_TURN_MAX_RETRIES
    requires events <= Word(hosts, n, srflx, m, [])
    ensures BeginsGathering(events)
  {
    assert WholePart(hosts, n, srflx, m, [], Word(hosts, n, srflx, m, []));
  }

  // ----- foundations -----

  /** The foundations of the candidates among the events, in order. */
  function Foundations(events: seq<Event>): seq<nat> {
    if events == [] then []
    else
      Foundations(events[..|events| - 1])
      + (if events[|events| - 1].CandidateReady? then [events[|events| - 1].candidate.foundation] else [])
  }

  /** The numbers from `low` up to but not including `high`. */
  function Range(low: nat, high: nat): seq<nat>
    requires low <= high
  {
    seq(high - low, i => low + i)
  }

  lemma RangeConcat(a: nat, b: nat, c: nat)
    requires a <= b <= c
    ensures Range(a, b) + Range(b, c) == Range(a, c)
  {
  }

  lemma {:induction false} FoundationsConcat(a: seq<Event>, b: seq<Event>)
    ensures Foundations(a + b) == Foundations(a) + Foundations(b)
  {
    if b == [] {
      assert a + b == a;
    } else {
      assert (a + b)[..|a + b| - 1] == a + b[..|b| - 1];
      FoundationsConcat(a, b[..|b| - 1]);
    }
  }

  lemma {:induction false} HostFoundations(hosts: seq<Addr>, start: nat)
    ensures Foundations(HostEvents(hosts, start)) == Range(start, start + |hosts|)
  {
    if hosts != [] {
      var n := |hosts| - 1;
      assert HostEvents(hosts, start)[..n] == HostEvents(hosts[..n], start);
      HostFoundations(hosts[..n], start);
    }
  }

  lemma StepFoundations(s: State, i: Input)
    ensures var (t, out) := Step(s, i);
            t.nextFoundation >= s.nextFoundation && Foundations(out) == Range(s.nextFoundation, t.nextFoundation)
  {
    var (t, out) := Step(s, i);
    match i {
      case Begin(hosts) =>
        HostFoundations(hosts, s.nextFoundation);
        FoundationsConcat(HostEvents(hosts, s.nextFoundation), [SendStunRequest]);
        assert [SendStunRequest][..0] == [];
      case Tick =>
        if out != [] {
          assert out[..0] == [];
        }
      case _ =>
        if out != [] {
          assert out[..1] == [out[0]] && [out[0]][..0] == [];
          assert Foundations([out[0]]) == [s.nextFoundation];
        }
    }
  }

  /** Over any run, restarts included, the candidates are numbered 1, 2, 3, …: no foundation ever repeats. */
  lemma {:induction false} FoundationsNeverRepeat(inputs: seq<Input>)
    ensures Run(START, inputs).nextFoundation >= 1
    ensures Foundations(Events(START, inputs)) == Range(1, Run(START, inputs).nextFoundation)
  {
    if inputs != [] {
      var before := inputs[..|inputs| - 1];
      FoundationsNeverRepeat(before);
      var s := Run(START, before);
      hide Step, Range, Foundations;
      StepFoundations(s, inputs[|inputs| - 1]);
      FoundationsConcat(Events(START, before), Step(s, inputs[|inputs| - 1]).1);
      RangeConcat(1, s.nextFoundation, Run(START, inputs).nextFoundation);
    }
  }

  // ----- timing -----

  /** The phase's timer, as the shared retry timer sees it: `false` is the STUN probe, `true` the TURN probe. */
  function TimerOf(p: Phase): RetryTimer.Probe<bool> {
    match p
    case Stun(retries, ticks) => RetryTimer.Probing(false, retries, ticks)
    case Turn(retries, ticks) => RetryTimer.Probing(true, retries, ticks)
    case _ => RetryTimer.Rest
  }

  /** What an input means to the timers: each kind of response answers its own probe. */
  function Heard(i: Input): RetryTimer.Input<bool> {
    match i
    case Begin(_) => RetryTimer.Start(false)
    case StunResponse(_) => RetryTimer.Reply(false)
    case TurnAllocated(_) => RetryTimer.Reply(true)
    case Tick => RetryTimer.Tick
  }

  function AllHeard(inputs: seq<Input>): (heard: seq<RetryTimer.Input<bool>>)
    ensures |heard| == |inputs|
  {
    seq(|inputs|, k requires 0 <= k < |inputs| => Heard(inputs[k]))
  }

  function StunTimer(p: Phase, i: Input): (RetryTimer.Probe<bool>, RetryTimer.Output<bool>) {
    RetryTimer.Step(ICE_STUN_TIMEOUT_TICKS, ICE_STUN_MAX_RETRIES, TimerOf(p), Heard(i))
  }

  function TurnTimer(p: Phase, i: Input): (RetryTimer.Probe<bool>, RetryTimer.Output<bool>) {
    RetryTimer.Step(ICE_TURN_TIMEOUT_TICKS, ICE_TURN_MAX_RETRIES, TimerOf(p), Heard(i))
  }

  /** The STUN timer closing, by an answer or by giving up, arms TURN; the TURN timer closing ends the gathering. */
  lemma StepIsTimerStep(s: State, i: Input)
    requires !i.Begin?
    ensures var t := Step(s, i).0.phase;
            && (s.phase.Stun? ==> if StunTimer(s.phase, i).0 == RetryTimer.Rest then t == TURN_ARMED
                                  else t.Stun? && TimerOf(t) == StunTimer(s.phase, i).0)
            && (s.phase.Turn? ==> if TurnTimer(s.phase, i).0 == RetryTimer.Rest then t == Complete
                                  else t.Turn? && TimerOf(t) == TurnTimer(s.phase, i).0)
            && (!s.phase.Stun? && !s.phase.Turn? ==> t == s.phase)
  {
  }

  /** The events of every input are those its phase's timer calls for; a closed gatherer is silent. */
  lemma EventsAreTimerOutputs(s: State, i: Input)
    requires !i.Begin?
    ensures Step(s, i).1 ==
            match s.phase
            case Stun(_, _) =>
              (match StunTimer(s.phase, i).1
               case Succeeded(_) => [Srflx(i.addr, s.nextFoundation), SendTurnAllocate]
               case GaveUp(_) => [SendTurnAllocate]
               case Resent(_) => [RetransmitStun]
               case _ => [])
            case Turn(_, _) =>
              (match TurnTimer(s.phase, i).1
               case Succeeded(_) => [Relay(i.addr, s.nextFoundation), GatheringComplete]
               case GaveUp(_) => [GatheringComplete]
               case Resent(_) => [RetransmitTurn]
               case _ => [])
            case _ => []
  {
  }

  predicate StunClosed(heard: seq<RetryTimer.Input<bool>>) {
    RetryTimer.Closed(ICE_STUN_TIMEOUT_TICKS, ICE_STUN_MAX_RETRIES, false, heard)
  }

  predicate TurnClosed(heard: seq<RetryTimer.Input<bool>>) {
    RetryTimer.Closed(ICE_TURN_TIMEOUT_TICKS, ICE_TURN_MAX_RETRIES, true, heard)
  }

  /** How many inputs the STUN phase took: it closed with the last of them. */
  function StunLength(heard: seq<RetryTimer.Input<bool>>): (k: nat)
    requires StunClosed(heard)
    ensures 0 < k <= |heard| && StunClosed(heard[..k]) && !StunClosed(heard[..k - 1])
  {
    var before := heard[..|heard| - 1];
    if StunClosed(before) then
      var k := StunLength(before);
      assert before[..k] == heard[..k] && before[..k - 1] == heard[..k - 1];
      k
    else
      assert heard[..|heard|] == heard;
      |heard|
  }

  /** What has been heard since TURN was armed. */
  function HeardByTurn(heard: seq<RetryTimer.Input<bool>>): seq<RetryTimer.Input<bool>>
    requires StunClosed(heard)
  {
    heard[StunLength(heard)..]
  }

  ghost predicate NoBegin(inputs: seq<Input>) { forall k :: 0 <= k < |inputs| ==> !inputs[k].Begin? }

  /** Where the gatherer stands, told from what it has heard. */
  ghost predicate OnCourse(p: Phase, heard: seq<RetryTimer.Input<bool>>) {
    if !StunClosed(heard) then
      p.Stun? && TimerOf(p) == RetryTimer.Course(ICE_STUN_TIMEOUT_TICKS, ICE_STUN_MAX_RETRIES, false, heard)
    else
      var since := HeardByTurn(heard);
      if !TurnClosed(since) then
        p.Turn? && TimerOf(p) == RetryTimer.Course(ICE_TURN_TIMEOUT_TICKS, ICE_TURN_MAX_RETRIES, true, since)
      else p == Complete
  }

  lemma RunStep(s: State, hosts: seq<Addr>, inputs: seq<Input>)
    requires inputs != []
    ensures Run(s, [Begin(hosts)] + inputs)
         == Step(Run(s, [Begin(hosts)] + inputs[..|inputs| - 1]), inputs[|inputs| - 1]).0
  {
    hide Step;
    var all := [Begin(hosts)] + inputs;
    assert all[..|all| - 1] == [Begin(hosts)] + inputs[..|inputs| - 1];
  }

  lemma HeardStep(inputs: seq<Input>)
    requires inputs != [] && NoBegin(inputs)
    ensures var heard, last := AllHeard(inputs), inputs[|inputs| - 1];
            && heard[..|heard| - 1] == AllHeard(inputs[..|inputs| - 1]) && heard[|heard| - 1] == Heard(last)
            && RetryTimer.NoStart(heard)
  {
  }

  lemma StartsOnCourse(s: State, hosts: seq<Addr>)
    ensures OnCourse(Run(s, [Begin(hosts)]).phase, AllHeard([]))
  {
    assert [Begin(hosts)][..0] == [] && Run(s, []) == s && AllHeard([]) == [];
    ArmedPhases();
    hide OnCourse, HostEvents;
  }

  lemma ArmedPhases()
    ensures OnCourse(STUN_ARMED, [])
    ensures TimerOf(TURN_ARMED) == RetryTimer.Course(ICE_TURN_TIMEOUT_TICKS, ICE_TURN_MAX_RETRIES, true, [])
    ensures !TurnClosed([])
  {
  }

  /** What TURN has heard grows with every input after STUN closed, and is empty at that moment. */
  lemma HeardByTurnGrows(heard: seq<RetryTimer.Input<bool>>)
    requires heard != [] && StunClosed(heard)
    ensures var before := heard[..|heard| - 1];
            if StunClosed(before) then HeardByTurn(heard) == HeardByTurn(before) + [heard[|heard| - 1]]
            else HeardByTurn(heard) == []
  {
  }

  /** One more input keeps the STUN phase on course, or arms TURN. */
  lemma StunStaysOnCourse(s: State, i: Input, heard: seq<RetryTimer.Input<bool>>)
    requires !i.Begin? && heard != [] && heard[|heard| - 1] == Heard(i) && RetryTimer.NoStart(heard)
    requires OnCourse(s.phase, heard[..|heard| - 1]) && !StunClosed(heard[..|heard| - 1])
    ensures OnCourse(Step(s, i).0.phase, heard)
  {
    hide Step, RetryTimer.Course, RetryTimer.Step, RetryTimer.Closed, HeardByTurn, TurnClosed;
    hide RetryTimer.Answered, RetryTimer.Ticks, RetryTimer.Deadline, RetryTimer.NoStart;
    StepIsTimerStep(s, i);
    ArmedPhases();
    RetryTimer.LastStep(ICE_STUN_TIMEOUT_TICKS, ICE_STUN_MAX_RETRIES, false, heard);
    if StunClosed(heard) {
      HeardByTurnGrows(heard);
    }
  }

  /** One more input keeps the TURN phase on course, or ends the gathering. */
  lemma TurnStaysOnCourse(s: State, i: Input, heard: seq<RetryTimer.Input<bool>>)
    requires !i.Begin? && heard != [] && heard[|heard| - 1] == Heard(i) && RetryTimer.NoStart(heard)
    requires OnCourse(s.phase, heard[..|heard| - 1]) && StunClosed(heard[..|heard| - 1])
    ensures OnCourse(Step(s, i).0.phase, heard)
  {
    StepIsTimerStep(s, i);
    RetryTimer.LastStep(ICE_STUN_TIMEOUT_TICKS, ICE_STUN_MAX_RETRIES, false, heard);
    assert StunClosed(heard);
    HeardByTurnGrows(heard);
    var since := HeardByTurn(heard);
    assert since[..|since| - 1] == HeardByTurn(heard[..|heard| - 1]);
    assert RetryTimer.NoStart(since);
    RetryTimer.LastStep(ICE_TURN_TIMEOUT_TICKS, ICE_TURN_MAX_RETRIES, true, since);
    hide Step, RetryTimer.Course, RetryTimer.Step, RetryTimer.Closed, HeardByTurn;
  }

  /** In every run since the last start both phases follow the shared retry timer, answered or not. */
  lemma {:induction false} PhasesAreRetryTimers(s: State, hosts: seq<Addr>, inputs: seq<Input>)
    requires NoBegin(inputs)
    ensures OnCourse(Run(s, [Begin(hosts)] + inputs).phase, AllHeard(inputs))
  {
    hide OnCourse, Step, Run, AllHeard, StunClosed;
    if inputs == [] {
      StartsOnCourse(s, hosts);
      assert [Begin(hosts)] + inputs == [Begin(hosts)];
    } else {
      var before, last := inputs[..|inputs| - 1], inputs[|inputs| - 1];
      PhasesAreRetryTimers(s, hosts, before);
      RunStep(s, hosts, inputs);
      HeardStep(inputs);
      if StunClosed(AllHeard(before)) {
        TurnStaysOnCourse(Run(s, [Begin(hosts)] + before), last, AllHeard(inputs));
      } else {
        StunStaysOnCourse(Run(s, [Begin(hosts)] + before), last, AllHeard(inputs));
      }
    }
  }

  /**
   The exact phase after any run: STUN until it is answered or 18 ticks have passed, then TURN until it is
   answered or 33 more ticks have passed, then complete; an answer to the other probe changes nothing.
   */
  lemma Outcome(s: State, hosts: seq<Addr>, inputs: seq<Input>)
    requires NoBegin(inputs)
    ensures var heard, p := AllHeard(inputs), Run(s, [Begin(hosts)] + inputs).phase;
            if !StunClosed(heard) then
              var n := RetryTimer.Ticks(heard);
              n < 18 && p == Stun(2 - n / 6, 5 - n % 6)
            else
              var since := HeardByTurn(heard);
              var n := RetryTimer.Ticks(since);
              if TurnClosed(since) then p == Complete else n < 33 && p == Turn(2 - n / 11, 10 - n % 11)
  {
    PhasesAreRetryTimers(s, hosts, inputs);
    hide Run, HeardByTurn;
  }

  /**
   The exact events of the next input after any run: each probe is sent again at multiples of its period, moves on
   at its deadline or with its own answer, and nothing else makes the gatherer speak.
   */
  lemma EventSchedule(s: State, hosts: seq<Addr>, inputs: seq<Input>, i: Input)
    requires NoBegin(inputs) && !i.Begin?
    ensures var heard, at := AllHeard(inputs), Run(s, [Begin(hosts)] + inputs);
            Step(at, i).1 ==
            if !StunClosed(heard) then
              var n := RetryTimer.Ticks(heard) + 1;
              if i.StunResponse? then [Srflx(i.addr, at.nextFoundation), SendTurnAllocate]
              else if !i.Tick? || n % 6 != 0 then []
              else if n == 18 then [SendTurnAllocate] else [RetransmitStun]
            else
              var since := HeardByTurn(heard);
              var n := RetryTimer.Ticks(since) + 1;
              if TurnClosed(since) then []
              else if i.TurnAllocated? then [Relay(i.addr, at.nextFoundation), GatheringComplete]
              else if !i.Tick? || n % 11 != 0 then []
              else if n == 33 then [GatheringComplete] else [RetransmitTurn]
  {
    Outcome(s, hosts, inputs);
    var heard := AllHeard(inputs);
    var at := Run(s, [Begin(hosts)] + inputs);
    hide Run, HeardByTurn, StunClosed, TurnClosed;
    if StunClosed(heard) {
      TurnSpeaks(at, i, RetryTimer.Ticks(HeardByTurn(heard)));
    } else {
      StunSpeaks(at, i, RetryTimer.Ticks(heard));
    }
    hide Step;
  }

  lemma StunSpeaks(s: State, i: Input, n: nat)
    requires n < 18 && !i.Begin?
    ensures s.phase == Stun(2 - n / 6, 5 - n % 6) ==>
              Step(s, i).1 == if i.StunResponse? then [Srflx(i.addr, s.nextFoundation), SendTurnAllocate]
                              else if !i.Tick? || (n + 1) % 6 != 0 then []
                              else if n + 1 == 18 then [SendTurnAllocate] else [RetransmitStun]
  {
    DivStep(n, 6);
  }

  lemma TurnSpeaks(s: State, i: Input, n: nat)
    requires !i.Begin?
    ensures s.phase == Complete ==> Step(s, i).1 == []
    ensures n < 33 && s.phase == Turn(2 - n / 11, 10 - n % 11) ==>
              Step(s, i).1 == if i.TurnAllocated? then [Relay(i.addr, s.nextFoundation), GatheringComplete]
                              else if !i.Tick? || (n + 1) % 11 != 0 then []
                              else if n + 1 == 33 then [GatheringComplete] else [RetransmitTurn]
  {
    DivStep(n, 11);
  }

  // ----- the silent network -----

  function Silence(n: nat): seq<Input> { seq(n, _ => Tick) }

  lemma {:induction false} SilenceHeard(n: nat, T: nat, R: nat, key: bool)
    ensures RetryTimer.Ticks(AllHeard(Silence(n))) == n && !RetryTimer.Answered(T, R, key, AllHeard(Silence(n)))
  {
    if n > 0 {
      assert AllHeard(Silence(n))[..n - 1] == AllHeard(Silence(n - 1));
      SilenceHeard(n - 1, T, R, key);
    }
  }

  lemma SilenceByTurn(n: nat)
    requires StunClosed(AllHeard(Silence(n)))
    ensures n >= 18 && HeardByTurn(AllHeard(Silence(n))) == AllHeard(Silence(n - 18))
  {
    var heard := AllHeard(Silence(n));
    var k := StunLength(heard);
    assert heard[..k] == AllHeard(Silence(k)) && heard[..k - 1] == AllHeard(Silence(k - 1));
    SilenceHeard(k, ICE_STUN_TIMEOUT_TICKS, ICE_STUN_MAX_RETRIES, false);
    SilenceHeard(k - 1, ICE_STUN_TIMEOUT_TICKS, ICE_STUN_MAX_RETRIES, false);
    assert k == 18;
    assert heard[18..] == AllHeard(Silence(n - 18));
  }

  /** With no answers at all, STUN falls through to TURN at tick 18 and gathering completes at tick 51. */
  lemma SilentGathering(s: State, hosts: seq<Addr>, n: nat)
    ensures Run(s, [Begin(hosts)] + Silence(n)).phase
         == if n < 18 then Stun(2 - n / 6, 5 - n % 6)
            else if n < 51 then Turn(2 - (n - 18) / 11, 10 - (n - 18) % 11)
            else Complete
  {
    Outcome(s, hosts, Silence(n));
    SilenceHeard(n, ICE_STUN_TIMEOUT_TICKS, ICE_STUN_MAX_RETRIES, false);
    if n >= 18 {
      SilenceByTurn(n);
      SilenceHeard(n - 18, ICE_TURN_TIMEOUT_TICKS, ICE_TURN_MAX_RETRIES, true);
    }
    hide Run, AllHeard, Silence, HeardByTurn;
  }

  class IceCandidateGatherer {
    var phase: Phase
    var nextFoundation: nat

    ghost function Value(): State
      reads this
    {
      State(phase, nextFoundation)
    }

    constructor ()
      ensures Value() == START
    {
      phase, nextFoundation := Idle, 1;
    }

    method Start(hosts: seq<Addr>) returns (events: seq<Event>)
      modifies this
      ensures (Value(), events) == Step(old(Value()), Begin(hosts))
    {
      events := [];
      for i := 0 to |hosts|
        invariant nextFoundation == old(nextFoundation) + i && phase == old(phase)
        invariant events == HostEvents(hosts, old(nextFoundation))[..i]
      {
        var localPref := if i > ICE_LOCAL_PREFERENCE_BASE then 0 else ICE_LOCAL_PREFERENCE_BASE - i;
        var foundation := nextFoundation;
        nextFoundation := nextFoundation + 1;
        events := events +
          [CandidateReady(Candidate(Host, hosts[i], IcePriority(ICE_HOST_TYPE_PREFERENCE, localPref), foundation))];
      }
      assert HostEvents(hosts, old(nextFoundation))[..|hosts|] == HostEvents(hosts, old(nextFoundation));
      phase := Stun(ICE_STUN_MAX_RETRIES, ICE_STUN_TIMEOUT_TICKS);
      events := events + [SendStunRequest];
    }

    method OnStunResponse(addr: Addr) returns (events: Option<seq<Event>>)
      modifies this
      ensures (Value(), if events.Some? then events.value else []) == Step(old(Value()), StunResponse(addr))
      ensures events.Some? == old(phase).Stun?
    {
      if !phase.Stun? {
        return None;
      }
      var foundation := nextFoundation;
      nextFoundation := nextFoundation + 1;
      phase := Turn(ICE_TURN_MAX_RETRIES, ICE_TURN_TIMEOUT_TICKS);
      return Some([Srflx(addr, foundation), SendTurnAllocate]);
    }

    method OnTurnAllocated(addr: Addr) returns (events: Option<seq<Event>>)
      modifies this
      ensures (Value(), if events.Some? then events.value else []) == Step(old(Value()), TurnAllocated(addr))
      ensures events.Some? == old(phase).Turn?
    {
      if !phase.Turn? {
        return None;
      }
      var foundation := nextFoundation;
      nextFoundation := nextFoundation + 1;
      phase := Complete;
      return Some([Relay(addr, foundation), GatheringComplete]);
    }

    method TimerTick() returns (event: Option<Event>)
      modifies this
      ensures (Value(), if event.Some? then [event.value] else []) == Step(old(Value()), Tick)
    {
      match phase {
        case Stun(retries, ticks) =>
          if ticks > 0 {
            phase := Stun(retries, ticks - 1);
            return None;
          }
          if retries == 0 {
            phase := Turn(ICE_TURN_MAX_RETRIES, ICE_TURN_TIMEOUT_TICKS);
            return Some(SendTurnAllocate);
          }
          phase := Stun(retries - 1, ICE_STUN_TIMEOUT_TICKS);
          return Some(RetransmitStun);
        case Turn(retries, ticks) =>
          if ticks > 0 {
            phase := Turn(retries, ticks - 1);
            return None;
          }
          if retries == 0 {
            phase := Complete;
            return Some(GatheringComplete);
          }
          phase := Turn(retries - 1, ICE_TURN_TIMEOUT_TICKS);
          return Some(RetransmitTurn);
        case _ => return None;
      }
    }
  }
}
