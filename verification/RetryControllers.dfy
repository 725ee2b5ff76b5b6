/**
 The controllers that probe for something and retry: path migration, path MTU discovery, hole punching
 and TURN relay activation.  Each one's operations are proved to be steps of the one retry timer under
 an abstraction of its state, so the timer's schedule and outcome are those of every controller.
 */
module PathMigration {
  import opened Prelude
  import opened RetryTimer

  const CHALLENGE_TIMEOUT_TICKS: nat := 10
  const MAX_CHALLENGE_RETRIES: nat := 3

  type Token = seq<Byte>

  datatype State = Idle | Challenging(token: Token, retriesLeft: nat, ticksRemaining: nat) | Migrated | Failed

  datatype Event = Retransmit(token: Token) | MigratedNow | FailedNow

  function Abs(s: State): Probe<Token> {
    match s
    case Challenging(token, retries, ticks) => Probing(token, retries, ticks)
    case _ => Rest
  }

  const CONTROLLER: Controller<State, Token> :=
    Controller(CHALLENGE_TIMEOUT_TICKS, MAX_CHALLENGE_RETRIES, s => Abs(s), s => s == Migrated, s => s == Failed)

  /** The event the controller reports for a timer output. */
  function Reported(o: Output<Token>): Option<Event> {
    match o
    case Resent(token) => Some(Retransmit(token))
    case Succeeded(_) => Some(MigratedNow)
    case GaveUp(_) => Some(FailedNow)
    case _ => None
  }

  /** A move of the controller: a step of the timer that leaves a closed state alone. */
  ghost predicate Follows(before: State, after: State, i: Input<Token>) {
    Obeys(CONTROLLER, before, after, i) && (Abs(before).Rest? && !i.Start? ==> after == before)
  }

  /** Any run after a start: migrated exactly when the token came back within 43 ticks, failed from tick 44 on. */
  lemma Outcome(states: seq<State>, inputs: seq<Input<Token>>, key: Token)
    requires |states| == |inputs| + 1 && NoStart(inputs)
    requires states[0] == Challenging(key, MAX_CHALLENGE_RETRIES, CHALLENGE_TIMEOUT_TICKS)
    requires forall i :: 0 <= i < |inputs| ==> Follows(states[i], states[i + 1], inputs[i])
    ensures var n, last := Ticks(inputs), states[|inputs|];
            if InTime(CONTROLLER, key, inputs) then last == Migrated
            else if n < 44 then last == Challenging(key, 3 - n / 11, 10 - n % 11)
            else last == Failed
  {
    Clock(key, Ticks(inputs));
    hide Unanswered, Answered, Ticks, Obeys;
    ControllerOutcome(CONTROLLER, states, inputs, key);
  }

  /** The challenge after `n` ticks without a response. */
  lemma Clock(key: Token, n: nat)
    ensures Unanswered(CHALLENGE_TIMEOUT_TICKS, MAX_CHALLENGE_RETRIES, key, n)
         == if n < 44 then Probing(key, 3 - n / 11, 10 - n % 11) else Rest
  {
  }

  /** The events of any run: the token again on ticks 11, 22 and 33, failure on tick 44, success on the first reply. */
  lemma EventSchedule(states: seq<State>, inputs: seq<Input<Token>>, key: Token, i: Input<Token>)
    requires |states| == |inputs| + 1 && NoStart(inputs) && !i.Start?
    requires states[0] == Challenging(key, MAX_CHALLENGE_RETRIES, CHALLENGE_TIMEOUT_TICKS)
    requires forall i :: 0 <= i < |inputs| ==> Follows(states[i], states[i + 1], inputs[i])
    ensures var n := Ticks(inputs) + 1;
            Reported(Says(CONTROLLER, states[|inputs|], i))
            == if InTime(CONTROLLER, key, inputs) || n > 44 then None
               else if i == Reply(key) then Some(MigratedNow)
               else if !i.Tick? || n % 11 != 0 then None
               else if n == 44 then Some(FailedNow) else Some(Retransmit(key))
  {
    hide Answered, Ticks, Obeys;
    ControllerSchedule(CONTROLLER, states, inputs, key, i);
  }

  class PathMigrationController {
    var state: State

    constructor ()
      ensures state == Idle
    {
      state := Idle;
    }

    method Start(token: Token) returns (challenge: Token)
      modifies this
      ensures Follows(old(state), state, Input.Start(token)) && challenge == token
    {
      state := Challenging(token, MAX_CHALLENGE_RETRIES, CHALLENGE_TIMEOUT_TICKS);
      challenge := token;
    }

    method Tick() returns (event: Option<Event>)
      modifies this
      ensures Follows(old(state), state, Input.Tick) && event == Reported(Says(CONTROLLER, old(state), Input.Tick))
    {
      match state {
        case Challenging(token, retriesLeft, ticksRemaining) =>
          if ticksRemaining > 0 {
            state := Challenging(token, retriesLeft, ticksRemaining - 1);
            return None;
          }
          if retriesLeft == 0 {
            state := Failed;
            return Some(FailedNow);
          }
          state := Challenging(token, retriesLeft - 1, CHALLENGE_TIMEOUT_TICKS);
          return Some(Retransmit(token));
        case _ => return None;
      }
    }

    method OnResponse(token: Token) returns (event: Option<Event>)
      modifies this
      ensures Follows(old(state), state, Reply(token)) && event == Reported(Says(CONTROLLER, old(state), Reply(token)))
    {
      if !state.Challenging? || state.token != token {
        return None;
      }
      state := Migrated;
      return Some(MigratedNow);
    }
  }
}

module PathMtu {
  import opened Prelude
  import opened RetryTimer
  import Pacer

  const MTU_BASE_BYTES: nat := 1200
  const MTU_PROBE_STEPS: seq<nat> := [1400, 1452, 1500]
  const MTU_PROBE_TIMEOUT_TICKS: nat := 10
  const MTU_PROBE_MAX_RETRIES: nat := 3
  const LBTP_OVERHEAD: nat := 19

  datatype Phase =
    | Idle(nextStep: nat)
    | Climbing(targetMtu: nat, step: nat, retriesLeft: nat, ticksRemaining: nat)
    | Complete

  /** The controller as a value: where it is on the ladder and the MTU confirmed so far. */
  datatype State = State(phase: Phase, mtu: nat)

  datatype ProbeFrame = ProbeFrame(targetMtu: nat, payloadBytes: nat)

  datatype Event = Retransmit(frame: ProbeFrame) | MtuRaised(newMtu: nat) | ProbeFailed(targetMtu: nat)

  function MakeProbe(target: nat): ProbeFrame {
    ProbeFrame(target, if target < LBTP_OVERHEAD then 0 else target - LBTP_OVERHEAD)
  }

  const PROBE_CHANNEL: nat := 8

  /** The padding frame the transport enqueues for a probe. */
  function Padding(probe: ProbeFrame): Pacer.Frame {
    Pacer.Frame(PROBE_CHANNEL, seq(probe.payloadBytes, _ => 0))
  }

  /** Every probe of the ladder is larger than the pacer accepts: none is ever queued, whatever the pacer's state. */
  lemma ProbesRefused(rung: nat, pacer: Pacer.State)
    requires rung < |MTU_PROBE_STEPS| && |pacer.queues| == Pacer.NUM_CHANNELS
    ensures var o := Pacer.Step(pacer, Pacer.Enqueue(Padding(MakeProbe(MTU_PROBE_STEPS[rung]))));
            o.state == pacer && o.accepted == []
  {
  }

  /** The padding is accepted exactly up to a target of 1 198 bytes, below the base the ladder starts from. */
  lemma ProbeAcceptedExactly(target: nat, pacer: Pacer.State)
    requires |pacer.queues| == Pacer.NUM_CHANNELS
    ensures Pacer.Step(pacer, Pacer.Enqueue(Padding(MakeProbe(target)))).accepted != [] <==> target <= 1198
    ensures 1198 < MTU_BASE_BYTES
  {
  }

  function Abs(s: State): Probe<nat> {
    match s.phase
    case Climbing(target, _, retries, ticks) => Probing(target, retries, ticks)
    case _ => Rest
  }

  /** A probe sent from this rung succeeds when it ends one rung higher and fails when it ends on the same one. */
  function ControllerAt(rung: nat): Controller<State, nat> {
    Controller(MTU_PROBE_TIMEOUT_TICKS, MTU_PROBE_MAX_RETRIES, s => Abs(s),
               s => Rung(s) == rung + 1, s => Rung(s) == rung)
  }

  function Reported(o: Output<nat>): Option<Event> {
    match o
    case Resent(target) => Some(Retransmit(MakeProbe(target)))
    case Succeeded(target) => Some(MtuRaised(target))
    case GaveUp(target) => Some(ProbeFailed(target))
    case _ => None
  }

  /** The rung the controller stands below: how many sizes have been confirmed. */
  function Rung(s: State): nat {
    match s.phase
    case Idle(next) => next
    case Climbing(_, step, _, _) => step
    case Complete => |MTU_PROBE_STEPS|
  }

  /** The size confirmed by climbing this many rungs. */
  function MtuAt(rung: nat): nat
    requires rung <= |MTU_PROBE_STEPS|
  {
    if rung == 0 then MTU_BASE_BYTES else MTU_PROBE_STEPS[rung - 1]
  }

  ghost predicate Valid(s: State) {
    && Rung(s) <= |MTU_PROBE_STEPS| && s.mtu == MtuAt(Rung(s))
    && (s.phase.Climbing? ==> s.phase.step < |MTU_PROBE_STEPS| && s.phase.targetMtu == MTU_PROBE_STEPS[s.phase.step])
  }

  /** Only a success climbs, by one rung; the timer follows the shared machine; the MTU stays the rung's. */
  ghost predicate Follows(before: State, after: State, i: Input<nat>) {
    && Obeys(ControllerAt(Rung(before)), before, after, i)
    && Rung(after) == Rung(before) + (if Says(ControllerAt(Rung(before)), before, i).Succeeded? then 1 else 0)
    && (Abs(before).Rest? && !i.Start? ==> after == before)
    && (Valid(before) ==> Valid(after))
  }

  /** While a probe for one size is out or over, the controller stays on a rung that explains its MTU. */
  lemma {:induction false} StaysValid(states: seq<State>, inputs: seq<Input<nat>>, i: nat)
    requires |states| == |inputs| + 1 && Valid(states[0]) && i <= |inputs|
    requires forall i :: 0 <= i < |inputs| ==> Follows(states[i], states[i + 1], inputs[i])
    ensures Valid(states[i])
  {
    if i > 0 {
      StaysValid(states, inputs, i - 1);
      assert Follows(states[i - 1], states[i], inputs[i - 1]);
    }
  }

  lemma {:induction false} StaysOnRung(states: seq<State>, inputs: seq<Input<nat>>, i: nat)
    requires |states| == |inputs| + 1 && NoStart(inputs) && Valid(states[0]) && i < |inputs|
    requires forall i :: 0 <= i < |inputs| ==> Follows(states[i], states[i + 1], inputs[i])
    ensures Obeys(ControllerAt(Rung(states[0])), states[i], states[i + 1], inputs[i])
    ensures Rung(states[i]) == Rung(states[0]) || (Rung(states[i]) == Rung(states[0]) + 1 && Abs(states[i]).Rest?)
  {
    if i > 0 {
      StaysOnRung(states, inputs, i - 1);
      assert Follows(states[i - 1], states[i], inputs[i - 1]);
    }
    assert Follows(states[i], states[i + 1], inputs[i]);
  }

  /** A run after a probe is sent is one of the shared timer's. */
  lemma RungRun(states: seq<State>, inputs: seq<Input<nat>>, rung: nat)
    requires |states| == |inputs| + 1 && NoStart(inputs) && rung < |MTU_PROBE_STEPS|
    requires var probe := Climbing(MTU_PROBE_STEPS[rung], rung, MTU_PROBE_MAX_RETRIES, MTU_PROBE_TIMEOUT_TICKS);
             states[0] == State(probe, MtuAt(rung))
    requires forall i :: 0 <= i < |inputs| ==> Follows(states[i], states[i + 1], inputs[i])
    ensures ProbeRun(ControllerAt(rung), states, inputs, MTU_PROBE_STEPS[rung]) && Valid(states[|inputs|])
  {
    forall i | 0 <= i < |inputs| ensures Obeys(ControllerAt(rung), states[i], states[i + 1], inputs[i]) {
      StaysOnRung(states, inputs, i);
    }
    StaysValid(states, inputs, |inputs|);
    hide Obeys, Follows;
  }

  /**
   Any run after a probe is sent: the MTU raised to that size exactly when it was acknowledged within 43 ticks,
   the old MTU otherwise, and back to rest from tick 44 on.
   */
  lemma Outcome(states: seq<State>, inputs: seq<Input<nat>>, rung: nat)
    requires |states| == |inputs| + 1 && NoStart(inputs) && rung < |MTU_PROBE_STEPS|
    requires var probe := Climbing(MTU_PROBE_STEPS[rung], rung, MTU_PROBE_MAX_RETRIES, MTU_PROBE_TIMEOUT_TICKS);
             states[0] == State(probe, MtuAt(rung))
    requires forall i :: 0 <= i < |inputs| ==> Follows(states[i], states[i + 1], inputs[i])
    ensures var n, last, key := Ticks(inputs), states[|inputs|], MTU_PROBE_STEPS[rung];
            && Valid(last)
            && if InTime(ControllerAt(rung), key, inputs) then Abs(last) == Rest && last.mtu == key
               else if n < 44 then last == State(Climbing(key, rung, 3 - n / 11, 10 - n % 11), MtuAt(rung))
               else Abs(last) == Rest && last.mtu == MtuAt(rung)
  {
    RungRun(states, inputs, rung);
    Clock(MTU_PROBE_STEPS[rung], Ticks(inputs));
    hide Unanswered, Answered, Ticks, ProbeRun, Follows;
    ControllerOutcome(ControllerAt(rung), states, inputs, MTU_PROBE_STEPS[rung]);
  }

  /** The probe after `n` ticks without an acknowledgement. */
  lemma Clock(key: nat, n: nat)
    ensures Unanswered(MTU_PROBE_TIMEOUT_TICKS, MTU_PROBE_MAX_RETRIES, key, n)
         == if n < 44 then Probing(key, 3 - n / 11, 10 - n % 11) else Rest
  {
  }

  /** The events of any run: the probe again on ticks 11, 22 and 33, given up on tick 44, the MTU raised on its ack. */
  lemma EventSchedule(states: seq<State>, inputs: seq<Input<nat>>, rung: nat, i: Input<nat>)
    requires |states| == |inputs| + 1 && NoStart(inputs) && rung < |MTU_PROBE_STEPS| && !i.Start?
    requires var probe := Climbing(MTU_PROBE_STEPS[rung], rung, MTU_PROBE_MAX_RETRIES, MTU_PROBE_TIMEOUT_TICKS);
             states[0] == State(probe, MtuAt(rung))
    requires forall i :: 0 <= i < |inputs| ==> Follows(states[i], states[i + 1], inputs[i])
    ensures var n, key := Ticks(inputs) + 1, MTU_PROBE_STEPS[rung];
            Reported(Says(ControllerAt(rung), states[|inputs|], i))
            == if InTime(ControllerAt(rung), key, inputs) || n > 44 then None
               else if i == Reply(key) then Some(MtuRaised(key))
               else if !i.Tick? || n % 11 != 0 then None
               else if n == 44 then Some(ProbeFailed(key)) else Some(Retransmit(ProbeFrame(key, key - 19)))
  {
    RungRun(states, inputs, rung);
    hide Answered, Ticks, ProbeRun, Follows;
    ControllerSchedule(ControllerAt(rung), states, inputs, MTU_PROBE_STEPS[rung], i);
  }

  /** The sizes the ladder climbs through. */
  lemma Ladder()
    ensures MtuAt(0) == 1200 && MtuAt(1) == 1400 && MtuAt(2) == 1452 && MtuAt(3) == 1500 && |MTU_PROBE_STEPS| == 3
  {
  }

  class PathMtuController {
    var pathMtu: nat
    var phase: Phase

    ghost function Value(): State
      reads this
    {
      State(phase, pathMtu)
    }

    constructor ()
      ensures Valid(Value()) && Value() == State(Idle(0), MTU_BASE_BYTES)
    {
      pathMtu, phase := MTU_BASE_BYTES, Idle(0);
    }

    method StartProbe() returns (frame: Option<ProbeFrame>)
      requires Valid(Value())
      modifies this
      ensures Valid(Value()) && pathMtu == old(pathMtu) && Rung(Value()) == Rung(old(Value()))
      ensures if Rung(old(Value())) == |MTU_PROBE_STEPS| then frame == None && phase == Complete
              else var target := MTU_PROBE_STEPS[Rung(old(Value()))];
                   frame == Some(MakeProbe(target)) && Follows(old(Value()), Value(), Start(target))
    {
      if phase.Complete? {
        return None;
      }
      var next := if phase.Idle? then phase.nextStep else phase.step;
      if next >= |MTU_PROBE_STEPS| {
        phase := Complete;
        return None;
      }
      phase := Climbing(MTU_PROBE_STEPS[next], next, MTU_PROBE_MAX_RETRIES, MTU_PROBE_TIMEOUT_TICKS);
      return Some(MakeProbe(MTU_PROBE_STEPS[next]));
    }

    method Tick() returns (event: Option<Event>)
      requires Valid(Value())
      modifies this
      ensures Valid(Value()) && pathMtu == old(pathMtu) && Follows(old(Value()), Value(), Input.Tick)
      ensures event == Reported(Says(ControllerAt(Rung(old(Value()))), old(Value()), Input.Tick))
    {
      match phase {
        case Climbing(target, step, retriesLeft, ticksRemaining) =>
          if ticksRemaining > 0 {
            phase := Climbing(target, step, retriesLeft, ticksRemaining - 1);
            return None;
          }
          if retriesLeft == 0 {
            phase := Idle(step);
            return Some(ProbeFailed(target));
          }
          phase := Climbing(target, step, retriesLeft - 1, MTU_PROBE_TIMEOUT_TICKS);
          return Some(Retransmit(MakeProbe(target)));
        case _ => return None;
      }
    }

    method OnProbeAcked(ackedMtu: nat) returns (event: Option<Event>)
      requires Valid(Value())
      modifies this
      ensures Valid(Value()) && Follows(old(Value()), Value(), Reply(ackedMtu))
      ensures event == Reported(Says(ControllerAt(Rung(old(Value()))), old(Value()), Reply(ackedMtu)))
      ensures pathMtu == if event.Some? then ackedMtu else old(pathMtu)
    {
      if !phase.Climbing? || phase.targetMtu != ackedMtu {
        return None;
      }
      pathMtu := phase.targetMtu;
      event := Some(MtuRaised(phase.targetMtu));
      var next := phase.step + 1;
      phase := if next >= |MTU_PROBE_STEPS| then Complete else Idle(next);
    }
  }
}

module HolePunch {
  import opened Prelude
  import opened RetryTimer

  const HOLE_PUNCH_PROBE_INTERVAL_TICKS: nat := 5
  const HOLE_PUNCH_MAX_PROBES: nat := 10
  /** The first probe is sent at the start, so the timer retries one time fewer than there are probes. */
  const RETRIES: nat := HOLE_PUNCH_MAX_PROBES - 1

  type Nonce = x: int | 0 <= x < 0x1_0000_0000

  datatype State = Idle | Punching(nonce: Nonce, probesSent: Byte, ticksRemaining: nat) | Connected | Failed

  datatype Event = SendProbe(payload: seq<Byte>) | ConnectedNow | FailedNow

  /** Five bytes: the nonce in little-endian order and the probe's number. */
  function ProbePayload(nonce: Nonce, number: Byte): seq<Byte> { ToLe(nonce, 4) + [number] }

  /** A payload tells the session's nonce and the probe's number: no two different probes look alike. */
  lemma PayloadsDiffer(a: Nonce, i: Byte, b: Nonce, j: Byte)
    requires ProbePayload(a, i) == ProbePayload(b, j)
    ensures a == b && i == j
  {
    assert ProbePayload(a, i)[..4] == ToLe(a, 4) && ProbePayload(b, j)[..4] == ToLe(b, 4);
    assert ProbePayload(a, i)[4] == i && ProbePayload(b, j)[4] == j;
    assert Pow256(4) == 0x1_0000_0000 by {
      assert Pow256(2) == 0x1_0000;
    }
    LeExact(a, 4);
    LeExact(b, 4);
  }

  function Abs(s: State): Probe<Nonce> {
    match s
    case Punching(nonce, sent, ticks) =>
      Probing(nonce, if sent <= HOLE_PUNCH_MAX_PROBES then HOLE_PUNCH_MAX_PROBES - sent else 0, ticks)
    case _ => Rest
  }

  const CONTROLLER: Controller<State, Nonce> :=
    Controller(HOLE_PUNCH_PROBE_INTERVAL_TICKS, RETRIES, s => Abs(s), s => s == Connected, s => s == Failed)

  /** Probes are numbered in the order they go out. */
  function Reported(s: State, o: Output<Nonce>): Option<Event> {
    match o
    case Resent(nonce) => if s.Punching? then Some(SendProbe(ProbePayload(nonce, s.probesSent))) else None
    case Succeeded(_) => Some(ConnectedNow)
    case GaveUp(_) => Some(FailedNow)
    case _ => None
  }

  ghost predicate Follows(before: State, after: State, i: Input<Nonce>) {
    && Obeys(CONTROLLER, before, after, i)
    && (Abs(before).Rest? && !i.Start? ==> after == before)
    && (after.Punching? && before.Punching? && !i.Start? ==> before.probesSent <= after.probesSent)
    && (after.Punching? && after.probesSent > HOLE_PUNCH_MAX_PROBES ==>
          before.Punching? && before.probesSent > HOLE_PUNCH_MAX_PROBES)
  }

  lemma {:induction false} FewProbes(states: seq<State>, inputs: seq<Input<Nonce>>, i: nat)
    requires |states| == |inputs| + 1 && i <= |inputs|
    requires states[0].Punching? ==> states[0].probesSent <= HOLE_PUNCH_MAX_PROBES
    requires forall i :: 0 <= i < |inputs| ==> Follows(states[i], states[i + 1], inputs[i])
    ensures states[i].Punching? ==> states[i].probesSent <= HOLE_PUNCH_MAX_PROBES
  {
    if i > 0 {
      FewProbes(states, inputs, i - 1);
      assert Follows(states[i - 1], states[i], inputs[i - 1]);
    }
  }

  /** Any run after a start: connected exactly when a datagram came within 59 ticks, failed from tick 60 on. */
  lemma Outcome(states: seq<State>, inputs: seq<Input<Nonce>>, key: Nonce)
    requires |states| == |inputs| + 1 && NoStart(inputs)
    requires states[0] == Punching(key, 1, HOLE_PUNCH_PROBE_INTERVAL_TICKS)
    requires forall i :: 0 <= i < |inputs| ==> Follows(states[i], states[i + 1], inputs[i])
    ensures var n, last := Ticks(inputs), states[|inputs|];
            if InTime(CONTROLLER, key, inputs) then last == Connected
            else if n < 60 then last == Punching(key, 1 + n / 6, 5 - n % 6)
            else last == Failed
  {
    FewProbes(states, inputs, |inputs|);
    Clock(key, Ticks(inputs));
    hide Unanswered, Answered, Ticks, Obeys;
    ControllerOutcome(CONTROLLER, states, inputs, key);
  }

  /** The probes after `n` ticks without a datagram. */
  lemma Clock(key: Nonce, n: nat)
    ensures Unanswered(HOLE_PUNCH_PROBE_INTERVAL_TICKS, RETRIES, key, n)
         == if n < 60 then Probing(key, 9 - n / 6, 5 - n % 6) else Rest
  {
  }

  /** The events of any run: probe number n/6 on each sixth tick below 60, failure on tick 60, success on a datagram. */
  lemma EventSchedule(states: seq<State>, inputs: seq<Input<Nonce>>, key: Nonce, i: Input<Nonce>)
    requires |states| == |inputs| + 1 && NoStart(inputs) && !i.Start?
    requires states[0] == Punching(key, 1, HOLE_PUNCH_PROBE_INTERVAL_TICKS)
    requires forall i :: 0 <= i < |inputs| ==> Follows(states[i], states[i + 1], inputs[i])
    ensures var n := Ticks(inputs) + 1;
            Reported(states[|inputs|], Says(CONTROLLER, states[|inputs|], i))
            == if InTime(CONTROLLER, key, inputs) || n > 60 then None
               else if i == Reply(key) then Some(ConnectedNow)
               else if !i.Tick? || n % 6 != 0 then None
               else if n == 60 then Some(FailedNow) else Some(SendProbe(ProbePayload(key, n / 6)))
  {
    Outcome(states, inputs, key);
    hide Answered, Ticks, Obeys;
    ControllerSchedule(CONTROLLER, states, inputs, key, i);
  }

  /** The nonce comes first, its low byte foremost, then the number. */
  lemma PayloadLayout(nonce: Nonce, number: Byte)
    ensures var p := ProbePayload(nonce, number);
            && |p| == 5 && p[4] == number
            && p[0] == nonce % 256 && forall i :: 0 <= i < 4 ==> p[i] == (nonce / Pow256(i)) % 256
  {
    var p := ProbePayload(nonce, number);
    forall i | 0 <= i < 4 ensures p[i] == (nonce / Pow256(i)) % 256 {
      LeDigits(nonce, 4, i);
    }
  }

  class HolePunchController {
    var state: State

    constructor ()
      ensures state == Idle
    {
      state := Idle;
    }

    method Start(nonce: Nonce) returns (payload: seq<Byte>)
      modifies this
      ensures Follows(old(state), state, Input.Start(nonce)) && payload == ProbePayload(nonce, 0)
    {
      state := Punching(nonce, 1, HOLE_PUNCH_PROBE_INTERVAL_TICKS);
      payload := ProbePayload(nonce, 0);
    }

    method Tick() returns (event: Option<Event>)
      modifies this
      ensures Follows(old(state), state, Input.Tick)
      ensures event == Reported(old(state), Says(CONTROLLER, old(state), Input.Tick))
    {
      match state {
        case Punching(nonce, sent, ticksRemaining) =>
          if ticksRemaining > 0 {
            state := Punching(nonce, sent, ticksRemaining - 1);
            return None;
          }
          if sent >= HOLE_PUNCH_MAX_PROBES {
            state := Failed;
            return Some(FailedNow);
          }
          var next: int := sent + 1;
          state := Punching(nonce, next, HOLE_PUNCH_PROBE_INTERVAL_TICKS);
          return Some(SendProbe(ProbePayload(nonce, sent)));
        case _ => return None;
      }
    }

    /** Any datagram from the candidate counts as the answer: nothing in it is compared. */
    method OnProbeReceived() returns (event: Option<Event>)
      modifies this
      ensures if old(state).Punching?
              then Follows(old(state), state, Reply(old(state).nonce)) && event == Some(ConnectedNow)
              else state == old(state) && event == None
    {
      if state.Punching? {
        state := Connected;
        return Some(ConnectedNow);
      }
      return None;
    }
  }
}

module TurnRelay {
  import opened Prelude
  import opened RetryTimer

  const TURN_PROBE_TIMEOUT_TICKS: nat := 5
  const TURN_PROBE_MAX_RETRIES: nat := 4
  const TURN_KEEPALIVE_INTERVAL_TICKS: nat := 1200

  datatype State = Idle | Activating(retriesLeft: nat, ticksRemaining: nat) | Active(keepaliveTicks: nat) | Failed

  datatype Event = Retransmit | Activated | Keepalive | FailedNow

  /** Everything the transport may call. */
  datatype Call = DirectPathFailed | RelayActivated | RelayAck | DirectPathRecovered | TimerTick

  function After(s: State, call: Call): State {
    match (call, s)
    case (DirectPathFailed, Idle) => Activating(TURN_PROBE_MAX_RETRIES, TURN_PROBE_TIMEOUT_TICKS)
    case (RelayActivated, Activating(_, _)) => Active(TURN_KEEPALIVE_INTERVAL_TICKS)
    case (RelayAck, Active(_)) => Active(TURN_KEEPALIVE_INTERVAL_TICKS)
    case (DirectPathRecovered, Active(_)) => Idle
    case (TimerTick, Active(k)) => Active(if k > 0 then k - 1 else TURN_KEEPALIVE_INTERVAL_TICKS)
    case (TimerTick, Activating(retries, ticks)) =>
      if ticks > 0 then Activating(retries, ticks - 1)
      else if retries == 0 then Failed
      else Activating(retries - 1, TURN_PROBE_TIMEOUT_TICKS)
    case (_, _) => s
  }

  /** No call leaves `Failed`: once given up, the relay is given up for good. */
  lemma {:induction false} FailedForGood(states: seq<State>, calls: seq<Call>, i: nat)
    requires |states| == |calls| + 1 && states[0] == Failed && i <= |calls|
    requires forall k :: 0 <= k < |calls| ==> states[k + 1] == After(states[k], calls[k])
    ensures states[i] == Failed
  {
    if i > 0 {
      FailedForGood(states, calls, i - 1);
      assert states[i] == After(states[i - 1], calls[i - 1]);
    }
  }

  /** TURN activation carries no token: the unit value stands for the one probe. */
  function Abs(s: State): Probe<()> {
    match s
    case Activating(retries, ticks) => Probing((), retries, ticks)
    case _ => Rest
  }

  /** What a call means to the timer: a failed path starts a probe from `Idle` only. */
  function Heard(s: State, call: Call): Input<()> {
    match call
    case DirectPathFailed => if s.Idle? then Start(()) else Other
    case RelayActivated => Reply(())
    case TimerTick => Tick
    case _ => Other
  }

  /** Once confirmed the relay is active, or idle again if the direct path may have recovered since. */
  function ControllerFor(recovers: bool): Controller<State, ()> {
    Controller(TURN_PROBE_TIMEOUT_TICKS, TURN_PROBE_MAX_RETRIES, s => Abs(s),
               (s: State) => s.Active? || (recovers && s.Idle?), (s: State) => s.Failed?)
  }

  function Reported(o: Output<()>): Option<Event> {
    match o
    case Resent(_) => Some(Retransmit)
    case Succeeded(_) => Some(Activated)
    case GaveUp(_) => Some(FailedNow)
    case _ => None
  }

  /** Every call is a step of the shared timer. */
  lemma CallIsTimerStep(s: State, call: Call, recovers: bool)
    requires call == DirectPathRecovered ==> recovers
    ensures Obeys(ControllerFor(recovers), s, After(s, call), Heard(s, call))
    ensures Says(ControllerFor(recovers), s, Heard(s, call)).Succeeded? ==>
              After(s, call) == Active(1200)
  {
  }

  function AllHeard(states: seq<State>, calls: seq<Call>): (inputs: seq<Input<()>>)
    requires |states| >= |calls|
    ensures |inputs| == |calls|
  {
    seq(|calls|, i requires 0 <= i < |calls| => Heard(states[i], calls[i]))
  }

  /**
   Any run of any calls after a start, up to the next start: confirmed within 29 ticks, the relay is active, or
   idle if the direct path recovered; otherwise it is failed from tick 30 on and exactly on schedule before.
   */
  lemma Outcome(states: seq<State>, calls: seq<Call>)
    requires |states| == |calls| + 1 && states[0] == Activating(TURN_PROBE_MAX_RETRIES, TURN_PROBE_TIMEOUT_TICKS)
    requires forall i :: 0 <= i < |calls| ==> states[i + 1] == After(states[i], calls[i])
    requires forall i :: 0 <= i < |calls| && calls[i] == DirectPathFailed ==> states[i] != Idle
    ensures var inputs, last := AllHeard(states, calls), states[|calls|];
            var n := Ticks(inputs);
            if InTime(ControllerFor(true), (), inputs)
            then last.Active? || (last.Idle? && DirectPathRecovered in calls)
            else if n < 30 then last == Activating(4 - n / 6, 5 - n % 6)
            else last == Failed
  {
    var recovers := DirectPathRecovered in calls;
    CallsAreProbeRun(states, calls, recovers);
    Clock(Ticks(AllHeard(states, calls)));
    ReadsAs(recovers, states[|calls|]);
    ReadsAs(true, states[|calls|]);
    hide Unanswered, Answered, Ticks, Obeys, AllHeard, ProbeRun, After, ControllerFor;
    ControllerOutcome(ControllerFor(recovers), states, AllHeard(states, calls), ());
  }

  lemma ReadsAs(recovers: bool, s: State)
    ensures var c := ControllerFor(recovers);
            && c.timeout == TURN_PROBE_TIMEOUT_TICKS && c.retries == TURN_PROBE_MAX_RETRIES && c.timer(s) == Abs(s)
            && (c.succeeded(s) <==> s.Active? || (recovers && s.Idle?)) && (c.failed(s) <==> s.Failed?)
  {
  }

  lemma CallsAreProbeRun(states: seq<State>, calls: seq<Call>, recovers: bool)
    requires |states| == |calls| + 1 && states[0] == Activating(TURN_PROBE_MAX_RETRIES, TURN_PROBE_TIMEOUT_TICKS)
    requires forall i :: 0 <= i < |calls| ==> states[i + 1] == After(states[i], calls[i])
    requires forall i :: 0 <= i < |calls| && calls[i] == DirectPathFailed ==> states[i] != Idle
    requires DirectPathRecovered in calls ==> recovers
    ensures ProbeRun(ControllerFor(recovers), states, AllHeard(states, calls), ())
  {
    hide After, Obeys;
    forall i | 0 <= i < |calls|
      ensures Obeys(ControllerFor(recovers), states[i], states[i + 1], AllHeard(states, calls)[i])
    {
      CallIsTimerStep(states[i], calls[i], recovers);
    }
  }

  /** The activation after `n` ticks without a confirmation. */
  lemma Clock(n: nat)
    ensures Unanswered(TURN_PROBE_TIMEOUT_TICKS, TURN_PROBE_MAX_RETRIES, (), n)
         == if n < 30 then Probing((), 4 - n / 6, 5 - n % 6) else Rest
  {
  }

  /** What a tick reports. */
  function TickEvent(s: State): Option<Event> {
    if s.Active? then (if s.keepaliveTicks == 0 then Some(Keepalive) else None)
    else Reported(Says(ControllerFor(true), s, Tick))
  }

  /** The events of any run: the probe sent again on ticks 6, 12, 18 and 24, failure on tick 30. */
  lemma EventSchedule(states: seq<State>, calls: seq<Call>)
    requires |states| == |calls| + 1 && states[0] == Activating(TURN_PROBE_MAX_RETRIES, TURN_PROBE_TIMEOUT_TICKS)
    requires forall i :: 0 <= i < |calls| ==> states[i + 1] == After(states[i], calls[i])
    requires forall i :: 0 <= i < |calls| && calls[i] == DirectPathFailed ==> states[i] != Idle
    ensures var inputs, last := AllHeard(states, calls), states[|calls|];
            var n := Ticks(inputs) + 1;
            && (InTime(ControllerFor(true), (), inputs) ==>
                  !last.Activating? && Reported(Says(ControllerFor(true), last, Reply(()))) == None)
            && (!InTime(ControllerFor(true), (), inputs) ==>
                  && (Reported(Says(ControllerFor(true), last, Reply(()))) == if n <= 30 then Some(Activated) else None)
                  && (TickEvent(last) == if n > 30 || n % 6 != 0 then None
                                         else if n == 30 then Some(FailedNow) else Some(Retransmit)))
  {
    hide AllHeard, Ticks, Answered;
    Outcome(states, calls);
  }

  // ----- keeping an active relay alive -----

  /** Ticks since the relay was last heard of. */
  function Quiet(calls: seq<Call>): nat {
    if calls == [] then 0
    else
      var before, last := calls[..|calls| - 1], calls[|calls| - 1];
      if last == RelayAck then 0 else Quiet(before) + (if last == TimerTick then 1 else 0)
  }

  /**
   From its activation on, as long as no direct path recovers, the relay stays active and a tick asks for a keepalive
   exactly when the ticks since the activation or the last acknowledgement are a multiple of 1 201.
   */
  lemma {:induction false} KeepaliveSchedule(states: seq<State>, calls: seq<Call>)
    requires |states| == |calls| + 1 && states[0] == Active(1200) && DirectPathRecovered !in calls
    requires forall i :: 0 <= i < |calls| ==> states[i + 1] == After(states[i], calls[i])
    ensures var n, last := Quiet(calls), states[|calls|];
            && last == Active(1200 - n % 1201)
            && TickEvent(last) == if (n + 1) % 1201 == 0 then Some(Keepalive) else None
  {
    if calls != [] {
      var before, last := calls[..|calls| - 1], calls[|calls| - 1];
      KeepaliveSchedule(states[..|calls|], before);
      assert states[|calls|] == After(states[|before|], last);
      assert last in calls;
      DivStep(Quiet(before), 1201);
      hide Reported, Says;
    }
    DivStep(Quiet(calls), 1201);
  }

  class TurnRelayController {
    var state: State

    constructor ()
      ensures state == Idle
    {
      state := Idle;
    }

    /** Starts a probe from `Idle` only; a probe in flight, an active relay or a failure is left alone. */
    method OnDirectPathFailed()
      modifies this
      ensures state == After(old(state), DirectPathFailed)
    {
      if state.Idle? {
        state := Activating(TURN_PROBE_MAX_RETRIES, TURN_PROBE_TIMEOUT_TICKS);
      }
    }

    method OnRelayActivated() returns (event: Option<Event>)
      modifies this
      ensures state == After(old(state), RelayActivated)
      ensures event == Reported(Says(ControllerFor(true), old(state), Reply(())))
    {
      if state.Activating? {
        state := Active(TURN_KEEPALIVE_INTERVAL_TICKS);
        return Some(Activated);
      }
      return None;
    }

    method OnRelayAck()
      modifies this
      ensures state == After(old(state), RelayAck)
    {
      if state.Active? {
        state := Active(TURN_KEEPALIVE_INTERVAL_TICKS);
      }
    }

    method OnDirectPathRecovered()
      modifies this
      ensures state == After(old(state), DirectPathRecovered)
    {
      if state.Active? {
        state := Idle;
      }
    }

    method Tick() returns (event: Option<Event>)
      modifies this
      ensures state == After(old(state), TimerTick)
      ensures event == TickEvent(old(state))
    {
      if state.Active? {
        if state.keepaliveTicks > 0 {
          state := Active(state.keepaliveTicks - 1);
          return None;
        }
        state := Active(TURN_KEEPALIVE_INTERVAL_TICKS);
        return Some(Keepalive);
      }
      match state {
        case Activating(retriesLeft, ticksRemaining) =>
          if ticksRemaining > 0 {
            state := Activating(retriesLeft, ticksRemaining - 1);
            return None;
          }
          if retriesLeft == 0 {
            state := Failed;
            return Some(FailedNow);
          }
          state := Activating(retriesLeft - 1, TURN_PROBE_TIMEOUT_TICKS);
          return Some(Retransmit);
        case _ => return None;
      }
    }
  }
}
