/**
 The retry timer behind every probing controller: a probe is sent, sent again each time `T + 1` ticks
 pass without an answer, at most `R` times, and then given up.
 */
module RetryTimer {
  import opened Prelude

  /** A probe in flight for `key`, or none. */
  datatype Probe<K> = Rest | Probing(key: K, retries: nat, ticks: nat)

  /** `Other` is anything a controller hears that does not concern its timer. */
  datatype Input<K> = Start(key: K) | Tick | Reply(key: K) | Other

  datatype Output<K> = Silent | Sent(key: K) | Resent(key: K) | Succeeded(key: K) | GaveUp(key: K)

  function Step<K(==)>(T: nat, R: nat, p: Probe<K>, i: Input<K>): (Probe<K>, Output<K>) {
    match (p, i)
    case (_, Start(key)) => (Probing(key, R, T), Sent(key))
    case (Probing(key, retries, ticks), Tick) =>
      if ticks > 0 then (Probing(key, retries, ticks - 1), Silent)
      else if retries == 0 then (Rest, GaveUp(key))
      else (Probing(key, retries - 1, T), Resent(key))
    case (Probing(key, _, _), Reply(other)) => if other == key then (Rest, Succeeded(key)) else (p, Silent)
    case (_, _) => (p, Silent)
  }

  function Run<K(==)>(T: nat, R: nat, p: Probe<K>, inputs: seq<Input<K>>): Probe<K> {
    if inputs == [] then p
    else Step(T, R, Run(T, R, p, inputs[..|inputs| - 1]), inputs[|inputs| - 1]).0
  }

  /** What the `i`-th input of a run puts out. */
  function OutputAt<K(==)>(T: nat, R: nat, p: Probe<K>, inputs: seq<Input<K>>, i: nat): Output<K>
    requires i < |inputs|
  {
    Step(T, R, Run(T, R, p, inputs[..i]), inputs[i]).1
  }

  function Ticks<K(==)>(inputs: seq<Input<K>>): nat {
    if inputs == [] then 0
    else Ticks(inputs[..|inputs| - 1]) + (if inputs[|inputs| - 1].Tick? then 1 else 0)
  }

  /** Ticks after which an unanswered probe is given up. */
  function Deadline(T: nat, R: nat): nat { (T + 1) * (R + 1) }

  /** A reply for `key` has come while fewer ticks than the deadline had passed. */
  predicate Answered<K(==)>(T: nat, R: nat, key: K, inputs: seq<Input<K>>) {
    inputs != [] &&
    (|| Answered(T, R, key, inputs[..|inputs| - 1])
     || (inputs[|inputs| - 1] == Reply(key) && Ticks(inputs[..|inputs| - 1]) < Deadline(T, R)))
  }

  predicate NoStart<K(==)>(inputs: seq<Input<K>>) { forall i :: 0 <= i < |inputs| ==> !inputs[i].Start? }

  // ----- arithmetic of the schedule -----

  lemma BelowDeadline(n: nat, T: nat, R: nat)
    ensures n < Deadline(T, R) <==> n / (T + 1) <= R
  {
    var m := T + 1;
    assert n == m * (n / m) + n % m;
    if n / m <= R {
      assert m * (n / m) <= m * R;
    } else {
      assert m * (n / m) >= m * (R + 1);
    }
  }

  // ----- exact outcome of a probe -----

  /** The probe `n` ticks after it was sent, had nobody answered. */
  function Unanswered<K>(T: nat, R: nat, key: K, n: nat): Probe<K> {
    if n < Deadline(T, R) && n / (T + 1) <= R then Probing(key, R - n / (T + 1), T - n % (T + 1)) else Rest
  }

  lemma UnansweredTick<K>(T: nat, R: nat, key: K, n: nat)
    ensures Step(T, R, Unanswered(T, R, key, n), Tick)
         == (Unanswered(T, R, key, n + 1),
             if n + 1 > Deadline(T, R) || (n + 1) % (T + 1) != 0 then Silent
             else if n + 1 == Deadline(T, R) then GaveUp(key) else Resent(key))
  {
    var m := T + 1;
    DivStep(n, m);
    BelowDeadline(n, T, R);
    BelowDeadline(n + 1, T, R);
    if n < Deadline(T, R) {
      assert n + 1 == m * ((n + 1) / m) + (n + 1) % m;
      if n % m == T && n / m == R {
        assert n + 1 == m * (R + 1);
      }
    }
  }

  /** After any inputs but a restart the probe is closed if it was answered in time, else on schedule. */
  lemma {:induction false} ProbeAfter<K>(T: nat, R: nat, key: K, inputs: seq<Input<K>>)
    requires NoStart(inputs)
    ensures Run(T, R, Probing(key, R, T), inputs)
         == if Answered(T, R, key, inputs) then Rest else Unanswered(T, R, key, Ticks(inputs))
  {
    BelowDeadline(Ticks(inputs), T, R);
    if inputs == [] {
      assert 0 / (T + 1) == 0 && 0 % (T + 1) == 0;
    } else {
      var before := inputs[..|inputs| - 1];
      ProbeAfter(T, R, key, before);
      BelowDeadline(Ticks(before), T, R);
      if inputs[|inputs| - 1].Tick? {
        UnansweredTick(T, R, key, Ticks(before));
      }
    }
  }

  /**
   Exact event schedule: until a matching reply arrives, tick number n puts out a retransmission when n
   is a multiple of T + 1 below the deadline and the failure when n is the deadline; a reply succeeds
   exactly when it matches, is the first to match, and comes before the deadline; all else is silent.
   */
  lemma Schedule<K>(T: nat, R: nat, key: K, inputs: seq<Input<K>>, i: nat)
    requires NoStart(inputs) && i < |inputs|
    ensures var before := inputs[..i];
            var n := Ticks(before) + 1;
            OutputAt(T, R, Probing(key, R, T), inputs, i)
            == if Answered(T, R, key, before) then Silent
               else if inputs[i] == Reply(key) then (if n <= Deadline(T, R) then Succeeded(key) else Silent)
               else if !inputs[i].Tick? || n > Deadline(T, R) || n % (T + 1) != 0 then Silent
               else if n == Deadline(T, R) then GaveUp(key) else Resent(key)
  {
    var before := inputs[..i];
    ProbeAfter(T, R, key, before);
    BelowDeadline(Ticks(before), T, R);
    UnansweredTick(T, R, key, Ticks(before));
  }

  function Resends<K(==)>(T: nat, R: nat, p: Probe<K>, inputs: seq<Input<K>>): nat {
    if inputs == [] then 0
    else
      Resends(T, R, p, inputs[..|inputs| - 1])
      + (if Step(T, R, Run(T, R, p, inputs[..|inputs| - 1]), inputs[|inputs| - 1]).1.Resent? then 1 else 0)
  }

  /** Whole periods in `n` ticks, at most `R`. */
  function Periods(T: nat, R: nat, n: nat): nat { if n / (T + 1) <= R then n / (T + 1) else R }

  /** A further tick completes a period exactly when an unanswered probe is sent again on it. */
  lemma PeriodStep<K>(T: nat, R: nat, key: K, n: nat)
    ensures Periods(T, R, n + 1)
         == Periods(T, R, n) + (if Step(T, R, Unanswered(T, R, key, n), Tick).1.Resent? then 1 else 0)
  {
    DivStep(n, T + 1);
    BelowDeadline(n, T, R);
    BelowDeadline(n + 1, T, R);
    hide Deadline;
  }

  /** Until it is answered or given up, a probe has been sent again once per T + 1 ticks, at most R times. */
  lemma {:induction false} ResendCount<K>(T: nat, R: nat, key: K, inputs: seq<Input<K>>)
    requires NoStart(inputs) && !Answered(T, R, key, inputs)
    ensures Resends(T, R, Probing(key, R, T), inputs) == Periods(T, R, Ticks(inputs))
  {
    if inputs == [] {
      assert 0 / (T + 1) == 0;
    } else {
      hide Unanswered, Deadline, Periods, Run;
      var before := inputs[..|inputs| - 1];
      ResendCount(T, R, key, before);
      ProbeAfter(T, R, key, before);
      PeriodStep(T, R, key, Ticks(before));
    }
  }

  /** Where an unrestarted probe stands after the inputs. */
  function Course<K(==)>(T: nat, R: nat, key: K, inputs: seq<Input<K>>): Probe<K> {
    if Answered(T, R, key, inputs) then Rest else Unanswered(T, R, key, Ticks(inputs))
  }

  /** Nothing more can come of the probe: it was answered or its time is up. */
  predicate Closed<K(==)>(T: nat, R: nat, key: K, inputs: seq<Input<K>>) {
    Answered(T, R, key, inputs) || Deadline(T, R) <= Ticks(inputs)
  }

  /** The last input of a run: where it takes the probe, and which outputs close it. */
  lemma LastStep<K>(T: nat, R: nat, key: K, inputs: seq<Input<K>>)
    requires NoStart(inputs) && inputs != []
    ensures var before := inputs[..|inputs| - 1];
            var (p, o) := Step(T, R, Course(T, R, key, before), inputs[|inputs| - 1]);
            && p == Course(T, R, key, inputs)
            && (o.Succeeded? <==> Answered(T, R, key, inputs) && !Answered(T, R, key, before))
            && (o.GaveUp? <==> !Answered(T, R, key, inputs) && Ticks(before) < Deadline(T, R) <= Ticks(inputs))
            && (Answered(T, R, key, before) ==> Answered(T, R, key, inputs))
            && Ticks(before) <= Ticks(inputs)
            && (Closed(T, R, key, before) <==> Course(T, R, key, before) == Rest)
            && (Closed(T, R, key, inputs) <==> Course(T, R, key, inputs) == Rest)
  {
    var before := inputs[..|inputs| - 1];
    BelowDeadline(Ticks(before), T, R);
    BelowDeadline(Ticks(inputs), T, R);
    UnansweredTick(T, R, key, Ticks(before));
    assert Ticks(before) < Deadline(T, R) == Ticks(before) + 1 ==> (Ticks(before) + 1) % (T + 1) == 0 by {
      MultipleOf(T + 1, R + 1);
    }
  }

  lemma MultipleOf(m: nat, k: nat)
    requires m > 0
    ensures (m * k) % m == 0
  {
    DivModUnique(m * k, m, k, 0);
  }

  // ----- controllers -----

  /**
   A controller built on the timer: its constants, how its state shows the timer, and the states that
   count as a success and as a failure.
   */
  datatype Controller<!S, K> =
    Controller(timeout: nat, retries: nat, timer: S -> Probe<K>, succeeded: S -> bool, failed: S -> bool)

  /** What the timer puts out when the controller in state `s` hears `i`. */
  function Says<S, K(==)>(c: Controller<S, K>, s: S, i: Input<K>): Output<K> {
    Step(c.timeout, c.retries, c.timer(s), i).1
  }

  /** One move of the controller is one step of the timer, it closes the way the timer does, and stays closed. */
  ghost predicate Obeys<S, K>(c: Controller<S, K>, before: S, after: S, i: Input<K>) {
    && c.timer(after) == Step(c.timeout, c.retries, c.timer(before), i).0
    && (Says(c, before, i).Succeeded? ==> c.succeeded(after))
    && (Says(c, before, i).GaveUp? ==> c.failed(after))
    && (c.timer(before).Rest? && !i.Start? ==>
          (c.succeeded(before) ==> c.succeeded(after)) && (c.failed(before) ==> c.failed(after)))
  }

  /** A run that starts with a fresh probe for `key` and does not start another. */
  ghost predicate ProbeRun<S, K>(c: Controller<S, K>, states: seq<S>, inputs: seq<Input<K>>, key: K) {
    && |states| == |inputs| + 1 && NoStart(inputs)
    && c.timer(states[0]) == Probing(key, c.retries, c.timeout)
    && forall i :: 0 <= i < |inputs| ==> Obeys(c, states[i], states[i + 1], inputs[i])
  }

  /** A reply for `key` came within the controller's deadline. */
  predicate InTime<S, K(==)>(c: Controller<S, K>, key: K, inputs: seq<Input<K>>) {
    Answered(c.timeout, c.retries, key, inputs)
  }

  /**
   Every controller's outcome, after any run: succeeded exactly when a matching reply came in time, failed
   from the deadline on otherwise, and exactly where the clock puts the probe in between.
   */
  lemma {:induction false} ControllerOutcome<S, K>(c: Controller<S, K>, states: seq<S>, inputs: seq<Input<K>>, key: K)
    requires ProbeRun(c, states, inputs, key)
    ensures var last := states[|inputs|];
            && c.timer(last) == Course(c.timeout, c.retries, key, inputs)
            && (InTime(c, key, inputs) ==> c.timer(last) == Rest && c.succeeded(last))
            && (!InTime(c, key, inputs) && Deadline(c.timeout, c.retries) <= Ticks(inputs) ==>
                  c.timer(last) == Rest && c.failed(last))
  {
    if inputs == [] {
      assert 0 / (c.timeout + 1) == 0 && 0 % (c.timeout + 1) == 0;
      BelowDeadline(0, c.timeout, c.retries);
    } else {
      var before := inputs[..|inputs| - 1];
      assert Obeys(c, states[|before|], states[|inputs|], inputs[|before|]);
      ControllerOutcome(c, states[..|inputs|], before, key);
      LastStep(c.timeout, c.retries, key, inputs);
    }
  }

  /**
   Every controller's exact schedule: what the timer puts out for the next input after any run.  Until a matching
   reply it is a retransmission on each multiple of the period, the failure on the deadline, and silence otherwise.
   */
  lemma ControllerSchedule<S, K>(c: Controller<S, K>, states: seq<S>, inputs: seq<Input<K>>, key: K, i: Input<K>)
    requires ProbeRun(c, states, inputs, key) && !i.Start?
    ensures var n, due := Ticks(inputs) + 1, Deadline(c.timeout, c.retries);
            Says(c, states[|inputs|], i)
            == if InTime(c, key, inputs) || n > due then Silent
               else if i == Reply(key) then Succeeded(key)
               else if !i.Tick? || n % (c.timeout + 1) != 0 then Silent
               else if n == due then GaveUp(key) else Resent(key)
  {
    ControllerOutcome(c, states, inputs, key);
    BelowDeadline(Ticks(inputs), c.timeout, c.retries);
    UnansweredTick(c.timeout, c.retries, key, Ticks(inputs));
  }
}
