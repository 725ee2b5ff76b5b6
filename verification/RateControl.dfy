/** Cellular-mode hysteresis and the loss backstop: the two controllers that bound how often the rate is cut. */
module RateControl {
  import opened Prelude
  import LossModel

  const CELLULAR_ENTRY_TICKS: nat := 20
  const CELLULAR_EXIT_TICKS: nat := 50
  const CELLULAR_MIN_DECREASE_TICKS: nat := 30

  function SaturatingInc(n: nat): nat { if n >= U32_MAX then U32_MAX else n + 1 }

  // ----- cellular mode -----

  datatype Mode = Mode(active: bool, entry: nat, exit: nat, sinceDecrease: nat)

  const START: Mode := Mode(false, 0, 0, CELLULAR_MIN_DECREASE_TICKS)

  /** One control tick with the detector's current verdict. */
  function Tick(m: Mode, bimodal: bool): Mode {
    var entry := if bimodal then SaturatingInc(m.entry) else 0;
    var exit := if bimodal then 0 else SaturatingInc(m.exit);
    var since := SaturatingInc(m.sinceDecrease);
    if !m.active && entry >= CELLULAR_ENTRY_TICKS then Mode(true, entry, exit, since)
    else if m.active && exit >= CELLULAR_EXIT_TICKS then Mode(false, 0, exit, since)
    else Mode(m.active, entry, exit, since)
  }

  predicate CanDecrease(m: Mode) { !m.active || m.sinceDecrease >= CELLULAR_MIN_DECREASE_TICKS }

  function RecordDecrease(m: Mode): Mode { m.(sinceDecrease := 0) }

  function AfterTicks(verdicts: seq<bool>): Mode {
    if verdicts == [] then START else Tick(AfterTicks(verdicts[..|verdicts| - 1]), verdicts[|verdicts| - 1])
  }

  /** Number of consecutive ticks with this verdict up to now. */
  function Streak(verdicts: seq<bool>, verdict: bool): (n: nat)
    ensures n <= |verdicts|
    ensures forall i :: |verdicts| - n <= i < |verdicts| ==> verdicts[i] == verdict
    ensures n < |verdicts| ==> verdicts[|verdicts| - n - 1] != verdict
  {
    if verdicts == [] || verdicts[|verdicts| - 1] != verdict then 0
    else 1 + Streak(verdicts[..|verdicts| - 1], verdict)
  }

  function Capped(n: nat): nat { if n > 0xFFFF_FFFF then 0xFFFF_FFFF else n }

  lemma {:induction false} CountersAreStreaks(verdicts: seq<bool>)
    ensures AfterTicks(verdicts).entry == Capped(Streak(verdicts, true))
    ensures AfterTicks(verdicts).exit == Capped(Streak(verdicts, false))
  {
    if verdicts != [] {
      CountersAreStreaks(verdicts[..|verdicts| - 1]);
    }
  }

  /** The mode switches exactly on 20 consecutive bimodal ticks when off and 50 clean ticks when on. */
  lemma ModeSwitchesExactly(verdicts: seq<bool>)
    requires verdicts != []
    ensures var before, now := AfterTicks(verdicts[..|verdicts| - 1]), AfterTicks(verdicts);
            && (!before.active ==> (now.active <==> Streak(verdicts, true) >= 20))
            && (before.active ==> (!now.active <==> Streak(verdicts, false) >= 50))
  {
    CountersAreStreaks(verdicts[..|verdicts| - 1]);
    CountersAreStreaks(verdicts);
  }

  /** Tick `i` (counted from 0) turned the mode on. */
  ghost predicate TurnsOn(verdicts: seq<bool>, i: nat)
    requires i < |verdicts|
  {
    !AfterTicks(verdicts[..i]).active && AfterTicks(verdicts[..i + 1]).active
  }

  ghost predicate TurnsOff(verdicts: seq<bool>, i: nat)
    requires i < |verdicts|
  {
    AfterTicks(verdicts[..i]).active && !AfterTicks(verdicts[..i + 1]).active
  }

  /** The `n` ticks up to and including tick `i` all had this verdict. */
  ghost predicate EndsStreak(verdicts: seq<bool>, i: nat, n: nat, verdict: bool)
    requires i < |verdicts|
  {
    i + 1 >= n && forall k :: i + 1 - n <= k <= i ==> verdicts[k] == verdict
  }

  lemma SwitchNeedsStreak(verdicts: seq<bool>, i: nat)
    requires i < |verdicts|
    ensures TurnsOn(verdicts, i) ==> EndsStreak(verdicts, i, CELLULAR_ENTRY_TICKS, true)
    ensures TurnsOff(verdicts, i) ==> EndsStreak(verdicts, i, CELLULAR_EXIT_TICKS, false)
  {
    var now := verdicts[..i + 1];
    assert now[..|now| - 1] == verdicts[..i];
    ModeSwitchesExactly(now);
    assert forall k :: 0 <= k <= i ==> now[k] == verdicts[k];
  }

  /** Dwell times: on for at least 50 ticks, off for at least 20, whatever the detector reports. */
  lemma DwellTimes(verdicts: seq<bool>, i: nat, j: nat)
    requires i < j < |verdicts|
    ensures TurnsOn(verdicts, i) && TurnsOff(verdicts, j) ==> j - i >= 50
    ensures TurnsOff(verdicts, i) && TurnsOn(verdicts, j) ==> j - i >= 20
  {
    SwitchNeedsStreak(verdicts, i);
    SwitchNeedsStreak(verdicts, j);
    if TurnsOn(verdicts, i) && TurnsOff(verdicts, j) {
      assert verdicts[i];
    }
    if TurnsOff(verdicts, i) && TurnsOn(verdicts, j) {
      assert !verdicts[i];
    }
  }

  // ----- gated decreases -----

  datatype Op = TickOp(bimodal: bool) | TryDecrease

  function Step(m: Mode, op: Op): Mode {
    match op
    case TickOp(bimodal) => Tick(m, bimodal)
    case TryDecrease => if CanDecrease(m) then RecordDecrease(m) else m
  }

  function Run(m: Mode, ops: seq<Op>): Mode
    decreases |ops|
  {
    if ops == [] then m else Run(Step(m, ops[0]), ops[1..])
  }

  function Ticks(ops: seq<Op>): nat { if ops == [] then 0 else (if ops[0].TickOp? then 1 else 0) + Ticks(ops[1..]) }

  lemma {:induction false} SinceDecreaseBound(m: Mode, ops: seq<Op>)
    ensures Run(m, ops).sinceDecrease <= m.sinceDecrease + Ticks(ops)
    decreases |ops|
  {
    if ops != [] {
      SinceDecreaseBound(Step(m, ops[0]), ops[1..]);
    }
  }

  /** A decrease granted in cellular mode comes at least 30 ticks after the previous granted decrease. */
  lemma DecreasesSpaced(before: seq<Op>, between: seq<Op>)
    requires CanDecrease(Run(START, before))
    requires var m := Run(RecordDecrease(Run(START, before)), between); m.active && CanDecrease(m)
    ensures Ticks(between) >= 30
  {
    SinceDecreaseBound(RecordDecrease(Run(START, before)), between);
  }

  /** The verdicts of whole ticks, as operations. */
  function TickOps(verdicts: seq<bool>): seq<Op> {
    seq(|verdicts|, i requires 0 <= i < |verdicts| => TickOp(verdicts[i]))
  }

  lemma {:induction false} SinceDecreaseGrows(m: Mode, verdicts: seq<bool>)
    requires m.sinceDecrease <= U32_MAX
    ensures Run(m, TickOps(verdicts)).sinceDecrease == Capped(m.sinceDecrease + |verdicts|)
    decreases |verdicts|
  {
    if verdicts != [] {
      assert TickOps(verdicts)[1..] == TickOps(verdicts[1..]);
      SinceDecreaseGrows(Tick(m, verdicts[0]), verdicts[1..]);
    }
  }

  /** After a recorded decrease and `n` ticks another is granted exactly outside cellular mode or from 30 ticks on. */
  lemma DecreaseGate(m: Mode, verdicts: seq<bool>)
    ensures var t := Run(RecordDecrease(m), TickOps(verdicts));
            CanDecrease(t) <==> !t.active || |verdicts| >= 30
  {
    SinceDecreaseGrows(RecordDecrease(m), verdicts);
  }

  /** The first decrease is granted at once: no ticks at all are owed before it. */
  lemma FirstDecreaseGranted(verdicts: seq<bool>)
    ensures CanDecrease(Run(START, TickOps(verdicts)))
  {
    SinceDecreaseGrows(START, verdicts);
  }

  class CellularModeController {
    var active: bool
    var entryCounter: nat
    var exitCounter: nat
    var ticksSinceDecrease: nat

    ghost function Value(): Mode
      reads this
    {
      Mode(active, entryCounter, exitCounter, ticksSinceDecrease)
    }

    constructor ()
      ensures Value() == START
    {
      active, entryCounter, exitCounter, ticksSinceDecrease := false, 0, 0, CELLULAR_MIN_DECREASE_TICKS;
    }

    method ControlTick(bimodal: bool)
      modifies this
      ensures Value() == Tick(old(Value()), bimodal)
    {
      ticksSinceDecrease := SaturatingInc(ticksSinceDecrease);
      if bimodal {
        entryCounter, exitCounter := SaturatingInc(entryCounter), 0;
      } else {
        exitCounter, entryCounter := SaturatingInc(exitCounter), 0;
      }
      if !active && entryCounter >= CELLULAR_ENTRY_TICKS {
        active := true;
      } else if active && exitCounter >= CELLULAR_EXIT_TICKS {
        active, entryCounter := false, 0;
      }
    }

    method NoteDecrease()
      modifies this
      ensures Value() == RecordDecrease(old(Value()))
    {
      ticksSinceDecrease := 0;
    }
  }

  // ----- the loss backstop -----

  const LOSS_BACKSTOP_THRESHOLD: real := 0.10
  const LOSS_BACKSTOP_REDUCTION: real := 0.85
  const BACKSTOP_MIN_RATE_BPS: real := 48000.0
  const BACKSTOP_COOLDOWN_TICKS: nat := 50

  /** What one control tick reads off the loss estimator. */
  datatype Reading = Reading(observations: nat, loss: real)

  datatype Backstop = Backstop(cooldown: nat, rate: real)

  function Floored(r: real): real { if r < BACKSTOP_MIN_RATE_BPS then BACKSTOP_MIN_RATE_BPS else r }

  predicate Fires(b: Backstop, r: Reading) {
    b.cooldown == 0 && r.observations >= LossModel.MIN_OBS_FOR_ESTIMATE && r.loss > LOSS_BACKSTOP_THRESHOLD
  }

  /** One check, with the caller applying the returned rate. */
  function Check(b: Backstop, r: Reading): Backstop {
    if b.cooldown > 0 then b.(cooldown := b.cooldown - 1)
    else if Fires(b, r) then Backstop(BACKSTOP_COOLDOWN_TICKS, Floored(b.rate * LOSS_BACKSTOP_REDUCTION))
    else b
  }

  function Checks(b: Backstop, readings: seq<Reading>): Backstop {
    if readings == [] then b
    else Check(Checks(b, readings[..|readings| - 1]), readings[|readings| - 1])
  }

  ghost predicate FiresAt(b: Backstop, readings: seq<Reading>, i: nat)
    requires i < |readings|
  {
    Fires(Checks(b, readings[..i]), readings[i])
  }

  lemma {:induction false} CoolingDown(b: Backstop, readings: seq<Reading>, i: nat, n: nat)
    requires i + n < |readings| && n <= BACKSTOP_COOLDOWN_TICKS && FiresAt(b, readings, i)
    ensures Checks(b, readings[..i + 1 + n]).cooldown == BACKSTOP_COOLDOWN_TICKS - n
    decreases n
  {
    var now := readings[..i + 1 + n];
    assert now[..|now| - 1] == readings[..i + n];
    if n > 0 {
      CoolingDown(b, readings, i, n - 1);
    }
  }

  /** Two firings are at least 51 checks apart. */
  lemma FiringsSpaced(b: Backstop, readings: seq<Reading>, i: nat, j: nat)
    requires i < j < |readings| && FiresAt(b, readings, i) && FiresAt(b, readings, j)
    ensures j - i >= 51
  {
    if j - i <= BACKSTOP_COOLDOWN_TICKS {
      CoolingDown(b, readings, i, j - i - 1);
    }
  }

  /** A reading that calls for a cut: a warm estimator above ten per cent loss. */
  predicate CallsForCut(r: Reading) { r.observations >= 30 && r.loss > 0.10 }

  lemma {:induction false} CooledDown(b: Backstop, readings: seq<Reading>, i: nat, j: nat)
    requires i + 51 <= j < |readings| && FiresAt(b, readings, i)
    requires forall k :: i < k < j ==> !FiresAt(b, readings, k)
    ensures Checks(b, readings[..j]).cooldown == 0
    decreases j
  {
    if j == i + 51 {
      CoolingDown(b, readings, i, 50);
    } else {
      CooledDown(b, readings, i, j - 1);
      assert readings[..j][..j - 1] == readings[..j - 1];
      assert !FiresAt(b, readings, j - 1);
    }
  }

  /** After a firing the next one is exactly at the first reading 51 or more checks later that calls for it. */
  lemma FiresAgainExactly(b: Backstop, readings: seq<Reading>, i: nat, j: nat)
    requires i < j < |readings| && FiresAt(b, readings, i) && forall k :: i < k < j ==> !FiresAt(b, readings, k)
    ensures FiresAt(b, readings, j) <==> j - i >= 51 && CallsForCut(readings[j])
  {
    if FiresAt(b, readings, j) {
      FiringsSpaced(b, readings, i, j);
    }
    if j - i >= 51 {
      CooledDown(b, readings, i, j);
    }
  }

  /** A check cuts exactly when the backstop is not cooling down and the reading calls for it; then 15 %, floored. */
  lemma CutsExactly(b: Backstop, r: Reading)
    ensures Fires(b, r) <==> b.cooldown == 0 && CallsForCut(r)
    ensures Check(b, r).rate == if b.cooldown == 0 && CallsForCut(r)
                                then (if b.rate * 0.85 < 48000.0 then 48000.0 else b.rate * 0.85) else b.rate
  {
  }

  /** While no reading calls for a cut, the rate never changes, over any number of checks. */
  lemma {:induction false} QuietLinksKeepRate(b: Backstop, readings: seq<Reading>)
    requires forall i :: 0 <= i < |readings| ==> !CallsForCut(readings[i])
    ensures Checks(b, readings).rate == b.rate && FiringCount(b, readings) == 0
  {
    if readings != [] {
      QuietLinksKeepRate(b, readings[..|readings| - 1]);
      CutsExactly(Checks(b, readings[..|readings| - 1]), readings[|readings| - 1]);
    }
  }

  function FiringCount(b: Backstop, readings: seq<Reading>): nat {
    if readings == [] then 0
    else FiringCount(b, readings[..|readings| - 1])
         + (if Fires(Checks(b, readings[..|readings| - 1]), readings[|readings| - 1]) then 1 else 0)
  }

  /** The rate after `n` cuts of 15 % each, held at the floor once, at the end. */
  function CutRate(rate: real, n: nat): real { Floored(rate * Power(LOSS_BACKSTOP_REDUCTION, n)) }

  /** Flooring before the next cut gives the same as flooring after it. */
  lemma CutStep(rate: real, n: nat)
    ensures Floored(CutRate(rate, n) * LOSS_BACKSTOP_REDUCTION) == CutRate(rate, n + 1)
  {
  }

  /** The rate after any run, from any start: untouched before the first firing, cut and floored from then on. */
  lemma {:induction false} RateAfterRun(b: Backstop, readings: seq<Reading>)
    ensures var n := FiringCount(b, readings);
            Checks(b, readings).rate == if n == 0 then b.rate else CutRate(b.rate, n)
  {
    if readings != [] {
      var before := readings[..|readings| - 1];
      RateAfterRun(b, before);
      CutStep(b.rate, FiringCount(b, before));
      assert Power(LOSS_BACKSTOP_REDUCTION, 1) == LOSS_BACKSTOP_REDUCTION * Power(LOSS_BACKSTOP_REDUCTION, 0);
    }
  }

  /** In one run the rate is max(start × 0.85^firings, 48 kbps) exactly if it started at the floor or has been cut. */
  lemma RateAfterFirings(b: Backstop, readings: seq<Reading>)
    ensures var n := FiringCount(b, readings);
            Checks(b, readings).rate == CutRate(b.rate, n) <==> b.rate >= BACKSTOP_MIN_RATE_BPS || n > 0
  {
    RateAfterRun(b, readings);
    assert Power(LOSS_BACKSTOP_REDUCTION, 0) == 1.0;
  }

  /** The closed form describes every run from `b`. */
  ghost predicate ClosedForm(b: Backstop) {
    forall readings :: Checks(b, readings).rate == CutRate(b.rate, FiringCount(b, readings))
  }

  /** It does exactly when the rate starts at the floor or above. */
  lemma ClosedFormExactly(b: Backstop)
    ensures ClosedForm(b) <==> b.rate >= BACKSTOP_MIN_RATE_BPS
  {
    forall readings
      ensures b.rate >= BACKSTOP_MIN_RATE_BPS ==>
                Checks(b, readings).rate == CutRate(b.rate, FiringCount(b, readings))
    {
      RateAfterFirings(b, readings);
    }
    RateAfterFirings(b, []);
  }

  /** A firing lowers exactly the rates above the floor and raises exactly the rates below it. */
  lemma FiringMovesRate(b: Backstop, r: Reading)
    requires Fires(b, r)
    ensures Check(b, r).rate < b.rate <==> b.rate > BACKSTOP_MIN_RATE_BPS
    ensures Check(b, r).rate > b.rate <==> b.rate < BACKSTOP_MIN_RATE_BPS
  {
  }

  /** For example: a stream at 40 kbps leaves its first firing at 48 kbps. */
  lemma CutCanRaise(r: Reading)
    requires r.observations >= LossModel.MIN_OBS_FOR_ESTIMATE && r.loss > LOSS_BACKSTOP_THRESHOLD
    ensures Check(Backstop(0, 40000.0), r).rate == BACKSTOP_MIN_RATE_BPS
  {
  }

  /** No run from `b` leaves the rate above where it started. */
  ghost predicate NeverRaises(b: Backstop) {
    forall readings :: Checks(b, readings).rate <= b.rate
  }

  lemma {:induction false} NeverBelowFloorOrAboveStart(b: Backstop, readings: seq<Reading>)
    requires b.rate >= BACKSTOP_MIN_RATE_BPS
    ensures BACKSTOP_MIN_RATE_BPS <= Checks(b, readings).rate <= b.rate
  {
    if readings != [] {
      NeverBelowFloorOrAboveStart(b, readings[..|readings| - 1]);
    }
  }

  /** Readings that make any backstop fire: bad ones until the cooldown is over, and one more. */
  function Lossy(n: nat): seq<Reading> { seq(n, _ => Reading(LossModel.MIN_OBS_FOR_ESTIMATE, 1.0)) }

  lemma {:induction false} CooldownEnds(b: Backstop, n: nat)
    requires n <= b.cooldown
    ensures Checks(b, Lossy(n)) == b.(cooldown := b.cooldown - n)
  {
    if n > 0 {
      CooldownEnds(b, n - 1);
      assert Lossy(n)[..n - 1] == Lossy(n - 1);
    }
  }

  /** Over whole runs: no run ever raises the rate exactly when it starts at the floor or above. */
  lemma NeverRaisesExactly(b: Backstop)
    ensures NeverRaises(b) <==> b.rate >= BACKSTOP_MIN_RATE_BPS
  {
    if b.rate >= BACKSTOP_MIN_RATE_BPS {
      forall readings ensures Checks(b, readings).rate <= b.rate {
        NeverBelowFloorOrAboveStart(b, readings);
      }
    } else {
      var readings := Lossy(b.cooldown + 1);
      assert readings[..b.cooldown] == Lossy(b.cooldown);
      CooldownEnds(b, b.cooldown);
      FiringMovesRate(Checks(b, Lossy(b.cooldown)), readings[b.cooldown]);
      assert Checks(b, readings).rate > b.rate;
    }
  }

  class LossBackstop {
    var cooldownRemaining: nat

    constructor ()
      ensures cooldownRemaining == 0
    {
      cooldownRemaining := 0;
    }

    method CheckLoss(currentRate: real, reading: Reading) returns (newRate: Option<real>)
      modifies this
      ensures var b := Backstop(old(cooldownRemaining), currentRate);
              && newRate.Some? == Fires(b, reading)
              && Check(b, reading) == Backstop(cooldownRemaining, if newRate.Some? then newRate.value else currentRate)
    {
      if cooldownRemaining > 0 {
        cooldownRemaining := cooldownRemaining - 1;
        return None;
      }
      if reading.observations < LossModel.MIN_OBS_FOR_ESTIMATE {
        return None;
      }
      if reading.loss <= LOSS_BACKSTOP_THRESHOLD {
        return None;
      }
      newRate := Some(Floored(currentRate * LOSS_BACKSTOP_REDUCTION));
      cooldownRemaining := BACKSTOP_COOLDOWN_TICKS;
    }
  }
}
