/**
 Gilbert-Elliott loss estimation for FEC sizing: the streaming estimator over packet outcomes and the
 batch fitter over run lengths decoded from acknowledgements.  `f64` is modelled as `real`.
 */
module LossModel {
  import opened Prelude

  const EPSILON: real := 1.0 / 4503599627370496.0
  const MIN_OBS_FOR_ESTIMATE: nat := 30
  const MIN_RUNS_FOR_ESTIMATE: nat := 8

  function MaxReal(a: real, b: real): real { if a < b then b else a }

  function ClampReal(v: real, low: real, high: real): real { if v < low then low else if v > high then high else v }

  /** Transition probabilities of the simplified model: no loss in the good state, certain loss in the bad. */
  datatype Params = Params(a: real, b: real, p: real, q: real)

  function MeanLossRate(m: Params): real {
    if m.a + m.b < EPSILON then 0.0
    else
      var piB := m.a / (m.a + m.b);
      piB * m.q + (1.0 - piB) * m.p
  }

  /** The loss of any model is the average of the two states' losses, weighted by the rates of entering them. */
  lemma MeanLossIsWeighted(m: Params)
    requires m.a + m.b >= EPSILON
    ensures MeanLossRate(m) * (m.a + m.b) == m.a * m.q + m.b * m.p
  {
    var sum, piB := m.a + m.b, m.a / (m.a + m.b);
    assert piB * sum == m.a && (1.0 - piB) * sum == m.b;
    assert (piB * m.q) * sum == m.a * m.q && ((1.0 - piB) * m.p) * sum == m.b * m.p;
  }

  // ----- the streaming estimator -----

  datatype Estimator = Estimator(loss: real, burst: real, count: nat, inRun: bool, run: nat)

  const START: Estimator := Estimator(0.0, 1.0, 0, false, 0)

  datatype Alphas = Alphas(loss: real, burst: real)

  /** Smoothing constants lie strictly between 0 and 1. */
  predicate ValidAlphas(k: Alphas) { 0.0 < k.loss < 1.0 && 0.0 < k.burst < 1.0 }

  function Ema(alpha: real, prior: real, sample: real): real { (1.0 - alpha) * prior + alpha * sample }

  function Saturate(n: nat): nat { if n > U32_MAX then U32_MAX else n }

  function Observe(k: Alphas, s: Estimator, received: bool): Estimator {
    var loss := Ema(k.loss, s.loss, if received then 0.0 else 1.0);
    if received then
      var burst := if s.inRun && s.run > 0 then Ema(k.burst, s.burst, s.run as real) else s.burst;
      Estimator(loss, burst, s.count + 1, false, 0)
    else Estimator(loss, s.burst, s.count + 1, true, Saturate(s.run + 1))
  }

  function Run(k: Alphas, s: Estimator, outcomes: seq<bool>): Estimator
    decreases |outcomes|
  {
    if outcomes == [] then s else Run(k, Observe(k, s, outcomes[0]), outcomes[1..])
  }

  // ----- completed loss bursts, read off the outcome sequence -----

  function LeadingLosses(outcomes: seq<bool>): (n: nat)
    ensures n <= |outcomes| && (forall i :: 0 <= i < n ==> !outcomes[i]) && (n < |outcomes| ==> outcomes[n])
  {
    if outcomes == [] || outcomes[0] then 0 else 1 + LeadingLosses(outcomes[1..])
  }

  /** Lengths of the maximal loss runs that a received packet has ended, oldest first. */
  function CompletedBursts(outcomes: seq<bool>): seq<nat>
    decreases |outcomes|
  {
    var n := LeadingLosses(outcomes);
    if n == |outcomes| then [] else (if n == 0 then [] else [n]) + CompletedBursts(outcomes[n + 1..])
  }

  function EmaOfBursts(alpha: real, start: real, bursts: seq<nat>): real
    decreases |bursts|
  {
    if bursts == [] then start else EmaOfBursts(alpha, Ema(alpha, start, Saturate(bursts[0]) as real), bursts[1..])
  }

  lemma {:induction false} RunSplit(k: Alphas, s: Estimator, a: seq<bool>, b: seq<bool>)
    ensures Run(k, s, a + b) == Run(k, Run(k, s, a), b)
    decreases |a|
  {
    if a == [] {
      assert a + b == b;
    } else {
      assert (a + b)[1..] == a[1..] + b;
      RunSplit(k, Observe(k, s, a[0]), a[1..], b);
    }
  }

  lemma {:induction false} LossRun(k: Alphas, s: Estimator, losses: seq<bool>)
    requires forall i :: 0 <= i < |losses| ==> !losses[i]
    requires s.run <= U32_MAX
    ensures var t := Run(k, s, losses);
            t.burst == s.burst && t.run == Saturate(s.run + |losses|) && (losses != [] ==> t.inRun)
    decreases |losses|
  {
    if losses != [] {
      var t := Observe(k, s, losses[0]);
      LossRun(k, t, losses[1..]);
      if |losses| == 1 {
        assert losses[1..] == [];
      }
    }
  }

  /** The burst-length estimate is the moving average over exactly the completed maximal loss runs. */
  lemma {:induction false} BurstIsEmaOfCompletedRuns(k: Alphas, s: Estimator, outcomes: seq<bool>)
    requires !s.inRun && s.run == 0
    ensures Run(k, s, outcomes).burst == EmaOfBursts(k.burst, s.burst, CompletedBursts(outcomes))
    decreases |outcomes|
  {
    var n := LeadingLosses(outcomes);
    var losses := outcomes[..n];
    LossRun(k, s, losses);
    if n == |outcomes| {
      assert losses == outcomes;
    } else {
      var mid := Run(k, s, losses);
      var next := Observe(k, mid, true);
      assert outcomes == losses + outcomes[n..];
      RunSplit(k, s, losses, outcomes[n..]);
      assert outcomes[n..][1..] == outcomes[n + 1..];
      BurstIsEmaOfCompletedRuns(k, next, outcomes[n + 1..]);
      if n == 0 {
        assert losses == [];
        assert [] + CompletedBursts(outcomes[n + 1..]) == CompletedBursts(outcomes[n + 1..]);
      } else {
        assert ([n] + CompletedBursts(outcomes[n + 1..]))[1..] == CompletedBursts(outcomes[n + 1..]);
      }
    }
  }

  // ----- the averages in closed form -----

  /** The sum of the samples, each weighted by alpha and by what is left of it after the later ones. */
  function Weighted(alpha: real, samples: seq<real>): real {
    if samples == [] then 0.0
    else alpha * Power(1.0 - alpha, |samples| - 1) * samples[0] + Weighted(alpha, samples[1..])
  }

  /** What an average over the samples comes to: the start fades by 1 − alpha per sample. */
  function Faded(alpha: real, start: real, samples: seq<real>): real {
    Power(1.0 - alpha, |samples|) * start + Weighted(alpha, samples)
  }

  lemma FadedStep(alpha: real, start: real, samples: seq<real>)
    requires samples != []
    ensures Faded(alpha, start, samples) == Faded(alpha, Ema(alpha, start, samples[0]), samples[1..])
  {
    var p, x := Power(1.0 - alpha, |samples| - 1), samples[0];
    assert Power(1.0 - alpha, |samples|) == (1.0 - alpha) * p;
    assert p * ((1.0 - alpha) * start + alpha * x) == (1.0 - alpha) * p * start + alpha * p * x;
  }

  lemma FadedNone(alpha: real, start: real)
    ensures Faded(alpha, start, []) == start
  {
  }

  /** A loss is a sample of one, an arrival a sample of zero. */
  function LossSamples(outcomes: seq<bool>): seq<real> {
    seq(|outcomes|, i requires 0 <= i < |outcomes| => if outcomes[i] then 0.0 else 1.0)
  }

  /** The loss rate, from the outcomes alone: the faded start plus the weights of the lost packets. */
  lemma {:induction false} LossIsWeightedLosses(k: Alphas, s: Estimator, outcomes: seq<bool>)
    ensures Run(k, s, outcomes).loss == Faded(k.loss, s.loss, LossSamples(outcomes))
    decreases |outcomes|
  {
    hide Faded, Ema;
    var samples := LossSamples(outcomes);
    FadedNone(k.loss, s.loss);
    if outcomes != [] {
      assert samples[1..] == LossSamples(outcomes[1..]);
      FadedStep(k.loss, s.loss, samples);
      LossIsWeightedLosses(k, Observe(k, s, outcomes[0]), outcomes[1..]);
    }
  }

  lemma {:induction false} EqualSamples(alpha: real, samples: seq<real>, x: real)
    requires forall i :: 0 <= i < |samples| ==> samples[i] == x
    ensures Weighted(alpha, samples) == (1.0 - Power(1.0 - alpha, |samples|)) * x
    decreases |samples|
  {
    if samples != [] {
      EqualSamples(alpha, samples[1..], x);
      var p := Power(1.0 - alpha, |samples| - 1);
      assert Power(1.0 - alpha, |samples|) == (1.0 - alpha) * p;
      assert alpha * p * x + (1.0 - p) * x == (1.0 - (1.0 - alpha) * p) * x;
    }
  }

  /** A clean link drives the loss rate to zero and a dead one to one, by a factor of 1 − alpha per packet. */
  lemma CleanAndDead(k: Alphas, s: Estimator, outcomes: seq<bool>, received: bool)
    requires forall i :: 0 <= i < |outcomes| ==> outcomes[i] == received
    ensures var p := Power(1.0 - k.loss, |outcomes|);
            Run(k, s, outcomes).loss == if received then p * s.loss else 1.0 - p * (1.0 - s.loss)
  {
    var p := Power(1.0 - k.loss, |outcomes|);
    LossIsWeightedLosses(k, s, outcomes);
    EqualSamples(k.loss, LossSamples(outcomes), if received then 0.0 else 1.0);
    assert p * s.loss + (1.0 - p) * 1.0 == 1.0 - p * (1.0 - s.loss);
  }

  function BurstSamples(bursts: seq<nat>): seq<real> {
    seq(|bursts|, i requires 0 <= i < |bursts| => Saturate(bursts[i]) as real)
  }

  lemma {:induction false} BurstsFade(alpha: real, start: real, bursts: seq<nat>)
    ensures EmaOfBursts(alpha, start, bursts) == Faded(alpha, start, BurstSamples(bursts))
    decreases |bursts|
  {
    hide Faded, Ema;
    FadedNone(alpha, start);
    if bursts != [] {
      assert BurstSamples(bursts)[1..] == BurstSamples(bursts[1..]);
      FadedStep(alpha, start, BurstSamples(bursts));
      BurstsFade(alpha, Ema(alpha, start, Saturate(bursts[0]) as real), bursts[1..]);
    }
  }

  /** The burst length likewise, from the completed loss runs alone; it starts at one. */
  lemma BurstIsWeightedRuns(k: Alphas, outcomes: seq<bool>)
    ensures Run(k, START, outcomes).burst == Faded(k.burst, 1.0, BurstSamples(CompletedBursts(outcomes)))
  {
    BurstIsEmaOfCompletedRuns(k, START, outcomes);
    BurstsFade(k.burst, 1.0, CompletedBursts(outcomes));
  }

  ghost predicate InRange(s: Estimator) {
    0.0 <= s.loss <= 1.0 && 1.0 <= s.burst <= U32_MAX as real && s.run <= U32_MAX && (s.inRun <==> s.run > 0)
  }

  /** A moving average stays between bounds that contain the old value and the sample. */
  lemma EmaBetween(alpha: real, prior: real, sample: real, low: real, high: real)
    requires 0.0 < alpha < 1.0 && low <= prior <= high && low <= sample <= high
    ensures low <= Ema(alpha, prior, sample) <= high
  {
    ProductSign(1.0 - alpha, prior - low);
    ProductSign(1.0 - alpha, high - prior);
    ProductSign(alpha, sample - low);
    ProductSign(alpha, high - sample);
    assert Ema(alpha, prior, sample) - low == (1.0 - alpha) * (prior - low) + alpha * (sample - low);
    assert high - Ema(alpha, prior, sample) == (1.0 - alpha) * (high - prior) + alpha * (high - sample);
  }

  /** Loss stays within [0, 1] and the burst length at least 1, in every reachable state. */
  lemma {:induction false} EstimatesStayInRange(k: Alphas, s: Estimator, outcomes: seq<bool>)
    requires ValidAlphas(k) && InRange(s)
    ensures InRange(Run(k, s, outcomes)) && Run(k, s, outcomes).count == s.count + |outcomes|
    decreases |outcomes|
  {
    if outcomes != [] {
      EmaBetween(k.loss, s.loss, if outcomes[0] then 0.0 else 1.0, 0.0, 1.0);
      if s.run > 0 {
        EmaBetween(k.burst, s.burst, s.run as real, 1.0, U32_MAX as real);
      }
      EstimatesStayInRange(k, Observe(k, s, outcomes[0]), outcomes[1..]);
    }
  }

  function FittedParams(s: Estimator): Option<Params> {
    if s.count < MIN_OBS_FOR_ESTIMATE then None
    else
      var l := ClampReal(s.loss, 0.0, 1.0 - EPSILON);
      var b := 1.0 / MaxReal(s.burst, 1.0);
      Some(Params(l * b / MaxReal(1.0 - l, EPSILON), b, 0.0, 1.0))
  }

  lemma SteadyState(l: real, b: real)
    requires 0.0 <= l < 1.0 && b > 0.0
    ensures var a := l * b / (1.0 - l); a >= 0.0 && a + b > 0.0 && a / (a + b) == l
  {
    var a := l * b / (1.0 - l);
    ProductSign(l, b);
    assert a * (1.0 - l) == l * b;
    CancelFactor(0.0, a, 1.0 - l);
    assert a == l * (a + b);
    CancelFactor(a / (a + b), l, a + b);
  }

  /** The fitted model's steady-state loss is the clamped observed loss, for every warm reachable state. */
  lemma FittedLossIsObservedLoss(k: Alphas, outcomes: seq<bool>)
    requires ValidAlphas(k) && |outcomes| >= MIN_OBS_FOR_ESTIMATE
    ensures var s := Run(k, START, outcomes);
            && FittedParams(s).Some? && FittedParams(s).value.p == 0.0 && FittedParams(s).value.q == 1.0
            && MeanLossRate(FittedParams(s).value) == (if s.loss <= 1.0 - EPSILON then s.loss else 1.0 - EPSILON)
            && 1.0 / FittedParams(s).value.b == s.burst
  {
    EstimatesStayInRange(k, START, outcomes);
    var s := Run(k, START, outcomes);
    var l := ClampReal(s.loss, 0.0, 1.0 - EPSILON);
    var b := 1.0 / s.burst;
    InverseBound(s.burst);
    SteadyState(l, b);
    assert FittedParams(s).value == Params(l * b / (1.0 - l), b, 0.0, 1.0);
  }

  /** Estimates are given out from thirty observations, or eight runs of each kind, on. */
  lemma WarmExactly(s: Estimator, t: Tally)
    ensures FittedParams(s).Some? <==> s.count >= 30
    ensures TallyParams(t).Some? <==> t.goodCount >= 8 && t.badCount >= 8
  {
  }

  lemma InverseBound(m: real)
    requires 1.0 <= m <= U32_MAX as real
    ensures EPSILON < 1.0 / m <= 1.0 && 1.0 / (1.0 / m) == m
  {
    var r := 1.0 / m;
    assert r * m == 1.0;
    CancelFactor(0.0, r, m);
    ProductSign(U32_MAX as real - m, r);
    ProductSign(m - 1.0, r);
    assert U32_MAX as real * r >= 1.0 >= r;
    CancelFactor(1.0 / r, m, r);
  }

  class GilbertElliottEstimator {
    var lossRate: real
    var meanBurstLen: real
    var nObs: nat
    var inLossRun: bool
    var currentRunLen: nat
    const alphas: Alphas

    ghost function Value(): Estimator
      reads this
    {
      Estimator(lossRate, meanBurstLen, nObs, inLossRun, currentRunLen)
    }

    constructor (alphas: Alphas)
      ensures Value() == START && this.alphas == alphas
    {
      lossRate, meanBurstLen, nObs, inLossRun, currentRunLen := 0.0, 1.0, 0, false, 0;
      this.alphas := alphas;
    }

    method ObserveOutcome(received: bool)
      modifies this
      ensures Value() == Observe(alphas, old(Value()), received)
    {
      nObs := nObs + 1;
      lossRate := Ema(alphas.loss, lossRate, if received then 0.0 else 1.0);
      if received {
        if inLossRun && currentRunLen > 0 {
          meanBurstLen := Ema(alphas.burst, meanBurstLen, currentRunLen as real);
        }
        inLossRun, currentRunLen := false, 0;
      } else {
        inLossRun, currentRunLen := true, Saturate(currentRunLen + 1);
      }
    }
  }

  // ----- the batch fitter -----

  datatype Tally = Tally(goodSum: nat, goodCount: nat, badSum: nat, badCount: nat)

  datatype RunPair = RunPair(good: nat, bad: nat)

  /** Totals over run pairs; zero-length runs do not count as runs. */
  function Tallied(t: Tally, runs: seq<RunPair>): Tally
    decreases |runs|
  {
    if runs == [] then t
    else
      var r := runs[|runs| - 1];
      var u := Tallied(t, runs[..|runs| - 1]);
      Tally(u.goodSum + r.good, u.goodCount + (if r.good > 0 then 1 else 0),
            u.badSum + r.bad, u.badCount + (if r.bad > 0 then 1 else 0))
  }

  function TallyParams(t: Tally): Option<Params> {
    if t.goodCount < MIN_RUNS_FOR_ESTIMATE || t.badCount < MIN_RUNS_FOR_ESTIMATE then None
    else
      var meanGood := t.goodSum as real / t.goodCount as real;
      var meanBad := t.badSum as real / t.badCount as real;
      Some(Params(1.0 / MaxReal(meanGood, 1.0), 1.0 / MaxReal(meanBad, 1.0), 0.0, 1.0))
  }

  ghost predicate U32Runs(runs: seq<RunPair>) {
    forall i :: 0 <= i < |runs| ==> runs[i].good <= U32_MAX && runs[i].bad <= U32_MAX
  }

  lemma {:induction false} TallyBounds(runs: seq<RunPair>)
    requires U32Runs(runs)
    ensures var t := Tallied(Tally(0, 0, 0, 0), runs);
            && t.goodCount <= t.goodSum <= U32_MAX * t.goodCount
            && t.badCount <= t.badSum <= U32_MAX * t.badCount
    decreases |runs|
  {
    if runs != [] {
      TallyBounds(runs[..|runs| - 1]);
    }
  }

  /** The packets the run pairs tell of: each good run received, then each bad run lost. */
  function Packets(runs: seq<RunPair>): seq<bool> {
    if runs == [] then []
    else
      var r := runs[|runs| - 1];
      Packets(runs[..|runs| - 1]) + seq(r.good, _ => true) + seq(r.bad, _ => false)
  }

  lemma {:induction false} CountAll(n: nat, outcome: bool)
    ensures multiset(seq(n, _ => outcome)) == multiset{}[outcome := n]
  {
    if n > 0 {
      CountAll(n - 1, outcome);
      assert seq(n, _ => outcome) == seq(n - 1, _ => outcome) + [outcome];
    }
  }

  /** The sums are the packets received and the packets lost; together all of them. */
  lemma {:induction false} TallyCountsPackets(runs: seq<RunPair>)
    ensures var t, packets := Tallied(Tally(0, 0, 0, 0), runs), Packets(runs);
            t.goodSum == multiset(packets)[true] && t.badSum == multiset(packets)[false]
    decreases |runs|
  {
    if runs != [] {
      TallyCountsPackets(runs[..|runs| - 1]);
      CountAll(runs[|runs| - 1].good, true);
      CountAll(runs[|runs| - 1].bad, false);
    }
  }

  lemma Divided(x: real, y: real, c: real)
    requires c > 0.0 && x * c == y
    ensures x == y / c
  {
    CancelFactor(x, y / c, c);
  }

  lemma MeanInverse(sum: nat, count: nat)
    requires 0 < count <= sum <= U32_MAX * count
    ensures var mean := sum as real / count as real;
            1.0 <= mean <= U32_MAX as real && 1.0 / mean == count as real / sum as real
  {
    MeanBetween(sum as real, count as real, U32_MAX as real);
    InverseOfQuotient(sum as real, count as real);
  }

  lemma MeanBetween(s: real, c: real, high: real)
    requires 0.0 < c <= s <= high * c
    ensures 1.0 <= s / c <= high
  {
    assert (s / c) * c == s;
    CancelFactor(1.0, s / c, c);
    CancelFactor(s / c, high, c);
  }

  lemma InverseOfQuotient(s: real, c: real)
    requires s > 0.0 && c > 0.0
    ensures s / c > 0.0 && 1.0 / (s / c) == c / s
  {
    var m, x := s / c, c / s;
    assert m * c == s && x * s == c;
    CancelFactor(m, 0.0, c);
    assert (x * m) * c == x * (m * c);
    CancelFactor(x * m, 1.0, c);
    Divided(x, 1.0, m);
  }

  lemma WeightedShare(gs: real, gc: real, bs: real, bc: real)
    requires gs > 0.0 && gc > 0.0 && bs > 0.0 && bc > 0.0
    ensures gc / gs + bc / bs > 0.0 && gc * bs + bc * gs > 0.0
    ensures (gc / gs) / (gc / gs + bc / bs) == gc * bs / (gc * bs + bc * gs)
  {
    var a, b, k := gc / gs, bc / bs, gs * bs;
    assert a * gs == gc && b * bs == bc;
    CancelFactor(a, 0.0, gs);
    CancelFactor(b, 0.0, bs);
    ProductSign(gs, bs);
    assert gc * bs == a * k && bc * gs == b * k;
    assert gc * bs + bc * gs == (a + b) * k;
    ProductSign(a + b, k);
    Cancel(a, a + b, k);
  }

  lemma Cancel(a: real, c: real, k: real)
    requires c > 0.0 && k > 0.0
    ensures c * k > 0.0 && (a * k) / (c * k) == a / c
  {
    ProductSign(c, k);
    var q := a / c;
    assert q * (c * k) == a * k by { assert q * (c * k) == (q * c) * k; }
    CancelFactor(q, (a * k) / (c * k), c * k);
  }

  /** Loss fitted from totals: weighted by the opposite run counts, plain share exactly when these agree. */
  ghost predicate FitsShare(t: Tally) {
    TallyParams(t).Some? &&
    var loss := MeanLossRate(TallyParams(t).value);
    var gs, gc, bs, bc := t.goodSum as real, t.goodCount as real, t.badSum as real, t.badCount as real;
    && gs + bs > 0.0 && gc * bs + bc * gs > 0.0
    && loss == gc * bs / (gc * bs + bc * gs)
    && (loss == bs / (gs + bs) <==> t.goodCount == t.badCount)
  }

  /**
   The batch fit's steady-state loss weights the totals by the opposite run counts; it is the plain
   share of lost packets exactly when as many good runs as bad runs were recorded.
   */
  lemma BatchLoss(runs: seq<RunPair>)
    requires U32Runs(runs) && TallyParams(Tallied(Tally(0, 0, 0, 0), runs)).Some?
    ensures FitsShare(Tallied(Tally(0, 0, 0, 0), runs))
  {
    hide FitsShare;
    TallyBounds(runs);
    TallyLoss(Tallied(Tally(0, 0, 0, 0), runs));
  }

  function Alternating(n: nat): seq<RunPair> { seq(n, _ => RunPair(1, 1)) }

  lemma {:induction false} AlternatingTally(n: nat)
    ensures Tallied(Tally(0, 0, 0, 0), Alternating(n)) == Tally(n, n, n, n)
  {
    if n > 0 {
      assert Alternating(n)[..n - 1] == Alternating(n - 1);
      AlternatingTally(n - 1);
    }
  }

  /** For example: eight losses among seventeen packets, ending in a good run, are fitted as a loss of one half. */
  lemma TrailingGoodRunMisleads()
    ensures var t := Tallied(Tally(0, 0, 0, 0), Alternating(8) + [RunPair(1, 0)]);
            && t == Tally(9, 9, 8, 8) && TallyParams(t).Some?
            && MeanLossRate(TallyParams(t).value) == 0.5 != 8.0 / 17.0
  {
    var runs := Alternating(8) + [RunPair(1, 0)];
    assert runs[..8] == Alternating(8);
    AlternatingTally(8);
  }

  ghost predicate Bounded(sum: nat, count: nat) {
    MIN_RUNS_FOR_ESTIMATE <= count <= sum <= U32_MAX * count
  }

  lemma TallyParamsAre(t: Tally)
    requires Bounded(t.goodSum, t.goodCount) && Bounded(t.badSum, t.badCount)
    ensures var a, b := t.goodCount as real / t.goodSum as real, t.badCount as real / t.badSum as real;
            TallyParams(t) == Some(Params(a, b, 0.0, 1.0)) && a > EPSILON && b > EPSILON
  {
    MeanInverse(t.goodSum, t.goodCount);
    MeanInverse(t.badSum, t.badCount);
    InverseBound(t.goodSum as real / t.goodCount as real);
    InverseBound(t.badSum as real / t.badCount as real);
  }

  lemma PlainLoss(a: real, b: real)
    requires a > EPSILON && b > EPSILON
    ensures MeanLossRate(Params(a, b, 0.0, 1.0)) == a / (a + b)
  {
  }

  lemma TallyLoss(t: Tally)
    requires Bounded(t.goodSum, t.goodCount) && Bounded(t.badSum, t.badCount)
    ensures FitsShare(t)
  {
    hide TallyParams, MeanLossRate;
    var gs, gc, bs, bc := t.goodSum as real, t.goodCount as real, t.badSum as real, t.badCount as real;
    TallyParamsAre(t);
    PlainLoss(gc / gs, bc / bs);
    WeightedShare(gs, gc, bs, bc);
    ShareExactly(gs, gc, bs, bc);
  }

  lemma ShareExactly(gs: real, gc: real, bs: real, bc: real)
    requires gs > 0.0 && gc > 0.0 && bs > 0.0 && bc > 0.0
    ensures gc * bs + bc * gs > 0.0 && (gc * bs / (gc * bs + bc * gs) == bs / (gs + bs) <==> gc == bc)
  {
    ProductSign(gc, bs);
    ProductSign(bc, gs);
    ProductSign(bs, gs);
    var d, e := gc * bs + bc * gs, gs + bs;
    var f, q := gc * bs / d, bs / e;
    assert f * d == gc * bs && q * e == bs;
    ProductSign(d, e);
    assert f * (d * e) == gc * bs * e by { assert f * (d * e) == (f * d) * e; }
    assert q * (d * e) == bs * d by { assert q * (d * e) == (q * e) * d; }
    assert gc * bs * e - bs * d == (gc - bc) * (bs * gs);
    CancelFactor(f, q, d * e);
    CancelFactor(gc, bc, bs * gs);
    assert (gc - bc) * (bs * gs) == gc * (bs * gs) - bc * (bs * gs);
  }

  class BurstStatsFitter {
    var goodRunSum: nat
    var goodRunCount: nat
    var badRunSum: nat
    var badRunCount: nat

    ghost function Value(): Tally
      reads this
    {
      Tally(goodRunSum, goodRunCount, badRunSum, badRunCount)
    }

    constructor ()
      ensures Value() == Tally(0, 0, 0, 0)
    {
      goodRunSum, goodRunCount, badRunSum, badRunCount := 0, 0, 0, 0;
    }

    method IngestAckRunLengths(runs: seq<RunPair>)
      modifies this
      ensures Value() == Tallied(old(Value()), runs)
    {
      for i := 0 to |runs|
        invariant Value() == Tallied(old(Value()), runs[..i])
      {
        assert runs[..i + 1][..i] == runs[..i];
        if runs[i].good > 0 {
          goodRunSum, goodRunCount := goodRunSum + runs[i].good, goodRunCount + 1;
        }
        if runs[i].bad > 0 {
          badRunSum, badRunCount := badRunSum + runs[i].bad, badRunCount + 1;
        }
      }
      assert runs[..|runs|] == runs;
    }
  }
}
