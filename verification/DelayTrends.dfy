/** What the delay-gradient estimator reports, told from the timestamps: directions, scale and threshold. */
module DelayTrends {
  import opened Prelude
  import opened DelayGradient

  // ----- the classification -----

  function Threshold(multiplier: real): real { if multiplier < 0.0 then 0.0 else 12.5 * multiplier }

  /** From the second acknowledgement on, usage is the slope against 12.5 µs/ms times the multiplier, either way. */
  lemma ClassifiedExactly(s: State, ack: Ack)
    requires s.prev.Some?
    ensures var t := Observe(s, ack.sendUs, ack.recvUs, ack.gammaMultiplier);
            && (t.usage == Overuse <==> t.slope > Threshold(ack.gammaMultiplier))
            && (t.usage == Underuse <==> t.slope < -Threshold(ack.gammaMultiplier))
  {
    hide Slope, Slide;
  }

  // ----- every run -----

  /** A timestamp that goes back counts as no time passed, on either side. */
  lemma GapsAreNeverNegative(prev: (nat, nat), sendUs: nat, recvUs: nat)
    ensures sendUs >= prev.0 && recvUs >= prev.1 ==>
              OwdDelta(prev, sendUs, recvUs) == (recvUs - prev.1) as real - (sendUs - prev.0) as real
    ensures sendUs >= prev.0 && recvUs < prev.1 ==> OwdDelta(prev, sendUs, recvUs) == -(sendUs - prev.0) as real
    ensures sendUs < prev.0 && recvUs >= prev.1 ==> OwdDelta(prev, sendUs, recvUs) == (recvUs - prev.1) as real
    ensures sendUs < prev.0 && recvUs < prev.1 ==> OwdDelta(prev, sendUs, recvUs) == 0.0
  {
  }

  /** The window holds at most twenty points, in the order of their send times, and ends with the newest. */
  ghost predicate Ordered(s: State) {
    && |s.window| <= 20 && RisingX(s.window)
    && (s.window != [] ==> s.window[|s.window| - 1] == Point(s.send, s.owd))
  }

  /** So it is after any acknowledgements at all, with timestamps in any order. */
  lemma {:induction false} RunsKeepOrder(s: State, acks: seq<Ack>)
    requires Ordered(s)
    ensures Ordered(Run(s, acks))
    decreases |acks|
  {
    if acks != [] {
      var t := Observe(s, acks[0].sendUs, acks[0].recvUs, acks[0].gammaMultiplier);
      assert Ordered(t) by {
        if s.prev.Some? {
          SlideKeepsTrend(s.window, Point(t.send, t.owd));
        }
      }
      hide Observe, Ordered;
      RunsKeepOrder(t, acks[1..]);
    }
  }

  // ----- directions, from the timestamps -----

  /** Send times never fall, and packets arrive at least as far apart as they were sent. */
  ghost predicate QueueGrows(acks: seq<Ack>) {
    forall i :: 0 <= i < |acks| - 1 ==> QueueGrowsBetween(acks[i], acks[i + 1])
  }

  predicate QueueGrowsBetween(a: Ack, b: Ack) { a.sendUs <= b.sendUs && b.recvUs - a.recvUs >= b.sendUs - a.sendUs }

  /** Receive times never fall, and packets arrive at most as far apart as they were sent. */
  ghost predicate QueueDrains(acks: seq<Ack>) {
    forall i :: 0 <= i < |acks| - 1 ==> QueueDrainsBetween(acks[i], acks[i + 1])
  }

  predicate QueueDrainsBetween(a: Ack, b: Ack) { a.recvUs <= b.recvUs && b.recvUs - a.recvUs <= b.sendUs - a.sendUs }

  lemma {:induction false} GapsAreOneSided(first: Ack, acks: seq<Ack>, rising: bool)
    requires if rising then QueueGrows([first] + acks) else QueueDrains([first] + acks)
    ensures OneSided(Some((first.sendUs, first.recvUs)), acks, rising)
    decreases |acks|
  {
    if acks != [] {
      var all, rest := [first] + acks, [acks[0]] + acks[1..];
      assert all[0] == first && all[1] == acks[0];
      assert if rising then QueueGrowsBetween(all[0], all[1]) else QueueDrainsBetween(all[0], all[1]);
      assert forall i :: 0 <= i < |rest| ==> rest[i] == all[i + 1];
      GapsAreOneSided(acks[0], acks[1..], rising);
    }
  }

  /** A queue that never drains is never reported as underuse; one that never grows, never as overuse. */
  lemma QueueDirection(acks: seq<Ack>)
    ensures QueueGrows(acks) ==> Run(START, acks).usage != Underuse && Run(START, acks).slope >= 0.0
    ensures QueueDrains(acks) ==> Run(START, acks).usage != Overuse && Run(START, acks).slope <= 0.0
  {
    if acks != [] {
      assert acks == [acks[0]] + acks[1..];
      if QueueGrows(acks) {
        GapsAreOneSided(acks[0], acks[1..], true);
        OneSidedRunsClassify(acks, true);
      }
      if QueueDrains(acks) {
        GapsAreOneSided(acks[0], acks[1..], false);
        OneSidedRunsClassify(acks, false);
      }
    }
  }

  // ----- the slope lies between the steepnesses of its window -----

  /** Between any two points of the window delay grows by at least `c` per unit of send time. */
  ghost predicate Steeper(w: seq<Point>, c: real) {
    forall i, j :: 0 <= i <= j < |w| ==> w[j].y - w[i].y >= c * (w[j].x - w[i].x)
  }

  ghost predicate Flatter(w: seq<Point>, c: real) {
    forall i, j :: 0 <= i <= j < |w| ==> w[j].y - w[i].y <= c * (w[j].x - w[i].x)
  }

  /** A point, and a window, with a trend of `c` taken out. */
  function Shear(p: Point, c: real): Point { Point(p.x, p.y - c * p.x) }

  function Sheared(w: seq<Point>, c: real): (r: seq<Point>)
    ensures |r| == |w| && forall i :: 0 <= i < |w| ==> r[i] == Shear(w[i], c)
  {
    if w == [] then [] else [Shear(w[0], c)] + Sheared(w[1..], c)
  }

  lemma {:induction false} ShearedSums(w: seq<Point>, c: real)
    ensures SumX(Sheared(w, c)) == SumX(w) && SumY(Sheared(w, c)) == SumY(w) - c * SumX(w)
    decreases |w|
  {
    if w != [] {
      assert Sheared(w, c)[1..] == Sheared(w[1..], c);
      ShearedSums(w[1..], c);
      AddDistributes(c, w[0].x, SumX(w[1..]));
    }
  }

  /** A point's share of the two sums of deviations. */
  function DevXY(p: Point, mx: real, my: real): real { (p.x - mx) * (p.y - my) }

  function DevXX(p: Point, mx: real): real { (p.x - mx) * (p.x - mx) }

  lemma ShearProduct(p: Point, c: real, mx: real, my: real, sheared: real)
    requires sheared == my - c * mx
    ensures DevXY(Shear(p, c), mx, sheared) == DevXY(p, mx, my) - c * DevXX(p, mx)
  {
    var u, v := p.x - mx, p.y - my;
    AddDistributes(c, p.x, -mx);
    assert Shear(p, c).y - sheared == v - c * u;
    assert u * (v - c * u) == u * v - c * (u * u);
  }

  lemma SumsUnfold(w: seq<Point>, mx: real, my: real)
    ensures w == [] ==> SumXY(w, mx, my) == 0.0 == SumXX(w, mx)
    ensures w != [] ==> SumXY(w, mx, my) == DevXY(w[0], mx, my) + SumXY(w[1..], mx, my)
    ensures w != [] ==> SumXX(w, mx) == DevXX(w[0], mx) + SumXX(w[1..], mx)
  {
  }

  lemma {:induction false} ShearedDeviations(w: seq<Point>, c: real, mx: real, my: real, sheared: real)
    requires sheared == my - c * mx
    ensures SumXY(Sheared(w, c), mx, sheared) == SumXY(w, mx, my) - c * SumXX(w, mx)
    decreases |w|
  {
    hide Shear, DevXY, DevXX, SumXY, SumXX;
    SumsUnfold(w, mx, my);
    SumsUnfold(Sheared(w, c), mx, sheared);
    if w != [] {
      assert Sheared(w, c)[1..] == Sheared(w[1..], c);
      ShearedDeviations(w[1..], c, mx, my, sheared);
      ShearProduct(w[0], c, mx, my, sheared);
      AddDistributes(c, DevXX(w[0], mx), SumXX(w[1..], mx));
    }
  }

  lemma ShearedMeans(w: seq<Point>, c: real)
    requires w != []
    ensures MeanX(Sheared(w, c)) == MeanX(w) && MeanY(Sheared(w, c)) == MeanY(w) - c * MeanX(w)
  {
    hide SumX, SumY, Shear, Sheared;
    ShearedSums(w, c);
    QuotientMinus(SumY(w), c, SumX(w), |w| as real);
  }

  lemma QuotientMinus(a: real, c: real, b: real, n: real)
    requires n > 0.0
    ensures (a - c * b) / n == a / n - c * (b / n)
  {
    var q, r := a / n, b / n;
    assert q * n == a && r * n == b;
    assert (q - c * r) * n == a - c * b;
    CancelFactor((a - c * b) / n, q - c * r, n);
  }

  lemma ShearedProducts(w: seq<Point>, c: real)
    requires w != []
    ensures SumXY(Sheared(w, c), MeanX(Sheared(w, c)), MeanY(Sheared(w, c)))
         == SumXY(w, MeanX(w), MeanY(w)) - c * SumXX(w, MeanX(w))
  {
    hide SumXY, SumXX, MeanX, MeanY;
    ShearedMeans(w, c);
    ShearedDeviations(w, c, MeanX(w), MeanY(w), MeanY(Sheared(w, c)));
  }

  lemma ShearedRises(w: seq<Point>, c: real)
    ensures Steeper(w, c) ==> RisingY(Sheared(w, c))
    ensures Flatter(w, c) ==> FallingY(Sheared(w, c))
    ensures RisingX(w) ==> RisingX(Sheared(w, c))
  {
    forall i, j | 0 <= i <= j < |w|
      ensures Shear(w[j], c).y - Shear(w[i], c).y == w[j].y - w[i].y - c * (w[j].x - w[i].x)
    {
      AddDistributes(c, w[j].x, -w[i].x);
    }
  }

  lemma QuotientBound(p: real, q: real, c: real)
    requires q > 0.0
    ensures p - c * q >= 0.0 ==> p / q >= c
    ensures p - c * q <= 0.0 ==> p / q <= c
  {
    assert (p / q) * q == p;
    CancelFactor(c, p / q, q);
    CancelFactor(p / q, c, q);
  }

  /** The least-squares slope is no flatter than the flattest stretch of its window and no steeper than the steepest. */
  lemma SlopeBetween(w: seq<Point>, c: real)
    requires |w| >= MIN_WINDOW_FOR_SLOPE && RisingX(w) && SumXX(w, MeanX(w)) >= MIN_VARIANCE
    ensures Steeper(w, c) ==> Slope(w) >= c
    ensures Flatter(w, c) ==> Slope(w) <= c
  {
    hide SumXY, SumXX, MeanX, MeanY, Sheared, Shear, RisingX, RisingY, FallingY, Steeper, Flatter;
    ShearedRises(w, c);
    ShearedProducts(w, c);
    QuotientBound(SumXY(w, MeanX(w), MeanY(w)), SumXX(w, MeanX(w)), c);
    if Steeper(w, c) {
      RisingTogether(Sheared(w, c));
    }
    if Flatter(w, c) {
      FallingAgainst(Sheared(w, c));
    }
  }

  /** Half the square of the distance. */
  function HalfSquare(a: real, b: real): real { (b - a) * (b - a) / 2.0 }

  lemma PairSpread(p: Point, q: Point, mx: real)
    ensures DevXX(p, mx) + DevXX(q, mx) >= HalfSquare(p.x, q.x) && DevXX(p, mx) >= 0.0
  {
    var a, b := p.x - mx, q.x - mx;
    SquareIsPositive(a);
    SquareIsPositive(a + b);
    assert q.x - p.x == b - a;
    assert (b - a) * (b - a) == a * a - 2.0 * (a * b) + b * b;
    assert (a + b) * (a + b) == a * a + 2.0 * (a * b) + b * b;
  }

  lemma SquareIsPositive(a: real)
    ensures a * a >= 0.0
  {
  }

  lemma {:induction false} SumXXHas(w: seq<Point>, mx: real, j: nat)
    ensures SumXX(w, mx) >= if j < |w| then DevXX(w[j], mx) else 0.0
    decreases |w|
  {
    hide SumXX, DevXX;
    SumsUnfold(w, mx, 0.0);
    if w != [] {
      PairSpread(w[0], w[0], mx);
      SumXXHas(w[1..], mx, if j > 0 then j - 1 else |w|);
    }
  }

  /** Two points of the window spread it by at least half the square of their distance. */
  lemma {:induction false} Spread(w: seq<Point>, mx: real, i: nat, j: nat)
    requires i < j < |w|
    ensures SumXX(w, mx) >= HalfSquare(w[i].x, w[j].x)
    decreases |w|
  {
    hide SumXX, DevXX, HalfSquare;
    SumsUnfold(w, mx, 0.0);
    PairSpread(w[0], w[j], mx);
    if i > 0 {
      Spread(w[1..], mx, i - 1, j - 1);
    } else {
      SumXXHas(w[1..], mx, j - 1);
    }
  }

  // ----- when there is a slope at all -----

  /** A number of whole microseconds, in milliseconds. */
  function Ms(us: nat): real { us as real / 1000.0 }

  ghost predicate Whole(ms: real) { exists us: nat :: ms == Ms(us) }

  /** Every send time in the window is one, and so is the accumulated one. */
  ghost predicate WholeTimes(s: State) { Whole(s.send) && forall i :: 0 <= i < |s.window| ==> Whole(s.window[i].x) }

  lemma WholePlus(ms: real, us: nat)
    requires Whole(ms)
    ensures Whole(ms + us as real / 1000.0)
  {
    var k: nat :| ms == Ms(k);
    assert ms + us as real / 1000.0 == Ms(k + us);
  }

  lemma {:induction false} RunsKeepWholeTimes(s: State, acks: seq<Ack>)
    requires WholeTimes(s)
    ensures WholeTimes(Run(s, acks))
    decreases |acks|
  {
    if acks != [] {
      var t := Observe(s, acks[0].sendUs, acks[0].recvUs, acks[0].gammaMultiplier);
      assert WholeTimes(t) by {
        hide Whole;
        if s.prev.Some? {
          WholePlus(s.send, SaturatingSub(acks[0].sendUs, s.prev.value.0));
          SlideIs(s.window, Point(t.send, t.owd));
        }
      }
      hide Observe, WholeTimes;
      RunsKeepWholeTimes(t, acks[1..]);
    }
  }

  lemma WholeApart(a: real, b: real)
    requires Whole(a) && Whole(b) && a != b
    ensures HalfSquare(a, b) >= 0.0000000001
  {
    var i: nat :| a == Ms(i);
    var j: nat :| b == Ms(j);
    var gap := if i < j then b - a else a - b;
    assert gap >= 0.001;
    ProductSign(gap - 0.001, gap + 0.001);
    assert (gap - 0.001) * (gap + 0.001) == gap * gap - 0.000001;
    assert (b - a) * (b - a) == gap * gap;
  }

  lemma {:induction false} SameTimeSums(w: seq<Point>, t: real)
    requires forall i :: 0 <= i < |w| ==> w[i].x == t
    ensures SumX(w) == t * |w| as real && SumXX(w, t) == 0.0
    decreases |w|
  {
    if w != [] {
      assert forall i :: 0 <= i < |w[1..]| ==> w[1..][i] == w[i + 1];
      SameTimeSums(w[1..], t);
      AddDistributes(t, 1.0, |w[1..]| as real);
    }
  }

  lemma SameTimeSpread(w: seq<Point>, t: real)
    requires w != [] && forall i :: 0 <= i < |w| ==> w[i].x == t
    ensures SumXX(w, MeanX(w)) == 0.0
  {
    hide SumX, SumXX;
    SameTimeSums(w, t);
    CancelFactor(MeanX(w), t, |w| as real);
  }

  /**
   The guard against a degenerate window is exact: after any run the send times count as spread out, and the slope is
   the least-squares one, exactly when two of them differ.
   */
  lemma SpreadExactly(acks: seq<Ack>)
    ensures var w := Run(START, acks).window;
            |w| >= 2 ==>
              (SumXX(w, MeanX(w)) >= MIN_VARIANCE <==> exists i, j :: 0 <= i < j < |w| && w[i].x != w[j].x)
  {
    assert WholeTimes(START) by {
      assert START.send == Ms(0);
    }
    RunsKeepWholeTimes(START, acks);
    var w := Run(START, acks).window;
    hide Run, Whole, SumXX, MeanX, HalfSquare;
    if |w| >= 2 {
      if i, j :| 0 <= i < j < |w| && w[i].x != w[j].x {
        Spread(w, MeanX(w), i, j);
        WholeApart(w[i].x, w[j].x);
      } else {
        assert forall i :: 0 <= i < |w| ==> w[i].x == w[0].x;
        SameTimeSpread(w, w[0].x);
      }
    }
  }

  // ----- a constant drift -----

  /** Packets sent every `d` µs and received every `e` µs. */
  function Drift(d: nat, e: nat, multiplier: real, n: nat): seq<Ack> {
    seq(n, i requires 0 <= i => Ack(Times(i, d), Times(i, e), multiplier))
  }

  function Times(i: nat, d: nat): nat { i * d }

  lemma TimesNext(i: nat, d: nat)
    ensures Times(i + 1, d) == Times(i, d) + d
  {
  }

  /** The smoothed delay change after `k` changes of `delta`: what is missing fades by nine tenths each time. */
  function Settled(delta: real, k: nat): real { delta * (1.0 - Power(0.9, k)) }

  lemma SmoothSettles(delta: real, k: nat)
    ensures Smooth(Settled(delta, k), delta) == Settled(delta, k + 1)
  {
    var p := Power(0.9, k);
    assert Power(0.9, k + 1) == 0.9 * p;
    assert 0.9 * (delta * (1.0 - p)) + 0.1 * delta == delta * (1.0 - 0.9 * p);
  }

  lemma {:induction false} SettledRises(delta: real, i: nat, j: nat)
    requires delta >= 0.0 && i <= j
    ensures 0.0 <= Settled(delta, i) <= Settled(delta, j) <= delta
    decreases j
  {
    PowerFades(i, j);
    ProductSign(delta, 1.0 - Power(0.9, i));
    ProductSign(delta, Power(0.9, i) - Power(0.9, j));
    ProductSign(delta, Power(0.9, j));
    assert Settled(delta, j) - Settled(delta, i) == delta * (Power(0.9, i) - Power(0.9, j));
    assert delta - Settled(delta, j) == delta * Power(0.9, j);
  }

  lemma {:induction false} PowerFades(i: nat, j: nat)
    requires i <= j
    ensures 0.0 < Power(0.9, j) <= Power(0.9, i) <= 1.0
    decreases j
  {
    if j > i {
      PowerFades(i, j - 1);
    } else if j > 0 {
      PowerFades(i - 1, j - 1);
    }
  }

  /** The accumulated delay after `k` changes. */
  function Level(delta: real, k: nat): real { if k == 0 then 0.0 else Level(delta, k - 1) + Settled(delta, k) }

  /** Milliseconds between two sends. */
  function Gap(d: nat): real { d as real / 1000.0 }

  function SentMs(d: nat, k: nat): real { if k == 0 then 0.0 else SentMs(d, k - 1) + Gap(d) }

  function DriftPoint(d: nat, delta: real, k: nat): Point { Point(SentMs(d, k), Level(delta, k)) }

  /** The first point still in the window: it holds the last twenty. */
  function Oldest(n: nat): nat { if n <= 20 then 1 else n - 19 }

  function DriftWindow(d: nat, delta: real, n: nat): (w: seq<Point>)
    ensures |w| == n + 1 - Oldest(n)
    ensures forall i :: 0 <= i < |w| ==> w[i] == DriftPoint(d, delta, Oldest(n) + i)
  {
    seq(n + 1 - Oldest(n), i requires 0 <= i => DriftPoint(d, delta, Oldest(n) + i))
  }

  lemma WindowSlides(d: nat, delta: real, n: nat)
    ensures DriftWindow(d, delta, n + 1) == Slide(DriftWindow(d, delta, n), DriftPoint(d, delta, n + 1))
  {
    hide DriftPoint;
  }

  lemma {:induction false} RunSnoc(s: State, acks: seq<Ack>, ack: Ack)
    ensures Run(s, acks + [ack]) == Observe(Run(s, acks), ack.sendUs, ack.recvUs, ack.gammaMultiplier)
    decreases |acks|
  {
    hide Observe;
    if acks == [] {
      assert acks + [ack] == [ack] && [ack][1..] == [];
    } else {
      assert (acks + [ack])[1..] == acks[1..] + [ack];
      RunSnoc(Observe(s, acks[0].sendUs, acks[0].recvUs, acks[0].gammaMultiplier), acks[1..], ack);
    }
  }

  lemma DriftStep(d: nat, e: nat, n: nat)
    ensures OwdDelta((Times(n, d), Times(n, e)), Times(n + 1, d), Times(n + 1, e)) == e as real - d as real
    ensures SaturatingSub(Times(n + 1, d), Times(n, d)) == d
  {
    TimesNext(n, d);
    TimesNext(n, e);
  }

  ghost predicate Drifting(s: State, d: nat, e: nat, multiplier: real, n: nat) {
    var delta := e as real - d as real;
    && s.window == DriftWindow(d, delta, n) && s.smoothed == Settled(delta, n)
    && s.owd == Level(delta, n) && s.send == SentMs(d, n) && s.prev == Some((Times(n, d), Times(n, e)))
    && (n > 0 ==> s.slope == Slope(s.window) && s.usage == Classify(s.slope, multiplier))
  }

  lemma DriftStarts(d: nat, e: nat, multiplier: real)
    ensures Drifting(Observe(START, 0, 0, multiplier), d, e, multiplier, 0)
  {
    var delta := e as real - d as real;
    assert DriftWindow(d, delta, 0) == [];
    assert Settled(delta, 0) == delta * 0.0;
  }

  lemma DriftGoesOn(s: State, d: nat, e: nat, multiplier: real, n: nat)
    requires Drifting(s, d, e, multiplier, n)
    ensures Drifting(Observe(s, Times(n + 1, d), Times(n + 1, e), multiplier), d, e, multiplier, n + 1)
  {
    hide Slope, Slide, Smooth, Settled, DriftWindow, Times, OwdDelta, Classify, SaturatingSub;
    var delta := e as real - d as real;
    DriftStep(d, e, n);
    SmoothSettles(delta, n);
    WindowSlides(d, delta, n);
  }

  lemma DriftSnoc(d: nat, e: nat, multiplier: real, n: nat)
    ensures Drift(d, e, multiplier, n + 1) == Drift(d, e, multiplier, n) + [Ack(Times(n, d), Times(n, e), multiplier)]
  {
    hide Times;
  }

  /** The estimator's whole state along a constant drift. */
  lemma {:induction false} DriftStates(d: nat, e: nat, multiplier: real, n: nat)
    ensures Drifting(Run(START, Drift(d, e, multiplier, n + 1)), d, e, multiplier, n)
    decreases n
  {
    hide Drifting, Observe;
    DriftSnoc(d, e, multiplier, n);
    RunSnoc(START, Drift(d, e, multiplier, n), Ack(Times(n, d), Times(n, e), multiplier));
    if n == 0 {
      DriftStarts(d, e, multiplier);
      assert Drift(d, e, multiplier, 0) == [] && Run(START, []) == START;
    } else {
      DriftStates(d, e, multiplier, n - 1);
      DriftGoesOn(Run(START, Drift(d, e, multiplier, n)), d, e, multiplier, n - 1);
    }
  }

  lemma {:induction false} DriftSteepness(d: nat, delta: real, i: nat, j: nat, low: nat, high: nat)
    requires delta >= 0.0 && d > 0 && low <= i + 1 && i <= j <= high
    ensures SteepBetween(SentMs(d, j) - SentMs(d, i), Level(delta, j) - Level(delta, i), Gap(d),
                         Settled(delta, low), Settled(delta, high))
    decreases j
  {
    hide Settled, Gap, SteepBetween;
    var lo, hi, g := Settled(delta, low), Settled(delta, high), Gap(d);
    if i == j {
      NoGap(lo, hi, g);
    } else {
      DriftSteepness(d, delta, i, j - 1, low, high);
      SettledRises(delta, low, j);
      SettledRises(delta, j, high);
      RateTimesGap(0.0, d);
      OneMoreGap(SentMs(d, j - 1) - SentMs(d, i), Level(delta, j - 1) - Level(delta, i), g, lo, hi, Settled(delta, j));
    }
  }

  /** A stretch of `dx` ms over which delay grows by between `lo` and `hi` per gap of `g` ms. */
  ghost predicate SteepBetween(dx: real, dy: real, g: real, lo: real, hi: real) {
    dx >= 0.0 && dy * g >= lo * dx && dy * g <= hi * dx
  }

  lemma NoGap(lo: real, hi: real, g: real)
    ensures SteepBetween(0.0, 0.0, g, lo, hi)
  {
  }

  lemma OneMoreGap(dx: real, dy: real, g: real, lo: real, hi: real, step: real)
    requires SteepBetween(dx, dy, g, lo, hi) && g > 0.0 && lo <= step <= hi
    ensures SteepBetween(dx + g, dy + step, g, lo, hi)
  {
    ProductSign(step - lo, g);
    ProductSign(hi - step, g);
    assert (step - lo) * g == step * g - lo * g && (hi - step) * g == hi * g - step * g;
    assert (dy + step) * g == dy * g + step * g;
    AddDistributes(lo, dx, g);
    AddDistributes(hi, dx, g);
  }

  /** The steepness that a delay change of `settled` µs per gap amounts to, in µs per ms. */
  function Rate(settled: real, d: nat): real
    requires d > 0
  {
    1000.0 * settled / d as real
  }

  lemma RateTimesGap(settled: real, d: nat)
    requires d > 0
    ensures Rate(settled, d) * Gap(d) == settled && Gap(d) >= 0.001
  {
    var x := d as real;
    assert Rate(settled, d) * x == 1000.0 * settled;
    assert Rate(settled, d) * (x / 1000.0) == (Rate(settled, d) * x) / 1000.0;
  }

  lemma PerGap(dx: real, dy: real, g: real, lo: real, hi: real, low: real, high: real)
    requires SteepBetween(dx, dy, g, lo, hi) && g > 0.0 && low * g == lo && high * g == hi
    ensures dx >= 0.0 && dy >= low * dx && dy <= high * dx
  {
    assert (low * g) * dx == (low * dx) * g;
    assert (high * g) * dx == (high * dx) * g;
    CancelFactor(low * dx, dy, g);
    CancelFactor(dy, high * dx, g);
  }

  lemma DriftPair(d: nat, delta: real, i: nat, j: nat, lo: nat, hi: nat)
    requires d > 0 && delta >= 0.0 && lo <= i <= j <= hi
    ensures var p, q := DriftPoint(d, delta, i), DriftPoint(d, delta, j);
            && q.x - p.x >= 0.0
            && q.y - p.y >= Rate(Settled(delta, lo + 1), d) * (q.x - p.x)
            && q.y - p.y <= Rate(Settled(delta, hi), d) * (q.x - p.x)
  {
    hide Settled, Rate, Gap, SentMs, Level, SteepBetween;
    RateTimesGap(Settled(delta, lo + 1), d);
    RateTimesGap(Settled(delta, hi), d);
    DriftSteepness(d, delta, i, j, lo + 1, hi);
    PerGap(SentMs(d, j) - SentMs(d, i), Level(delta, j) - Level(delta, i), Gap(d), Settled(delta, lo + 1),
           Settled(delta, hi), Rate(Settled(delta, lo + 1), d), Rate(Settled(delta, hi), d));
  }

  lemma DriftWindowSteepness(d: nat, delta: real, n: nat)
    requires d > 0 && delta >= 0.0
    ensures var w := DriftWindow(d, delta, n);
            && RisingX(w) && Steeper(w, Rate(Settled(delta, Oldest(n) + 1), d))
            && Flatter(w, Rate(Settled(delta, n), d))
  {
    hide Settled, Rate, DriftPoint, DriftWindow;
    var w, lo := DriftWindow(d, delta, n), Oldest(n);
    forall i, j | 0 <= i <= j < |w|
      ensures w[i].x <= w[j].x && w[j].y - w[i].y >= Rate(Settled(delta, lo + 1), d) * (w[j].x - w[i].x)
      ensures w[j].y - w[i].y <= Rate(Settled(delta, n), d) * (w[j].x - w[i].x)
    {
      DriftPair(d, delta, lo + i, lo + j, lo, n);
    }
  }

  /** Along a rising drift the slope is at least the oldest change in the window and at most the newest, per gap. */
  lemma DriftSlope(d: nat, delta: real, n: nat)
    requires d > 0 && delta >= 0.0 && n >= 2
    ensures Rate(Settled(delta, Oldest(n) + 1), d) <= Slope(DriftWindow(d, delta, n)) <= Rate(Settled(delta, n), d)
  {
    hide Settled, Rate, Slope, SumXX, MeanX, DriftPoint, DriftWindow, Steeper, Flatter, RisingX;
    DriftWindowSteepness(d, delta, n);
    DriftSpread(d, delta, n);
    SlopeBetween(DriftWindow(d, delta, n), Rate(Settled(delta, Oldest(n) + 1), d));
    SlopeBetween(DriftWindow(d, delta, n), Rate(Settled(delta, n), d));
  }

  lemma DriftSpread(d: nat, delta: real, n: nat)
    requires d > 0 && n >= 2
    ensures SumXX(DriftWindow(d, delta, n), MeanX(DriftWindow(d, delta, n))) >= MIN_VARIANCE
  {
    var w := DriftWindow(d, delta, n);
    SentIsWhole(d, Oldest(n));
    SentIsWhole(d, Oldest(n) + 1);
    assert w[0] == DriftPoint(d, delta, Oldest(n)) && w[1] == DriftPoint(d, delta, Oldest(n) + 1);
    hide SumXX, MeanX, DriftWindow, HalfSquare, Whole;
    Spread(w, MeanX(w), 0, 1);
    WholeApart(w[0].x, w[1].x);
  }

  lemma {:induction false} SentIsWhole(d: nat, k: nat)
    ensures Whole(SentMs(d, k))
  {
    if k == 0 {
      assert 0.0 == Ms(0);
    } else {
      SentIsWhole(d, k - 1);
      WholePlus(SentMs(d, k - 1), d);
    }
  }

  // ----- a drift the other way -----

  lemma {:induction false} MirrorSpread(w: seq<Point>, mx: real)
    ensures SumXX(Mirror(w), mx) == SumXX(w, mx)
    decreases |w|
  {
    if w != [] {
      assert Mirror(w)[1..] == Mirror(w[1..]);
      MirrorSpread(w[1..], mx);
    }
  }

  lemma MirrorSlope(w: seq<Point>)
    requires w != []
    ensures Slope(Mirror(w)) == -Slope(w)
  {
    var mx, my := MeanX(w), MeanY(w);
    hide SumXY, SumXX, SumX, SumY;
    MirrorSums(w, mx, my);
    MirrorSpread(w, mx);
    NegatedQuotient(SumY(w), |w| as real);
    assert MeanX(Mirror(w)) == mx && MeanY(Mirror(w)) == -my;
    hide MeanX, MeanY;
    if |w| >= MIN_WINDOW_FOR_SLOPE && SumXX(w, mx) >= MIN_VARIANCE {
      NegatedQuotient(SumXY(w, mx, my), SumXX(w, mx));
    }
  }

  lemma {:induction false} LevelMirrored(delta: real, k: nat)
    ensures Level(-delta, k) == -Level(delta, k)
  {
    if k > 0 {
      LevelMirrored(delta, k - 1);
      assert Settled(-delta, k) == -Settled(delta, k);
    }
  }

  lemma DriftMirrored(d: nat, delta: real, n: nat)
    ensures DriftWindow(d, -delta, n) == Mirror(DriftWindow(d, delta, n))
  {
    var v, w := DriftWindow(d, -delta, n), DriftWindow(d, delta, n);
    forall i | 0 <= i < |w| ensures v[i] == Mirror(w)[i] {
      LevelMirrored(delta, Oldest(n) + i);
      assert v[i] == DriftPoint(d, -delta, Oldest(n) + i) && w[i] == DriftPoint(d, delta, Oldest(n) + i);
    }
  }

  /**
   When overuse and underuse are reported: packets sent every `d` and received every `e` microseconds are overuse, or
   underuse if they arrive faster than they were sent, as soon as the oldest smoothed change in the window exceeds
   12.5 µs per ms times the multiplier, and not before the newest does.
   */
  lemma ConstantDrift(d: nat, e: nat, multiplier: real, n: nat)
    requires d > 0 && n >= 2
    ensures var s := Run(START, Drift(d, e, multiplier, n + 1));
            var change := if e >= d then (e - d) as real else (d - e) as real;
            && (Rate(Settled(change, Oldest(n) + 1), d) > Threshold(multiplier) && e >= d ==> s.usage == Overuse)
            && (Rate(Settled(change, Oldest(n) + 1), d) > Threshold(multiplier) && e <= d ==> s.usage == Underuse)
            && (Rate(Settled(change, n), d) <= Threshold(multiplier) ==> s.usage == Normal)
  {
    var delta := e as real - d as real;
    var change := if e >= d then (e - d) as real else (d - e) as real;
    DriftStates(d, e, multiplier, n);
    DriftSlope(d, change, n);
    RateSign(Settled(change, Oldest(n) + 1), d);
    SettledRises(change, Oldest(n) + 1, n);
    if e < d {
      DriftMirrored(d, change, n);
      MirrorSlope(DriftWindow(d, change, n));
      assert delta == -change;
    } else {
      assert delta == change;
    }
    if e == d {
      assert Settled(0.0, Oldest(n) + 1) == 0.0;
    }
    hide Slope, Settled, DriftWindow, Run, Drift, Oldest, Mirror;
  }

  lemma RateSign(settled: real, d: nat)
    requires d > 0
    ensures settled >= 0.0 ==> Rate(settled, d) >= 0.0
  {
  }

  /** A case: three packets sent 20 ms and received 30 ms apart have a trend of 95 µs/ms, which is overuse. */
  lemma GrowingQueueIsOveruse()
    ensures var s := Run(START, Drift(20000, 30000, 1.0, 3)); s.slope == 95.0 && s.usage == Overuse
  {
    DriftStates(20000, 30000, 1.0, 2);
    var w := DriftWindow(20000, 10000.0, 2);
    assert Power(0.9, 1) == 0.9 && Power(0.9, 2) == 0.81;
    assert Settled(10000.0, 1) == 1000.0 && Settled(10000.0, 2) == 1900.0;
    assert Level(10000.0, 1) == 1000.0 && Level(10000.0, 2) == 2900.0;
    assert SentMs(20000, 1) == 20.0 && SentMs(20000, 2) == 40.0;
    assert w[0] == DriftPoint(20000, 10000.0, 1) && w[1] == DriftPoint(20000, 10000.0, 2);
    assert w == [Point(20.0, 1000.0), Point(40.0, 2900.0)];
    TwoPoints(w, 30.0, 1950.0);
  }

  lemma TwoPoints(w: seq<Point>, mx: real, my: real)
    requires |w| == 2
    ensures SumX(w) == w[0].x + w[1].x && SumY(w) == w[0].y + w[1].y
    ensures SumXY(w, mx, my) == (w[0].x - mx) * (w[0].y - my) + (w[1].x - mx) * (w[1].y - my)
    ensures SumXX(w, mx) == (w[0].x - mx) * (w[0].x - mx) + (w[1].x - mx) * (w[1].x - mx)
  {
    var v := w[1..];
    assert v[0] == w[1] && v[1..] == [];
    assert SumXY([], mx, my) == 0.0 == SumXX([], mx) == SumX([]) == SumY([]);
  }
}
