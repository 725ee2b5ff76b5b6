/**
 The delay-gradient estimator: a least-squares trendline over a sliding window of accumulated one-way
 delay, classified against a threshold.  `f64` is modelled as `real`.
 */
module DelayGradient {
  import opened Prelude

  const TRENDLINE_WINDOW_SIZE: nat := 20
  const TRENDLINE_SMOOTHING_ALPHA: real := 0.9
  const OVERUSE_THRESHOLD_GAMMA_US_PER_MS: real := 12.5
  const MIN_WINDOW_FOR_SLOPE: nat := 2
  const MIN_VARIANCE: real := 0.0000000001

  datatype Usage = Underuse | Normal | Overuse

  /** One window entry: accumulated send time in ms and accumulated one-way delay in µs. */
  datatype Point = Point(x: real, y: real)

  // ----- sums -----

  function SumX(w: seq<Point>): real { if w == [] then 0.0 else w[0].x + SumX(w[1..]) }

  function SumY(w: seq<Point>): real { if w == [] then 0.0 else w[0].y + SumY(w[1..]) }

  /** Sum of products of deviations from a reference point. */
  function SumXY(w: seq<Point>, mx: real, my: real): real {
    if w == [] then 0.0 else (w[0].x - mx) * (w[0].y - my) + SumXY(w[1..], mx, my)
  }

  function SumXX(w: seq<Point>, mx: real): real {
    if w == [] then 0.0 else (w[0].x - mx) * (w[0].x - mx) + SumXX(w[1..], mx)
  }

  function MeanX(w: seq<Point>): real
    requires w != []
  {
    SumX(w) / |w| as real
  }

  function MeanY(w: seq<Point>): real
    requires w != []
  {
    SumY(w) / |w| as real
  }

  function Slope(w: seq<Point>): real {
    if |w| < MIN_WINDOW_FOR_SLOPE then 0.0
    else
      var denominator := SumXX(w, MeanX(w));
      if denominator < MIN_VARIANCE then 0.0 else SumXY(w, MeanX(w), MeanY(w)) / denominator
  }

  /** Total deviations from a reference, and the number of points, as sums. */
  function DevX(w: seq<Point>, mx: real): real { if w == [] then 0.0 else (w[0].x - mx) + DevX(w[1..], mx) }

  function DevY(w: seq<Point>, my: real): real { if w == [] then 0.0 else (w[0].y - my) + DevY(w[1..], my) }

  function Count(w: seq<Point>): real { if w == [] then 0.0 else 1.0 + Count(w[1..]) }

  lemma {:induction false} Deviations(w: seq<Point>, mx: real, my: real)
    ensures Count(w) == |w| as real && DevX(w, mx) == SumX(w) - Count(w) * mx && DevY(w, my) == SumY(w) - Count(w) * my
    decreases |w|
  {
    if w != [] {
      Deviations(w[1..], mx, my);
      assert Count(w) * mx == mx + Count(w[1..]) * mx;
      assert Count(w) * my == my + Count(w[1..]) * my;
    }
  }

  /** Deviations from the mean cancel. */
  lemma MeansCentre(w: seq<Point>)
    requires w != []
    ensures DevX(w, MeanX(w)) == 0.0 && DevY(w, MeanY(w)) == 0.0
  {
    Deviations(w, MeanX(w), MeanY(w));
    Centred(SumX(w), |w| as real);
    Centred(SumY(w), |w| as real);
  }

  lemma Centred(sum: real, n: real)
    requires n > 0.0
    ensures sum - n * (sum / n) == 0.0
  {
  }

  // ----- a doubly monotone window has a trend of the same sign -----

  ghost predicate RisingX(w: seq<Point>) { forall i, j :: 0 <= i <= j < |w| ==> w[i].x <= w[j].x }

  ghost predicate RisingY(w: seq<Point>) { forall i, j :: 0 <= i <= j < |w| ==> w[i].y <= w[j].y }

  ghost predicate FallingY(w: seq<Point>) { forall i, j :: 0 <= i <= j < |w| ==> w[i].y >= w[j].y }

  /** Moving the reference height shifts the sum by the total x-deviation, which vanishes at the mean. */
  lemma {:induction false} ShiftY(w: seq<Point>, mx: real, my: real, c: real)
    ensures SumXY(w, mx, my) == SumXY(w, mx, c) + (c - my) * DevX(w, mx)
    decreases |w|
  {
    if w != [] {
      ShiftY(w[1..], mx, my, c);
      var dx, k := w[0].x - mx, c - my;
      assert dx * (w[0].y - my) == dx * (w[0].y - c) + k * dx;
      AddDistributes(k, dx, DevX(w[1..], mx));
    }
  }

  lemma {:induction false} SumXYNonNegative(w: seq<Point>, mx: real, c: real)
    requires forall i :: 0 <= i < |w| ==> (w[i].x - mx) * (w[i].y - c) >= 0.0
    ensures SumXY(w, mx, c) >= 0.0
    decreases |w|
  {
    if w != [] {
      assert forall i :: 0 <= i < |w[1..]| ==> w[1..][i] == w[i + 1];
      SumXYNonNegative(w[1..], mx, c);
    }
  }

  /** Index of the first point at or right of `mx`, or the last index when there is none. */
  function Crossing(w: seq<Point>, mx: real, i: nat): (k: nat)
    requires i < |w| && (forall j :: 0 <= j < i ==> w[j].x < mx)
    ensures k < |w| && (forall j :: 0 <= j < k ==> w[j].x < mx) && (w[k].x >= mx || k == |w| - 1)
    decreases |w| - i
  {
    if w[i].x >= mx || i == |w| - 1 then i else Crossing(w, mx, i + 1)
  }

  /** Chebyshev's sum inequality for the window: x and y rising together correlate non-negatively. */
  lemma RisingTogether(w: seq<Point>)
    requires w != [] && RisingX(w) && RisingY(w)
    ensures SumXY(w, MeanX(w), MeanY(w)) >= 0.0
  {
    var mx := MeanX(w);
    var k := Crossing(w, mx, 0);
    var c := w[k].y;
    forall i | 0 <= i < |w| ensures (w[i].x - mx) * (w[i].y - c) >= 0.0 {
      if i < k {
        SameSign(mx - w[i].x, c - w[i].y);
      } else if w[k].x >= mx {
        SameSign(w[i].x - mx, w[i].y - c);
      }
    }
    SumXYNonNegative(w, mx, c);
    MeansCentre(w);
    ShiftY(w, mx, MeanY(w), c);
  }

  lemma SameSign(a: real, b: real)
    requires a >= 0.0 && b >= 0.0
    ensures a * b >= 0.0 && (0.0 - a) * (0.0 - b) >= 0.0
  {
  }

  function Mirror(w: seq<Point>): seq<Point> { seq(|w|, i requires 0 <= i < |w| => Point(w[i].x, -w[i].y)) }

  lemma {:induction false} MirrorSums(w: seq<Point>, mx: real, my: real)
    ensures SumX(Mirror(w)) == SumX(w) && SumY(Mirror(w)) == -SumY(w)
    ensures SumXY(Mirror(w), mx, -my) == -SumXY(w, mx, my)
    decreases |w|
  {
    if w != [] {
      assert Mirror(w)[1..] == Mirror(w[1..]);
      MirrorSums(w[1..], mx, my);
      assert (w[0].x - mx) * (-w[0].y - -my) == -((w[0].x - mx) * (w[0].y - my));
    }
  }

  lemma FallingAgainst(w: seq<Point>)
    requires w != [] && RisingX(w) && FallingY(w)
    ensures SumXY(w, MeanX(w), MeanY(w)) <= 0.0
  {
    hide SumXY, SumX, SumY;
    MirrorSums(w, MeanX(w), MeanY(w));
    assert |Mirror(w)| == |w|;
    assert MeanY(Mirror(w)) == -MeanY(w) by {
      NegatedQuotient(SumY(w), |w| as real);
    }
    assert MeanX(Mirror(w)) == MeanX(w);
    hide MeanX, MeanY;
    RisingTogether(Mirror(w));
  }

  lemma NegatedQuotient(a: real, n: real)
    requires n > 0.0
    ensures (-a) / n == -(a / n)
  {
  }

  lemma QuotientSign(a: real, b: real)
    requires b > 0.0
    ensures (a >= 0.0 ==> a / b >= 0.0) && (a <= 0.0 ==> a / b <= 0.0)
  {
  }

  /** The slope of a doubly monotone window has the sign of its y-direction. */
  lemma SlopeSign(w: seq<Point>)
    requires RisingX(w)
    ensures RisingY(w) ==> Slope(w) >= 0.0
    ensures FallingY(w) ==> Slope(w) <= 0.0
  {
    if |w| >= MIN_WINDOW_FOR_SLOPE {
      var d := SumXX(w, MeanX(w));
      if d >= MIN_VARIANCE {
        QuotientSign(SumXY(w, MeanX(w), MeanY(w)), d);
        if RisingY(w) {
          RisingTogether(w);
        }
        if FallingY(w) {
          FallingAgainst(w);
        }
      }
    }
  }

  // ----- the slope is the least-squares slope -----

  /** Squared error of the line through height `a` at `mx` with slope `b`. */
  function SquaredError(w: seq<Point>, mx: real, a: real, b: real): real {
    if w == [] then 0.0
    else Square(w[0].y - a - b * (w[0].x - mx)) + SquaredError(w[1..], mx, a, b)
  }

  function Square(v: real): real { v * v }

  function SumYY(w: seq<Point>, my: real): real {
    if w == [] then 0.0 else Square(w[0].y - my) + SumYY(w[1..], my)
  }

  lemma ExpandSquare(u: real, v: real, e: real, b: real)
    ensures Square(v - e - b * u) == Square(v) - 2.0 * b * (u * v) + b * b * (u * u)
                                     + e * e - 2.0 * e * v + 2.0 * b * e * u
  {
    var t := b * u;
    assert Square(v - e - t) == v * v + e * e + t * t - 2.0 * (v * e) - 2.0 * (v * t) + 2.0 * (e * t);
    assert t * t == b * b * (u * u);
    assert v * t == b * (u * v);
    assert e * t == b * e * u;
  }

  /** Centred second and first moments of a window, which determine every line's squared error. */
  datatype Moments = Moments(yy: real, xy: real, xx: real, n: real, ry: real, rx: real)

  function MomentsOf(w: seq<Point>, mx: real, my: real): Moments {
    Moments(SumYY(w, my), SumXY(w, mx, my), SumXX(w, mx), Count(w), DevY(w, my), DevX(w, mx))
  }

  function WithPoint(u: real, v: real, m: Moments): Moments {
    Moments(Square(v) + m.yy, u * v + m.xy, u * u + m.xx, 1.0 + m.n, v + m.ry, u + m.rx)
  }

  /** Squared error as a polynomial in the line's slope `b` and its offset `e` from the reference height. */
  function Polynomial(m: Moments, e: real, b: real): real { Tilt(m, b) + Lift(m, e) + 2.0 * b * e * m.rx }

  function Tilt(m: Moments, b: real): real { m.yy - 2.0 * b * m.xy + b * b * m.xx }

  function Lift(m: Moments, e: real): real { m.n * (e * e) - 2.0 * e * m.ry }

  lemma TiltStep(u: real, v: real, m: Moments, b: real)
    ensures Tilt(WithPoint(u, v, m), b) == Tilt(m, b) + (Square(v) - 2.0 * b * (u * v) + b * b * (u * u))
  {
    AddDistributes(2.0 * b, u * v, m.xy);
    AddDistributes(b * b, u * u, m.xx);
  }

  lemma LiftStep(u: real, v: real, m: Moments, e: real)
    ensures Lift(WithPoint(u, v, m), e) == Lift(m, e) + (e * e - 2.0 * e * v)
  {
    AddDistributes(2.0 * e, v, m.ry);
    AddDistributes(e * e, 1.0, m.n);
  }

  lemma PolynomialStep(u: real, v: real, m: Moments, e: real, b: real)
    ensures Polynomial(WithPoint(u, v, m), e, b) == Square(v - e - b * u) + Polynomial(m, e, b)
  {
    hide Tilt, Lift, Square;
    ExpandSquare(u, v, e, b);
    TiltStep(u, v, m, b);
    LiftStep(u, v, m, e);
    AddDistributes(2.0 * b * e, u, m.rx);
  }

  lemma MomentsStep(w: seq<Point>, mx: real, my: real)
    requires w != []
    ensures MomentsOf(w, mx, my) == WithPoint(w[0].x - mx, w[0].y - my, MomentsOf(w[1..], mx, my))
  {
  }

  lemma SquaredErrorStep(w: seq<Point>, mx: real, my: real, e: real, b: real)
    requires w != []
    ensures SquaredError(w, mx, my + e, b)
         == Square((w[0].y - my) - e - b * (w[0].x - mx)) + SquaredError(w[1..], mx, my + e, b)
  {
    var r := b * (w[0].x - mx);
    assert w[0].y - (my + e) - r == (w[0].y - my) - e - r;
  }

  lemma {:induction false} ErrorPolynomial(w: seq<Point>, mx: real, my: real, e: real, b: real)
    ensures SquaredError(w, mx, my + e, b) == Polynomial(MomentsOf(w, mx, my), e, b)
    decreases |w|
  {
    hide Square, Polynomial, SquaredError, MomentsOf, WithPoint;
    if w == [] {
      EmptyError(mx, my, e, b);
    } else {
      SquaredErrorStep(w, mx, my, e, b);
      MomentsStep(w, mx, my);
      PolynomialStep(w[0].x - mx, w[0].y - my, MomentsOf(w[1..], mx, my), e, b);
      ErrorPolynomial(w[1..], mx, my, e, b);
    }
  }

  lemma EmptyError(mx: real, my: real, e: real, b: real)
    ensures SquaredError([], mx, my + e, b) == Polynomial(MomentsOf([], mx, my), e, b)
  {
  }

  lemma PolynomialMinimum(m: Moments, e: real, b: real, s: real)
    requires m.xx >= 0.0 && m.n >= 0.0 && m.xy == s * m.xx && m.ry == 0.0 == m.rx
    ensures Polynomial(m, 0.0, s) <= Polynomial(m, e, b)
  {
    SameSign(Square(b - s), m.xx);
    SameSign(m.n, Square(e));
    assert Square(b - s) * m.xx == b * b * m.xx - 2.0 * b * (s * m.xx) + s * s * m.xx;
    assert 2.0 * s * (s * m.xx) == 2.0 * (s * s * m.xx);
  }

  lemma AddDistributes(k: real, a: real, b: real)
    ensures k * (a + b) == k * a + k * b
  {
  }

  /**
   Optimality: no line fits the window better than the one through the means with the reported slope
   (whenever the send times are spread enough for a slope to be computed).
   */
  lemma SlopeIsLeastSquares(w: seq<Point>, a: real, b: real)
    requires |w| >= MIN_WINDOW_FOR_SLOPE && SumXX(w, MeanX(w)) >= MIN_VARIANCE
    ensures SquaredError(w, MeanX(w), MeanY(w), Slope(w)) <= SquaredError(w, MeanX(w), a, b)
  {
    hide SumXX, SumXY, SumX, SumY, SumYY, SquaredError, Polynomial, DevX, DevY, Count;
    var mx, my, s := MeanX(w), MeanY(w), Slope(w);
    ErrorPolynomial(w, mx, my, 0.0, s);
    ErrorPolynomial(w, mx, my, a - my, b);
    assert my + 0.0 == my && my + (a - my) == a;
    Deviations(w, mx, my);
    MeansCentre(w);
    Quotient(SumXY(w, mx, my), SumXX(w, mx));
    PolynomialMinimum(MomentsOf(w, mx, my), a - my, b, s);
  }

  lemma Quotient(p: real, q: real)
    requires q > 0.0
    ensures p == (p / q) * q
  {
  }

  // ----- the estimator -----

  datatype State = State(window: seq<Point>, smoothed: real, owd: real, send: real, prev: Option<(nat, nat)>,
                         slope: real, usage: Usage)

  const START: State := State([], 0.0, 0.0, 0.0, None, 0.0, Normal)

  function SaturatingSub(a: nat, b: nat): nat { if a < b then 0 else a - b }

  /** Change of one-way delay between two acknowledged packets, as the code computes it. */
  function OwdDelta(prev: (nat, nat), sendUs: nat, recvUs: nat): real {
    SaturatingSub(recvUs, prev.1) as real - SaturatingSub(sendUs, prev.0) as real
  }

  function Classify(slope: real, gammaMultiplier: real): Usage {
    var gamma := OVERUSE_THRESHOLD_GAMMA_US_PER_MS * (if gammaMultiplier < 0.0 then 0.0 else gammaMultiplier);
    if slope > gamma then Overuse else if slope < -gamma then Underuse else Normal
  }

  function Slide(w: seq<Point>, p: Point): seq<Point> {
    var grown := w + [p];
    if |grown| > TRENDLINE_WINDOW_SIZE then grown[1..] else grown
  }

  function Smooth(smoothed: real, delta: real): real {
    TRENDLINE_SMOOTHING_ALPHA * smoothed + (1.0 - TRENDLINE_SMOOTHING_ALPHA) * delta
  }

  function Observe(s: State, sendUs: nat, recvUs: nat, gammaMultiplier: real): State {
    match s.prev
    case None => s.(prev := Some((sendUs, recvUs)))
    case Some(prev) =>
      var smoothed := Smooth(s.smoothed, OwdDelta(prev, sendUs, recvUs));
      var send := s.send + SaturatingSub(sendUs, prev.0) as real / 1000.0;
      var owd := s.owd + smoothed;
      var window := Slide(s.window, Point(send, owd));
      State(window, smoothed, owd, send, Some((sendUs, recvUs)),
            Slope(window), Classify(Slope(window), gammaMultiplier))
  }

  // ----- whole runs -----

  datatype Ack = Ack(sendUs: nat, recvUs: nat, gammaMultiplier: real)

  function Run(s: State, acks: seq<Ack>): State
    decreases |acks|
  {
    if acks == [] then s else Run(Observe(s, acks[0].sendUs, acks[0].recvUs, acks[0].gammaMultiplier), acks[1..])
  }

  /** No computed delay change along the run is negative (when rising) or positive (when falling). */
  predicate OneSided(prev: Option<(nat, nat)>, acks: seq<Ack>, rising: bool)
    decreases |acks|
  {
    acks == [] ||
    (&& (prev.Some? ==>
           var d := OwdDelta(prev.value, acks[0].sendUs, acks[0].recvUs); if rising then d >= 0.0 else d <= 0.0)
     && OneSided(Some((acks[0].sendUs, acks[0].recvUs)), acks[1..], rising))
  }

  /** The window ends at the accumulated point and is monotone in both coordinates. */
  ghost predicate Trending(s: State, rising: bool) {
    && RisingX(s.window) && (if rising then RisingY(s.window) else FallingY(s.window))
    && (s.window != [] ==> s.window[|s.window| - 1] == Point(s.send, s.owd))
    && (if rising then s.smoothed >= 0.0 && s.slope >= 0.0 else s.smoothed <= 0.0 && s.slope <= 0.0)
    && s.usage != (if rising then Underuse else Overuse)
  }

  /** The window after a slide, place by place: the old points, without the first when it was full, and the new one. */
  lemma SlideIs(w: seq<Point>, p: Point)
    ensures var v := Slide(w, p);
            var from := |w| + 1 - |v|;
            && 0 <= from <= 1 && v != [] && v[|v| - 1] == p
            && forall i :: 0 <= i < |v| - 1 ==> v[i] == w[i + from]
  {
  }

  lemma SlideKeepsTrend(w: seq<Point>, p: Point)
    requires RisingX(w) && (w != [] ==> w[|w| - 1].x <= p.x)
    ensures var v := Slide(w, p); RisingX(v) && v[|v| - 1] == p
    ensures RisingY(w) && (w != [] ==> w[|w| - 1].y <= p.y) ==> RisingY(Slide(w, p))
    ensures FallingY(w) && (w != [] ==> w[|w| - 1].y >= p.y) ==> FallingY(Slide(w, p))
  {
    SlideIs(w, p);
    hide Slide;
  }

  lemma ObserveKeepsTrend(s: State, ack: Ack, rising: bool)
    requires Trending(s, rising) && OneSided(s.prev, [ack], rising)
    ensures Trending(Observe(s, ack.sendUs, ack.recvUs, ack.gammaMultiplier), rising)
  {
    hide Slope, Slide, Smooth;
    if s.prev.Some? {
      var delta := OwdDelta(s.prev.value, ack.sendUs, ack.recvUs);
      var t := Observe(s, ack.sendUs, ack.recvUs, ack.gammaMultiplier);
      SmoothSign(s.smoothed, delta);
      SlideKeepsTrend(s.window, Point(t.send, t.owd));
      SlopeSign(t.window);
    }
  }

  lemma SmoothSign(smoothed: real, delta: real)
    ensures smoothed >= 0.0 && delta >= 0.0 ==> Smooth(smoothed, delta) >= 0.0
    ensures smoothed <= 0.0 && delta <= 0.0 ==> Smooth(smoothed, delta) <= 0.0
  {
  }

  lemma {:induction false} RunKeepsTrend(s: State, acks: seq<Ack>, rising: bool)
    requires Trending(s, rising) && OneSided(s.prev, acks, rising)
    ensures Trending(Run(s, acks), rising)
    decreases |acks|
  {
    if acks != [] {
      ObserveKeepsTrend(s, acks[0], rising);
      RunKeepsTrend(Observe(s, acks[0].sendUs, acks[0].recvUs, acks[0].gammaMultiplier), acks[1..], rising);
    }
  }

  /** A run whose delay never shrinks is never called underuse; one whose delay never grows, never overuse. */
  lemma OneSidedRunsClassify(acks: seq<Ack>, rising: bool)
    requires OneSided(None, acks, rising)
    ensures Run(START, acks).usage != (if rising then Underuse else Overuse)
    ensures if rising then Run(START, acks).slope >= 0.0 else Run(START, acks).slope <= 0.0
  {
    RunKeepsTrend(START, acks, rising);
  }

  // ----- the gamma multiplier only moves the thresholds -----

  ghost predicate SameTimes(a: seq<Ack>, b: seq<Ack>) {
    |a| == |b| && forall i :: 0 <= i < |a| ==> a[i].sendUs == b[i].sendUs && a[i].recvUs == b[i].recvUs
  }

  ghost predicate WiderGamma(a: seq<Ack>, b: seq<Ack>) {
    |a| == |b| && forall i :: 0 <= i < |a| ==> a[i].gammaMultiplier >= b[i].gammaMultiplier
  }

  /** Equal but for the classification, and the wider side never reports a trend the narrower does not. */
  ghost predicate SameTrend(wide: State, narrow: State) {
    wide.(usage := Normal) == narrow.(usage := Normal) && (wide.usage != Normal ==> narrow.usage == wide.usage)
  }

  /** The slope ignores the multipliers, and whatever a wider threshold reports a narrower one reports too. */
  lemma {:induction false} WiderGammaReportsLess(s: State, t: State, wide: seq<Ack>, narrow: seq<Ack>)
    requires SameTrend(s, t) && SameTimes(wide, narrow) && WiderGamma(wide, narrow)
    ensures SameTrend(Run(s, wide), Run(t, narrow))
    ensures Run(s, wide).slope == Run(t, narrow).slope
    decreases |wide|
  {
    if wide != [] {
      assert forall i :: 0 <= i < |wide[1..]| ==> wide[1..][i] == wide[i + 1] && narrow[1..][i] == narrow[i + 1];
      WiderGammaReportsLess(Observe(s, wide[0].sendUs, wide[0].recvUs, wide[0].gammaMultiplier),
                            Observe(t, narrow[0].sendUs, narrow[0].recvUs, narrow[0].gammaMultiplier),
                            wide[1..], narrow[1..]);
    }
  }

  class DelayGradientEstimator {
    var window: seq<Point>
    var smoothedDeltaUs: real
    var accumulatedOwdUs: real
    var accumulatedSendMs: real
    var prev: Option<(nat, nat)>
    var slope: real
    var usage: Usage

    ghost function Value(): State
      reads this
    {
      State(window, smoothedDeltaUs, accumulatedOwdUs, accumulatedSendMs, prev, slope, usage)
    }

    constructor ()
      ensures Value() == START
    {
      window, smoothedDeltaUs, accumulatedOwdUs, accumulatedSendMs := [], 0.0, 0.0, 0.0;
      prev, slope, usage := None, 0.0, Normal;
    }

    method ObserveAck(sendUs: nat, recvUs: nat, gammaMultiplier: real) returns (u: Usage)
      modifies this
      ensures Value() == Observe(old(Value()), sendUs, recvUs, gammaMultiplier) && u == usage
    {
      if prev.Some? {
        var sendDelta := SaturatingSub(sendUs, prev.value.0) as real;
        var recvDelta := SaturatingSub(recvUs, prev.value.1) as real;
        smoothedDeltaUs := Smooth(smoothedDeltaUs, recvDelta - sendDelta);
        accumulatedSendMs := accumulatedSendMs + sendDelta / 1000.0;
        accumulatedOwdUs := accumulatedOwdUs + smoothedDeltaUs;
        window := window + [Point(accumulatedSendMs, accumulatedOwdUs)];
        if |window| > TRENDLINE_WINDOW_SIZE {
          window := window[1..];
        }
        slope := Slope(window);
        usage := Classify(slope, gammaMultiplier);
      }
      prev := Some((sendUs, recvUs));
      u := usage;
    }
  }
}
