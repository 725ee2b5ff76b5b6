/** What the pacer's numbers come to in absolute terms: order, sizes, and bits per second over whole runs. */
module PacerRates {
  import opened Prelude
  import opened Pacer

  /** Control before input before cursor before audio, then screen, video, reliable, transfer and probes. */
  lemma RankOrder()
    ensures Rank(0) < Rank(3) < Rank(2) < Rank(1) < Rank(4) < Rank(5) < Rank(6) < Rank(7) < Rank(8)
  {
  }

  lemma {:induction false} SlotsAre(frames: seq<Frame>)
    ensures SlotBytes(frames) == 2 * |frames| + DataBytes(frames)
  {
    if frames != [] {
      SlotsAre(frames[..|frames| - 1]);
    }
  }

  /** Nineteen bytes of envelope and two per frame keep every datagram within 1 200 bytes. */
  lemma DatagramCeiling(s: State)
    requires Valid(s)
    ensures 19 + 2 * |DrainFrames(s)| + DataBytes(DrainFrames(s)) <= 1200
  {
    DrainDatagram(s);
    SlotsAre(DrainFrames(s));
  }

  function Smaller(a: real, b: real): real { if a <= b then a else b }

  /** Bits, not bytes, per second: `ns` at `rate` grant rate × ns / 8e9 bytes, up to five milliseconds' worth. */
  lemma AdvanceExactly(s: State, ns: nat)
    requires Valid(s)
    ensures var t := Step(s, Op.Advance(ns)).state;
            && 8000000000.0 * t.tokens == Smaller(8000000000.0 * s.tokens + s.rate * ns as real, s.rate * 5000000.0)
            && t.queues == s.queues && t.rate == s.rate
  {
    assert 8000000000.0 * Added(s.rate, ns) == s.rate * ns as real;
    assert 8000000000.0 * BurstCap(s.rate) == s.rate * 5000000.0;
  }

  /** A new rate keeps the balance up to five milliseconds' worth of it. */
  lemma SetRateExactly(s: State, rate: real)
    ensures var t := WithRate(s, rate);
            && 8000000000.0 * t.tokens == Smaller(8000000000.0 * s.tokens, rate * 5000000.0)
            && t.queues == s.queues && t.rate == rate
  {
  }

  /** Frames of at most 1 179 bytes are accepted, and go to the end of their own channel's queue alone. */
  lemma EnqueueExactly(s: State, f: Frame)
    requires |s.queues| == NUM_CHANNELS && f.channel < NUM_CHANNELS
    ensures var o := Step(s, Op.Enqueue(f));
            && o.accepted == (if |f.data| <= 1179 then [f] else []) && o.emitted == []
            && o.state.tokens == s.tokens && o.state.rate == s.rate
            && (forall ch :: 0 <= ch < NUM_CHANNELS ==>
                  o.state.queues[ch] == s.queues[ch] + (if ch == f.channel && |f.data| <= 1179 then [f] else []))
  {
  }

  // ----- bits over time -----

  /** Bits a rate yields over nanoseconds, in billionths. */
  function Bits(rate: real, ns: nat): real { rate * ns as real }

  lemma BitsAdd(rate: real, a: nat, b: nat)
    ensures Bits(rate, a + b) == Bits(rate, a) + Bits(rate, b)
  {
    assert (a + b) as real == a as real + b as real;
  }

  lemma CreditIsBits(rate: real, ns: nat)
    ensures 8000000000.0 * Added(rate, ns) == Bits(rate, ns)
    ensures 8000000000.0 * BurstCap(rate) == Bits(rate, 5000000)
  {
  }

  function Elapsed(ops: seq<Op>): nat {
    if ops == [] then 0 else (if ops[0].Advance? then ops[0].elapsedNs else 0) + Elapsed(ops[1..])
  }

  ghost predicate FixedRate(ops: seq<Op>) { forall op :: op in ops ==> Legal(op) && !op.SetRate? }

  lemma StepGrant(s: State, op: Op)
    requires |s.queues| == NUM_CHANNELS && Legal(op) && !op.SetRate?
    ensures Step(s, op).state.rate == s.rate
    ensures var granted := if op.Advance? then Added(s.rate, op.elapsedNs) else 0.0;
            8000000000.0 * granted == Bits(s.rate, if op.Advance? then op.elapsedNs else 0)
  {
    if op.Advance? {
      CreditIsBits(s.rate, op.elapsedNs);
    }
    hide Added;
  }

  lemma {:induction false} FixedRateGrant(s: State, ops: seq<Op>)
    requires |s.queues| == NUM_CHANNELS && FixedRate(ops)
    ensures 8000000000.0 * Granted(s, ops) == Bits(s.rate, Elapsed(ops))
    decreases |ops|
  {
    if ops != [] {
      StepGrant(s, ops[0]);
      hide Step, Bits, Added;
      FixedRateGrant(Step(s, ops[0]).state, ops[1..]);
      BitsAdd(s.rate, if ops[0].Advance? then ops[0].elapsedNs else 0, Elapsed(ops[1..]));
    }
  }

  /** The rate bound in bits: while the rate stands, bits sent in a window are at most rate × (5 ms + elapsed). */
  lemma FixedRateBound(rate: real, before: seq<Op>, window: seq<Op>)
    requires rate >= 0.0 && (forall op :: op in before ==> Legal(op)) && FixedRate(window)
    ensures var s := Run(Initial(rate), before).state;
            8000000000.0 * DataBytes(Run(s, window).emitted) as real <= Bits(s.rate, 5000000 + Elapsed(window))
  {
    hide Run, Granted, Bits, Elapsed, BurstCap, DataBytes, FixedRate;
    var s := Run(Initial(rate), before).state;
    TokensWithinCap(rate, before);
    WindowLegal(window);
    WindowRateBound(rate, before, window);
    FixedRateGrant(s, window);
    CreditIsBits(s.rate, 0);
    BitsAdd(s.rate, 5000000, Elapsed(window));
  }

  lemma WindowLegal(ops: seq<Op>)
    requires FixedRate(ops)
    ensures forall op :: op in ops ==> Legal(op)
  {
  }

  /** The frames sent in `n` ticks. */
  function SentIn(s: State, ns: nat, n: nat): seq<Frame>
    requires |s.queues| == NUM_CHANNELS
    decreases n
  {
    if n == 0 then [] else DrainFrames(Step(s, Op.Advance(ns)).state) + SentIn(Tick(s, ns), ns, n - 1)
  }

  /** A frame waits that the balance does not cover, and that leaves room in the bucket for a tick's credit. */
  predicate Backlogged(s: State, ns: nat, ch: nat)
    requires |s.queues| == NUM_CHANNELS
  {
    && ch < NUM_CHANNELS && s.queues[ch] != [] && s.tokens < Cost(s.queues[ch][0])
    && 8000000000.0 * Cost(s.queues[ch][0]) + s.rate * ns as real <= s.rate * 5000000.0
  }

  ghost predicate Saturated(s: State, ns: nat, n: nat)
    requires |s.queues| == NUM_CHANNELS
    decreases n
  {
    n == 0 || ((exists ch: nat :: Backlogged(s, ns, ch)) && Saturated(Tick(s, ns), ns, n - 1))
  }

  /** Eight billion times what has been sent and what is left. */
  function Ledger(sent: nat, tokens: real): real { 8000000000.0 * (sent as real + tokens) }

  lemma LedgerChain(a: nat, b: nat, between: real, after: real)
    ensures Ledger(a + b, after) == Ledger(a, between) + Ledger(b, after) - 8000000000.0 * between
  {
  }

  lemma SaturatedTick(s: State, ns: nat, ch: nat)
    requires Valid(s) && Backlogged(s, ns, ch)
    ensures Valid(Tick(s, ns)) && Tick(s, ns).rate == s.rate
    ensures Ledger(DataBytes(DrainFrames(Step(s, Op.Advance(ns)).state)), Tick(s, ns).tokens)
         == 8000000000.0 * s.tokens + Bits(s.rate, ns)
  {
    AdvanceExactly(s, ns);
    StepPromise(s, Op.Advance(ns));
    DrainDatagram(Step(s, Op.Advance(ns)).state);
    hide DrainFrames, DrainState, Step, DataBytes;
  }

  /** Nanoseconds in `n` ticks. */
  function Span(n: nat, ns: nat): nat { n * ns }

  lemma OneMoreTick(n: nat, ns: nat)
    requires n > 0
    ensures Span(n, ns) == ns + Span(n - 1, ns)
  {
  }

  lemma {:induction false} SaturatedLedger(s: State, ns: nat, n: nat)
    requires Valid(s) && Saturated(s, ns, n)
    ensures Valid(Ticks(s, ns, n)) && Ticks(s, ns, n).rate == s.rate
    ensures Ledger(DataBytes(SentIn(s, ns, n)), Ticks(s, ns, n).tokens)
         == 8000000000.0 * s.tokens + Bits(s.rate, Span(n, ns))
    decreases n
  {
    assert |Tick(s, ns).queues| == NUM_CHANNELS && |Step(s, Op.Advance(ns)).state.queues| == NUM_CHANNELS;
    if n == 0 {
      assert Bits(s.rate, 0) == 0.0;
    } else {
      var ch: nat :| Backlogged(s, ns, ch);
      hide Valid, Tick, DrainFrames, Step, Backlogged, Bits, DataBytes, Ledger, Span;
      SaturatedTick(s, ns, ch);
      SaturatedLedger(Tick(s, ns), ns, n - 1);
      var first, rest := DrainFrames(Step(s, Op.Advance(ns)).state), SentIn(Tick(s, ns), ns, n - 1);
      DataBytesConcat(first, rest);
      LedgerChain(DataBytes(first), DataBytes(rest), Tick(s, ns).tokens, Ticks(s, ns, n).tokens);
      OneMoreTick(n, ns);
      BitsAdd(s.rate, ns, Span(n - 1, ns));
    }
  }

  /**
   A saturated pacer uses its rate: with a backlog throughout, the bits sent in `n` ticks are rate × elapsed up to the
   change of the balance, so at least rate × (elapsed − 5 ms).
   */
  lemma SaturatedRate(s: State, ns: nat, n: nat)
    requires Valid(s) && Saturated(s, ns, n)
    ensures Ledger(DataBytes(SentIn(s, ns, n)), Ticks(s, ns, n).tokens - s.tokens) == Bits(s.rate, Span(n, ns))
    ensures 8000000000.0 * DataBytes(SentIn(s, ns, n)) as real >= Bits(s.rate, Span(n, ns)) - Bits(s.rate, 5000000)
  {
    hide SentIn, DataBytes, Ticks, BurstCap, Saturated, Bits, Span;
    SaturatedLedger(s, ns, n);
    CreditIsBits(s.rate, 0);
  }
}
