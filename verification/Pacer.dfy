/**
 The channel-priority token-bucket pacer: nine FIFO queues drained in a fixed priority
 order under a byte budget.  `f64` token balances and rates are modelled as `real`.
 */
module Pacer {
  import opened Prelude

  const NUM_CHANNELS: nat := 9
  const BURST_TOLERANCE_MS: real := 5.0
  const DATAGRAM_LIMIT: nat := 1200
  const DATAGRAM_OVERHEAD: nat := 19
  const FRAME_HEADER_OVERHEAD: nat := 2
  const MAX_DATAGRAM_PAYLOAD_BYTES: nat := DATAGRAM_LIMIT - DATAGRAM_OVERHEAD
  const MAX_FRAME_DATA_BYTES: nat := MAX_DATAGRAM_PAYLOAD_BYTES - FRAME_HEADER_OVERHEAD
  const PRIORITY_ORDER: seq<nat> := [0, 3, 2, 1, 4, 5, 6, 7, 8]

  datatype Frame = Frame(channel: nat, data: seq<Byte>)

  /** Everything a pacer holds, as a value. */
  datatype State = State(queues: seq<seq<Frame>>, tokens: real, rate: real, cap: real)

  /** A drain in progress: the queues, the balance, the slot bytes used and the frames admitted so far. */
  datatype Round = Round(queues: seq<seq<Frame>>, tokens: real, used: nat, frames: seq<Frame>)

  function Cost(f: Frame): real { |f.data| as real }

  function Slot(f: Frame): nat { FRAME_HEADER_OVERHEAD + |f.data| }

  function BurstCap(rate: real): real { rate * BURST_TOLERANCE_MS / 8000.0 }

  function Added(rate: real, elapsedNs: nat): real { rate * (elapsedNs as real) / 8000000000.0 }

  function Min(a: real, b: real): real { if b < a then b else a }

  /** Position of a channel in the priority order; lower ranks are sent first. */
  function Rank(ch: nat): (i: nat)
    requires ch < NUM_CHANNELS
    ensures i < NUM_CHANNELS && PRIORITY_ORDER[i] == ch
  {
    if ch == 1 then 3 else if ch == 3 then 1 else ch
  }

  /** The priority order is a permutation of the channels: a position determines its channel and back. */
  lemma RankIsInverse(i: nat)
    requires i < NUM_CHANNELS
    ensures PRIORITY_ORDER[i] < NUM_CHANNELS && Rank(PRIORITY_ORDER[i]) == i
  {
  }

  // ----- well-formed states -----

  /** Each queue holds frames of its own channel, none above the size that `enqueue` accepts. */
  ghost predicate WellQueued(queues: seq<seq<Frame>>) {
    && |queues| == NUM_CHANNELS
    && forall ch, k :: 0 <= ch < NUM_CHANNELS && 0 <= k < |queues[ch]| ==>
         queues[ch][k].channel == ch && |queues[ch][k].data| <= MAX_FRAME_DATA_BYTES
  }

  ghost predicate Valid(s: State) {
    && WellQueued(s.queues)
    && s.rate >= 0.0 && s.cap == BurstCap(s.rate)
    && 0.0 <= s.tokens <= s.cap
  }

  // ----- the single-pass reference drain -----

  /** The front frame of `ch` can be processed now: affordable, and admitted or dropped as too large. */
  predicate Ready(d: Round, ch: nat)
    requires ch < |d.queues|
  {
    && d.queues[ch] != []
    && d.tokens >= Cost(d.queues[ch][0])
    && (|| Slot(d.queues[ch][0]) > MAX_DATAGRAM_PAYLOAD_BYTES
        || d.frames == []
        || d.used + Slot(d.queues[ch][0]) <= MAX_DATAGRAM_PAYLOAD_BYTES)
  }

  /** Process the front frame of `ch`: drop it when it can never fit, otherwise admit it. */
  function Take(d: Round, ch: nat): Round
    requires ch < |d.queues| && d.queues[ch] != []
  {
    var f := d.queues[ch][0];
    var queues := d.queues[ch := d.queues[ch][1..]];
    if Slot(f) > MAX_DATAGRAM_PAYLOAD_BYTES then d.(queues := queues)
    else Round(queues, d.tokens - Cost(f), d.used + Slot(f), d.frames + [f])
  }

  /** One pass over the channels from priority position `i`, draining each channel greedily, once. */
  function SinglePass(i: nat, d: Round): (r: Round)
    requires i <= NUM_CHANNELS && |d.queues| == NUM_CHANNELS
    ensures |r.queues| == NUM_CHANNELS
    decreases NUM_CHANNELS - i, if i < NUM_CHANNELS then |d.queues[PRIORITY_ORDER[i]]| else 0
  {
    if i == NUM_CHANNELS then d
    else if Ready(d, PRIORITY_ORDER[i]) then SinglePass(i, Take(d, PRIORITY_ORDER[i]))
    else SinglePass(i + 1, d)
  }

  function Begin(s: State): Round { Round(s.queues, s.tokens, 0, []) }

  // ----- restarting from the top changes nothing -----

  ghost predicate BlockedBelow(i: nat, d: Round)
    requires i <= NUM_CHANNELS && |d.queues| == NUM_CHANNELS
  {
    forall j :: 0 <= j < i ==> !Ready(d, PRIORITY_ORDER[j])
  }

  lemma TakeKeepsBlocked(d: Round, ch: nat, other: nat)
    requires |d.queues| == NUM_CHANNELS && ch < NUM_CHANNELS && other < NUM_CHANNELS && other != ch
    requires Ready(d, ch) && !Ready(d, other)
    ensures !Ready(Take(d, ch), other)
  {
  }

  lemma TakeKeepsBlockedBelow(i: nat, d: Round)
    requires i < NUM_CHANNELS && |d.queues| == NUM_CHANNELS
    requires BlockedBelow(i, d) && Ready(d, PRIORITY_ORDER[i])
    ensures BlockedBelow(i, Take(d, PRIORITY_ORDER[i]))
  {
    forall j | 0 <= j < i ensures !Ready(Take(d, PRIORITY_ORDER[i]), PRIORITY_ORDER[j]) {
      RankIsInverse(i);
      RankIsInverse(j);
      TakeKeepsBlocked(d, PRIORITY_ORDER[i], PRIORITY_ORDER[j]);
    }
  }

  lemma {:induction false} SkipBlocked(i: nat, d: Round)
    requires i <= NUM_CHANNELS && |d.queues| == NUM_CHANNELS && BlockedBelow(i, d)
    ensures SinglePass(0, d) == SinglePass(i, d)
  {
    if i > 0 {
      SkipBlocked(i - 1, d);
    }
  }

  /** Processing the first ready channel and restarting from the top stays on the same single pass. */
  lemma RestartIsSinglePass(i: nat, d: Round)
    requires i < NUM_CHANNELS && |d.queues| == NUM_CHANNELS
    requires BlockedBelow(i, d) && Ready(d, PRIORITY_ORDER[i])
    ensures SinglePass(0, d) == SinglePass(0, Take(d, PRIORITY_ORDER[i]))
  {
    SkipBlocked(i, d);
    TakeKeepsBlockedBelow(i, d);
    SkipBlocked(i, Take(d, PRIORITY_ORDER[i]));
  }

  // ----- what a pass delivers -----

  /** The frames of one channel, in order. */
  function Of(frames: seq<Frame>, ch: nat): seq<Frame> {
    if frames == [] then []
    else Of(frames[..|frames| - 1], ch) + (if frames[|frames| - 1].channel == ch then [frames[|frames| - 1]] else [])
  }

  function DataBytes(frames: seq<Frame>): nat {
    if frames == [] then 0 else DataBytes(frames[..|frames| - 1]) + |frames[|frames| - 1].data|
  }

  function SlotBytes(frames: seq<Frame>): nat {
    if frames == [] then 0 else SlotBytes(frames[..|frames| - 1]) + Slot(frames[|frames| - 1])
  }

  lemma {:induction false} OfConcat(a: seq<Frame>, b: seq<Frame>, ch: nat)
    ensures Of(a + b, ch) == Of(a, ch) + Of(b, ch)
  {
    if b == [] {
      assert a + b == a;
    } else {
      assert (a + b)[..|a + b| - 1] == a + b[..|b| - 1];
      OfConcat(a, b[..|b| - 1], ch);
    }
  }

  lemma {:induction false} DataBytesConcat(a: seq<Frame>, b: seq<Frame>)
    ensures DataBytes(a + b) == DataBytes(a) + DataBytes(b)
  {
    if b == [] {
      assert a + b == a;
    } else {
      assert (a + b)[..|a + b| - 1] == a + b[..|b| - 1];
      DataBytesConcat(a, b[..|b| - 1]);
    }
  }

  ghost predicate SortedByRank(frames: seq<Frame>) {
    && (forall k :: 0 <= k < |frames| ==> frames[k].channel < NUM_CHANNELS)
    && (forall j, k :: 0 <= j <= k < |frames| ==> Rank(frames[j].channel) <= Rank(frames[k].channel))
  }

  /** Facts about a round that no admission breaks. */
  ghost predicate RoundOk(d: Round) {
    && WellQueued(d.queues)
    && d.used == SlotBytes(d.frames) <= MAX_DATAGRAM_PAYLOAD_BYTES
    && (d.frames == [] <==> d.used == 0)
    && d.tokens >= 0.0
  }

  /** What is still to spend plus what the admitted data has cost. */
  function Account(d: Round): real { d.tokens + DataBytes(d.frames) as real }

  lemma TakeStep(ch: nat, d: Round)
    requires ch < NUM_CHANNELS && RoundOk(d) && Ready(d, ch)
    ensures RoundOk(Take(d, ch))
    ensures var f := d.queues[ch][0];
            && Take(d, ch).frames == d.frames + [f] && f.channel == ch
            && Account(Take(d, ch)) == Account(d)
            && |Take(d, ch).queues[ch]| < |d.queues[ch]|
  {
    var f := d.queues[ch][0];
    assert f.channel == ch && |f.data| <= MAX_FRAME_DATA_BYTES;
    assert (d.frames + [f])[..|d.frames + [f]| - 1] == d.frames;
  }

  /** The datagram stays within its limit, spends exactly its data bytes, and only grows. */
  lemma {:induction false} PassAccounts(i: nat, d: Round)
    requires i <= NUM_CHANNELS && RoundOk(d)
    ensures var r := SinglePass(i, d);
            RoundOk(r) && d.frames <= r.frames && Account(r) == Account(d)
    decreases NUM_CHANNELS - i, if i < NUM_CHANNELS then |d.queues[PRIORITY_ORDER[i]]| else 0
  {
    if i < NUM_CHANNELS {
      assert |d.queues| == NUM_CHANNELS;
      hide RoundOk, Account, Ready;
      if Ready(d, PRIORITY_ORDER[i]) {
        TakeStep(PRIORITY_ORDER[i], d);
        PassAccounts(i, Take(d, PRIORITY_ORDER[i]));
      } else {
        PassAccounts(i + 1, d);
      }
    }
  }

  lemma AppendSorted(frames: seq<Frame>, f: Frame, i: nat)
    requires SortedByRank(frames) && f.channel < NUM_CHANNELS && Rank(f.channel) == i
    requires forall k :: 0 <= k < |frames| ==> Rank(frames[k].channel) <= i
    ensures SortedByRank(frames + [f])
    ensures forall k :: 0 <= k < |frames + [f]| ==> Rank((frames + [f])[k].channel) <= i
  {
  }

  /** Frames come out in priority order. */
  lemma {:induction false} PassSorted(i: nat, d: Round)
    requires i <= NUM_CHANNELS && RoundOk(d) && SortedByRank(d.frames)
    requires forall k :: 0 <= k < |d.frames| ==> Rank(d.frames[k].channel) <= i
    ensures SortedByRank(SinglePass(i, d).frames)
    decreases NUM_CHANNELS - i, if i < NUM_CHANNELS then |d.queues[PRIORITY_ORDER[i]]| else 0
  {
    if i < NUM_CHANNELS {
      if Ready(d, PRIORITY_ORDER[i]) {
        TakeStep(PRIORITY_ORDER[i], d);
        RankIsInverse(i);
        AppendSorted(d.frames, d.queues[PRIORITY_ORDER[i]][0], i);
        hide RoundOk, SortedByRank, Take, Rank;
        PassSorted(i, Take(d, PRIORITY_ORDER[i]));
      } else {
        PassSorted(i + 1, d);
      }
    }
  }

  lemma TakeConserves(d: Round, c: nat, ch: nat)
    requires c < |d.queues| && ch < |d.queues| && d.queues[c] != []
    requires d.queues[c][0].channel == c && Slot(d.queues[c][0]) <= MAX_DATAGRAM_PAYLOAD_BYTES
    ensures var r := Take(d, c);
            Of(r.frames, ch) + r.queues[ch] == Of(d.frames, ch) + d.queues[ch]
  {
    var f := d.queues[c][0];
    assert (d.frames + [f])[..|d.frames|] == d.frames;
    if c == ch {
      assert Of(d.frames, ch) + [f] + d.queues[c][1..] == Of(d.frames, ch) + d.queues[c];
    }
  }

  /** Per channel, what was admitted followed by what is left is what there was: a prefix leaves, in order. */
  lemma {:induction false} PassConserves(i: nat, d: Round, ch: nat)
    requires i <= NUM_CHANNELS && RoundOk(d) && ch < NUM_CHANNELS
    ensures var r := SinglePass(i, d);
            Of(r.frames, ch) + r.queues[ch] == Of(d.frames, ch) + d.queues[ch]
    decreases NUM_CHANNELS - i, if i < NUM_CHANNELS then |d.queues[PRIORITY_ORDER[i]]| else 0
  {
    if i < NUM_CHANNELS {
      if Ready(d, PRIORITY_ORDER[i]) {
        TakeStep(PRIORITY_ORDER[i], d);
        TakeConserves(d, PRIORITY_ORDER[i], ch);
        PassConserves(i, Take(d, PRIORITY_ORDER[i]), ch);
      } else {
        PassConserves(i + 1, d, ch);
      }
    }
  }

  /** Nothing that could still be sent is left behind. */
  lemma {:induction false} PassExhausts(i: nat, d: Round)
    requires i <= NUM_CHANNELS && |d.queues| == NUM_CHANNELS && BlockedBelow(i, d)
    ensures BlockedBelow(NUM_CHANNELS, SinglePass(i, d))
    decreases NUM_CHANNELS - i, if i < NUM_CHANNELS then |d.queues[PRIORITY_ORDER[i]]| else 0
  {
    if i < NUM_CHANNELS {
      if Ready(d, PRIORITY_ORDER[i]) {
        TakeKeepsBlockedBelow(i, d);
        PassExhausts(i, Take(d, PRIORITY_ORDER[i]));
      } else {
        PassExhausts(i + 1, d);
      }
    }
  }

  /** The front of `ch` exists and the balance covers it. */
  predicate Affordable(queues: seq<seq<Frame>>, tokens: real, ch: nat)
    requires ch < |queues|
  {
    queues[ch] != [] && Cost(queues[ch][0]) <= tokens
  }

  function DrainFrames(s: State): seq<Frame>
    requires |s.queues| == NUM_CHANNELS
  {
    SinglePass(0, Begin(s)).frames
  }

  function DrainState(s: State): State
    requires |s.queues| == NUM_CHANNELS
  {
    var r := SinglePass(0, Begin(s)); s.(queues := r.queues, tokens := r.tokens)
  }

  /**
   The drained datagram: in priority order, within 1 200 bytes, charged for its data bytes only,
   and made of a prefix of each channel's queue.
   */
  lemma DrainDatagram(s: State)
    requires Valid(s)
    ensures var out, t := DrainFrames(s), DrainState(s);
            && Valid(t) && SortedByRank(out)
            && DATAGRAM_OVERHEAD + SlotBytes(out) <= DATAGRAM_LIMIT
            && t.tokens == s.tokens - DataBytes(out) as real
            && (forall ch :: 0 <= ch < NUM_CHANNELS ==> Of(out, ch) + t.queues[ch] == s.queues[ch])
  {
    var d := Begin(s);
    PassAccounts(0, d);
    PassSorted(0, d);
    forall ch | 0 <= ch < NUM_CHANNELS
      ensures Of(SinglePass(0, d).frames, ch) + SinglePass(0, d).queues[ch] == s.queues[ch]
    {
      PassConserves(0, d, ch);
      assert Of(d.frames, ch) + d.queues[ch] == s.queues[ch];
    }
  }

  lemma DrainBlocksAll(s: State, ch: nat)
    requires Valid(s) && ch < NUM_CHANNELS
    ensures !Ready(SinglePass(0, Begin(s)), ch)
  {
    PassExhausts(0, Begin(s));
    assert !Ready(SinglePass(0, Begin(s)), PRIORITY_ORDER[Rank(ch)]);
  }

  /** Every front left behind is too dear for the leftover tokens or too big for the leftover space. */
  lemma DrainLeavesNothingSendable(s: State, ch: nat)
    requires Valid(s) && ch < NUM_CHANNELS && DrainState(s).queues[ch] != []
    ensures var t := DrainState(s);
            || t.tokens < Cost(t.queues[ch][0])
            || SlotBytes(DrainFrames(s)) + Slot(t.queues[ch][0]) > MAX_DATAGRAM_PAYLOAD_BYTES
  {
    PassAccounts(0, Begin(s));
    DrainBlocksAll(s, ch);
    var r := SinglePass(0, Begin(s));
    assert |r.queues[ch][0].data| <= MAX_FRAME_DATA_BYTES;
  }

  /** No datagram comes out exactly when no front frame is affordable. */
  lemma DrainNoneExactly(s: State)
    requires Valid(s)
    ensures DrainFrames(s) == [] <==> forall ch :: 0 <= ch < NUM_CHANNELS ==> !Affordable(s.queues, s.tokens, ch)
  {
    var d := Begin(s);
    var r := SinglePass(0, d);
    PassAccounts(0, d);
    if r.frames == [] {
      forall ch | 0 <= ch < NUM_CHANNELS ensures !Affordable(s.queues, s.tokens, ch) {
        DrainBlocksAll(s, ch);
        PassConserves(0, d, ch);
        assert Of([], ch) + r.queues[ch] == r.queues[ch];
        assert Of([], ch) + d.queues[ch] == d.queues[ch];
      }
    }
    if forall ch :: 0 <= ch < NUM_CHANNELS ==> !Affordable(s.queues, s.tokens, ch) {
      forall j | 0 <= j < NUM_CHANNELS ensures !Ready(d, PRIORITY_ORDER[j]) {
        RankIsInverse(j);
        assert !Affordable(s.queues, s.tokens, PRIORITY_ORDER[j]);
      }
      SkipBlocked(NUM_CHANNELS, d);
    }
  }

  // ----- single dequeues -----

  /** First priority position from `i` whose front frame the balance covers; NUM_CHANNELS when none. */
  function FirstAffordable(i: nat, queues: seq<seq<Frame>>, tokens: real): (j: nat)
    requires i <= NUM_CHANNELS && |queues| == NUM_CHANNELS
    ensures i <= j <= NUM_CHANNELS
    ensures forall k :: i <= k < j ==> !Affordable(queues, tokens, PRIORITY_ORDER[k])
    ensures j < NUM_CHANNELS ==> Affordable(queues, tokens, PRIORITY_ORDER[j])
    decreases NUM_CHANNELS - i
  {
    if i == NUM_CHANNELS || Affordable(queues, tokens, PRIORITY_ORDER[i]) then i
    else FirstAffordable(i + 1, queues, tokens)
  }

  function DequeueFrame(s: State): Option<Frame>
    requires |s.queues| == NUM_CHANNELS
  {
    var j := FirstAffordable(0, s.queues, s.tokens);
    if j == NUM_CHANNELS then None else Some(s.queues[PRIORITY_ORDER[j]][0])
  }

  /** A dequeue never passes over an affordable frame of higher priority. */
  lemma DequeuePicksHighestPriority(s: State, ch: nat)
    requires Valid(s) && ch < NUM_CHANNELS && Affordable(s.queues, s.tokens, ch)
    ensures var f := DequeueFrame(s);
            f.Some? && f.value.channel < NUM_CHANNELS && Rank(f.value.channel) <= Rank(ch)
  {
    var j := FirstAffordable(0, s.queues, s.tokens);
    assert Affordable(s.queues, s.tokens, PRIORITY_ORDER[Rank(ch)]);
    RankIsInverse(j);
  }

  function DequeueState(s: State): State
    requires |s.queues| == NUM_CHANNELS
  {
    var j := FirstAffordable(0, s.queues, s.tokens);
    if j == NUM_CHANNELS then s
    else
      var ch := PRIORITY_ORDER[j];
      s.(queues := s.queues[ch := s.queues[ch][1..]], tokens := s.tokens - Cost(s.queues[ch][0]))
  }

  function TotalQueued(queues: seq<seq<Frame>>): nat {
    if queues == [] then 0 else |queues[0]| + TotalQueued(queues[1..])
  }

  lemma {:induction false} PopShrinks(queues: seq<seq<Frame>>, ch: nat)
    requires ch < |queues| && queues[ch] != []
    ensures TotalQueued(queues[ch := queues[ch][1..]]) < TotalQueued(queues)
  {
    if ch > 0 {
      assert queues[ch := queues[ch][1..]][1..] == queues[1..][ch - 1 := queues[ch][1..]];
      PopShrinks(queues[1..], ch - 1);
    }
  }

  /** The frames a caller gets by calling `dequeue` until it returns nothing. */
  function RepeatedDequeue(s: State): seq<Frame>
    requires |s.queues| == NUM_CHANNELS
    decreases TotalQueued(s.queues)
  {
    var j := FirstAffordable(0, s.queues, s.tokens);
    if j == NUM_CHANNELS then []
    else
      PopShrinks(s.queues, PRIORITY_ORDER[j]);
      [s.queues[PRIORITY_ORDER[j]][0]] + RepeatedDequeue(DequeueState(s))
  }

  lemma {:induction false} SlotBytesConcat(a: seq<Frame>, b: seq<Frame>)
    ensures SlotBytes(a + b) == SlotBytes(a) + SlotBytes(b)
  {
    if b == [] {
      assert a + b == a;
    } else {
      assert (a + b)[..|a + b| - 1] == a + b[..|b| - 1];
      SlotBytesConcat(a, b[..|b| - 1]);
    }
  }

  lemma FirstAffordableIsFirstReady(d: Round)
    requires RoundOk(d)
    ensures var j := FirstAffordable(0, d.queues, d.tokens);
            && BlockedBelow(j, d)
            && (j < NUM_CHANNELS && d.used + Slot(d.queues[PRIORITY_ORDER[j]][0]) <= MAX_DATAGRAM_PAYLOAD_BYTES
                ==> Ready(d, PRIORITY_ORDER[j]))
  {
  }

  lemma RepeatedDequeueSlots(s: State)
    requires |s.queues| == NUM_CHANNELS
    ensures var j := FirstAffordable(0, s.queues, s.tokens);
            j < NUM_CHANNELS ==>
              && RepeatedDequeue(s) == [s.queues[PRIORITY_ORDER[j]][0]] + RepeatedDequeue(DequeueState(s))
              && TotalQueued(DequeueState(s).queues) < TotalQueued(s.queues)
              && SlotBytes(RepeatedDequeue(s))
                 == Slot(s.queues[PRIORITY_ORDER[j]][0]) + SlotBytes(RepeatedDequeue(DequeueState(s)))
  {
    var j := FirstAffordable(0, s.queues, s.tokens);
    if j < NUM_CHANNELS {
      var f := s.queues[PRIORITY_ORDER[j]][0];
      PopShrinks(s.queues, PRIORITY_ORDER[j]);
      SlotBytesConcat([f], RepeatedDequeue(DequeueState(s)));
      assert [f][..0] == [];
    }
  }

  /** A round takes the frame that the dequeue takes, as long as it fits. */
  lemma RoundFollowsDequeue(s: State, d: Round, j: nat)
    requires RoundOk(d) && d.queues == s.queues && d.tokens == s.tokens
    requires j == FirstAffordable(0, s.queues, s.tokens) < NUM_CHANNELS
    requires d.used + Slot(s.queues[PRIORITY_ORDER[j]][0]) <= MAX_DATAGRAM_PAYLOAD_BYTES
    ensures var f, t := s.queues[PRIORITY_ORDER[j]][0], DequeueState(s);
            var r := Take(d, PRIORITY_ORDER[j]);
            && RoundOk(r) && r.queues == t.queues && r.tokens == t.tokens
            && r.used == d.used + Slot(f) && r.frames == d.frames + [f]
            && SinglePass(0, d) == SinglePass(0, r)
  {
    FirstAffordableIsFirstReady(d);
    TakeStep(PRIORITY_ORDER[j], d);
    RestartIsSinglePass(j, d);
    hide SinglePass, BlockedBelow, RoundOk;
  }

  lemma NothingToTake(s: State, d: Round)
    requires RoundOk(d) && d.queues == s.queues && d.tokens == s.tokens
    requires FirstAffordable(0, s.queues, s.tokens) == NUM_CHANNELS
    ensures SinglePass(0, d) == d && RepeatedDequeue(s) == []
  {
    FirstAffordableIsFirstReady(d);
    SkipBlocked(NUM_CHANNELS, d);
  }

  lemma {:induction false} RoundMatchesDequeue(s: State, d: Round)
    requires RoundOk(d) && d.queues == s.queues && d.tokens == s.tokens
    requires d.used + SlotBytes(RepeatedDequeue(s)) <= MAX_DATAGRAM_PAYLOAD_BYTES
    ensures SinglePass(0, d).frames == d.frames + RepeatedDequeue(s)
    decreases TotalQueued(s.queues)
  {
    hide SinglePass, RepeatedDequeue, SlotBytes, Take, DequeueState, Slot, TotalQueued;
    var j := FirstAffordable(0, s.queues, s.tokens);
    if j == NUM_CHANNELS {
      NothingToTake(s, d);
    } else {
      RepeatedDequeueSlots(s);
      RoundFollowsDequeue(s, d, j);
      RoundMatchesDequeue(DequeueState(s), Take(d, PRIORITY_ORDER[j]));
    }
  }

  /** When everything `dequeue` would release fits one datagram, coalescing releases exactly that. */
  lemma DrainMatchesRepeatedDequeue(s: State)
    requires Valid(s)
    requires SlotBytes(RepeatedDequeue(s)) <= MAX_DATAGRAM_PAYLOAD_BYTES
    ensures DrainFrames(s) == RepeatedDequeue(s)
  {
    RoundMatchesDequeue(s, Begin(s));
  }

  // ----- whole runs -----

  datatype Op = Enqueue(frame: Frame) | Advance(elapsedNs: nat) | SetRate(rate: real) | Dequeue | DrainTick

  datatype Outcome = Outcome(state: State, accepted: seq<Frame>, emitted: seq<Frame>)

  /** Callers hand over a real channel and a non-negative rate. */
  predicate Legal(op: Op) {
    (op.Enqueue? ==> op.frame.channel < NUM_CHANNELS) && (op.SetRate? ==> op.rate >= 0.0)
  }

  function Initial(rate: real): State {
    State(seq(NUM_CHANNELS, _ => []), 0.0, rate, BurstCap(rate))
  }

  function WithRate(s: State, rate: real): State {
    s.(rate := rate, cap := BurstCap(rate), tokens := Min(s.tokens, BurstCap(rate)))
  }

  function Step(s: State, op: Op): Outcome
    requires |s.queues| == NUM_CHANNELS && Legal(op)
  {
    match op
    case Enqueue(f) =>
      if |f.data| > MAX_FRAME_DATA_BYTES then Outcome(s, [], [])
      else Outcome(s.(queues := s.queues[f.channel := s.queues[f.channel] + [f]]), [f], [])
    case Advance(ns) => Outcome(s.(tokens := Min(s.tokens + Added(s.rate, ns), s.cap)), [], [])
    case SetRate(r) => Outcome(WithRate(s, r), [], [])
    case Dequeue =>
      var f := DequeueFrame(s);
      Outcome(DequeueState(s), [], if f.Some? then [f.value] else [])
    case DrainTick => Outcome(DrainState(s), [], DrainFrames(s))
  }

  function Run(s: State, ops: seq<Op>): (o: Outcome)
    requires |s.queues| == NUM_CHANNELS && (forall op :: op in ops ==> Legal(op))
    ensures |o.state.queues| == NUM_CHANNELS
    decreases |ops|
  {
    if ops == [] then Outcome(s, [], [])
    else
      var first := Step(s, ops[0]);
      var rest := Run(first.state, ops[1..]);
      Outcome(rest.state, first.accepted + rest.accepted, first.emitted + rest.emitted)
  }

  /** Bytes of credit the clock grants over a run: the sum of rate times elapsed time. */
  function Granted(s: State, ops: seq<Op>): real
    requires |s.queues| == NUM_CHANNELS && (forall op :: op in ops ==> Legal(op))
    decreases |ops|
  {
    if ops == [] then 0.0
    else (if ops[0].Advance? then Added(s.rate, ops[0].elapsedNs) else 0.0) + Granted(Step(s, ops[0]).state, ops[1..])
  }

  lemma AddedNonNegative(rate: real, ns: nat)
    requires rate >= 0.0
    ensures Added(rate, ns) >= 0.0
  {
  }

  lemma DequeueStep(s: State)
    requires Valid(s)
    ensures var o := Step(s, Dequeue);
            && Valid(o.state) && o.state.tokens == s.tokens - DataBytes(o.emitted) as real
            && (forall ch :: 0 <= ch < NUM_CHANNELS ==> Of(o.emitted, ch) + o.state.queues[ch] == s.queues[ch])
  {
    var j := FirstAffordable(0, s.queues, s.tokens);
    if j < NUM_CHANNELS {
      PopStep(s, PRIORITY_ORDER[j]);
    }
  }

  lemma PopStep(s: State, c: nat)
    requires Valid(s) && c < NUM_CHANNELS && Affordable(s.queues, s.tokens, c)
    ensures var f := s.queues[c][0];
            var t := s.(queues := s.queues[c := s.queues[c][1..]], tokens := s.tokens - Cost(f));
            && Valid(t) && DataBytes([f]) == |f.data|
            && (forall ch :: 0 <= ch < NUM_CHANNELS ==> Of([f], ch) + t.queues[ch] == s.queues[ch])
  {
  }

  /** One operation keeps the bucket in range, spends what it emits, and moves frames without loss. */
  lemma StepPromise(s: State, op: Op)
    requires Valid(s) && Legal(op)
    ensures var o := Step(s, op);
            && Valid(o.state)
            && o.state.tokens + DataBytes(o.emitted) as real
               <= s.tokens + (if op.Advance? then Added(s.rate, op.elapsedNs) else 0.0)
            && (forall ch :: 0 <= ch < NUM_CHANNELS ==>
                  s.queues[ch] + Of(o.accepted, ch) == Of(o.emitted, ch) + o.state.queues[ch])
  {
    match op
    case Enqueue(f) =>
      assert [f][..0] == [];
    case Advance(ns) => AddedNonNegative(s.rate, ns);
    case SetRate(r) =>
    case Dequeue => DequeueStep(s);
    case DrainTick => DrainDatagram(s);
  }

  lemma {:induction false} RunBudget(s: State, ops: seq<Op>)
    requires Valid(s) && (forall op :: op in ops ==> Legal(op))
    ensures var o := Run(s, ops);
            && Valid(o.state)
            && o.state.tokens + DataBytes(o.emitted) as real <= s.tokens + Granted(s, ops)
    decreases |ops|
  {
    if ops != [] {
      var first := Step(s, ops[0]);
      StepPromise(s, ops[0]);
      RunBudget(first.state, ops[1..]);
      DataBytesConcat(first.emitted, Run(first.state, ops[1..]).emitted);
    }
  }

  lemma {:induction false} RunConserves(s: State, ops: seq<Op>, ch: nat)
    requires Valid(s) && (forall op :: op in ops ==> Legal(op)) && ch < NUM_CHANNELS
    ensures var o := Run(s, ops);
            s.queues[ch] + Of(o.accepted, ch) == Of(o.emitted, ch) + o.state.queues[ch]
    decreases |ops|
  {
    if ops != [] {
      var first := Step(s, ops[0]);
      var rest := Run(first.state, ops[1..]);
      StepPromise(s, ops[0]);
      RunConserves(first.state, ops[1..], ch);
      OfConcat(first.emitted, rest.emitted, ch);
      OfConcat(first.accepted, rest.accepted, ch);
      Chain(s.queues[ch], Of(first.accepted, ch), Of(rest.accepted, ch),
            Of(first.emitted, ch), first.state.queues[ch], Of(rest.emitted, ch), rest.state.queues[ch]);
    }
  }

  lemma Chain(q0: seq<Frame>, in1: seq<Frame>, in2: seq<Frame>,
              out1: seq<Frame>, q1: seq<Frame>, out2: seq<Frame>, q2: seq<Frame>)
    requires q0 + in1 == out1 + q1 && q1 + in2 == out2 + q2
    ensures q0 + (in1 + in2) == (out1 + out2) + q2
  {
    assert q0 + (in1 + in2) == (q0 + in1) + in2;
    assert (out1 + q1) + in2 == out1 + (q1 + in2);
    assert out1 + (out2 + q2) == (out1 + out2) + q2;
  }

  /** In every reachable state the balance lies between zero and the burst cap. */
  lemma TokensWithinCap(rate: real, ops: seq<Op>)
    requires rate >= 0.0 && (forall op :: op in ops ==> Legal(op))
    ensures var s := Run(Initial(rate), ops).state; 0.0 <= s.tokens <= s.cap == BurstCap(s.rate)
  {
    RunBudget(Initial(rate), ops);
  }

  /**
   Rate bound: in any window of any run, the data bytes sent are at most the burst cap where
   the window starts plus rate times elapsed time over the window.
   */
  lemma WindowRateBound(rate: real, before: seq<Op>, window: seq<Op>)
    requires rate >= 0.0 && (forall op :: op in before ==> Legal(op)) && (forall op :: op in window ==> Legal(op))
    ensures var s := Run(Initial(rate), before).state;
            DataBytes(Run(s, window).emitted) as real <= s.cap + Granted(s, window)
  {
    RunBudget(Initial(rate), before);
    RunBudget(Run(Initial(rate), before).state, window);
  }

  /** Per channel and in order, every accepted frame has been emitted or is still queued, once. */
  lemma FifoConservation(rate: real, ops: seq<Op>, ch: nat)
    requires rate >= 0.0 && (forall op :: op in ops ==> Legal(op)) && ch < NUM_CHANNELS
    ensures var o := Run(Initial(rate), ops);
            Of(o.accepted, ch) == Of(o.emitted, ch) + o.state.queues[ch]
  {
    RunConserves(Initial(rate), ops, ch);
    assert Initial(rate).queues[ch] + Of(Run(Initial(rate), ops).accepted, ch)
        == Of(Run(Initial(rate), ops).accepted, ch);
  }

  // ----- liveness at a fixed rate -----

  /** One pacing tick: the clock advances, then a datagram is drained. */
  function Tick(s: State, ns: nat): State
    requires |s.queues| == NUM_CHANNELS
  {
    DrainState(Step(s, Op.Advance(ns)).state)
  }

  function Ticks(s: State, ns: nat, n: nat): (t: State)
    requires |s.queues| == NUM_CHANNELS
    ensures |t.queues| == NUM_CHANNELS
    decreases n
  {
    if n == 0 then s else Ticks(Tick(s, ns), ns, n - 1)
  }

  /** Every frame waiting on this channel fits the burst cap. */
  ghost predicate Sendable(s: State, ch: nat)
    requires ch < |s.queues|
  {
    forall k :: 0 <= k < |s.queues[ch]| ==> Cost(s.queues[ch][k]) <= s.cap
  }

  ghost predicate SuffixOf(a: seq<Frame>, b: seq<Frame>) { |a| <= |b| && a == b[|b| - |a|..] }

  lemma {:induction false} MemberBytes(frames: seq<Frame>, k: nat)
    requires k < |frames|
    ensures |frames[k].data| <= DataBytes(frames)
  {
    if k < |frames| - 1 {
      MemberBytes(frames[..|frames| - 1], k);
    }
  }

  lemma {:induction false} OfBytes(frames: seq<Frame>, ch: nat)
    ensures DataBytes(Of(frames, ch)) <= DataBytes(frames)
  {
    if frames != [] {
      var last := frames[|frames| - 1];
      OfBytes(frames[..|frames| - 1], ch);
      if last.channel == ch {
        assert Of(frames, ch)[..|Of(frames, ch)| - 1] == Of(frames[..|frames| - 1], ch);
      } else {
        assert Of(frames, ch) == Of(frames[..|frames| - 1], ch);
      }
    }
  }

  /** What a tick keeps: rate, cap and the tail of each queue; no frame it sends is larger than the cap. */
  lemma TickKeeps(s: State, ns: nat, ch: nat)
    requires Valid(s) && ch < NUM_CHANNELS
    ensures var t := Tick(s, ns);
            && Valid(t) && t.rate == s.rate && t.cap == s.cap && SuffixOf(t.queues[ch], s.queues[ch])
            && (forall k :: 0 <= k < |s.queues[ch]| - |t.queues[ch]| ==> Cost(s.queues[ch][k]) <= s.cap)
  {
    var a := Step(s, Op.Advance(ns)).state;
    StepPromise(s, Op.Advance(ns));
    DrainDatagram(a);
    var out, t := DrainFrames(a), DrainState(a);
    OfBytes(out, ch);
    var sent := Of(out, ch);
    assert sent + t.queues[ch] == s.queues[ch];
    forall k | 0 <= k < |sent| ensures Cost(s.queues[ch][k]) <= s.cap {
      MemberBytes(sent, k);
      assert s.queues[ch][k] == sent[k];
    }
  }

  /** A frame above the burst cap never leaves, however long the pacer runs: its channel never empties. */
  lemma {:induction false} OversizedStays(s: State, ns: nat, n: nat, ch: nat)
    requires Valid(s) && ch < NUM_CHANNELS && !Sendable(s, ch)
    ensures Ticks(s, ns, n).queues[ch] != []
    decreases n
  {
    if n > 0 {
      TickKeeps(s, ns, ch);
      var k :| 0 <= k < |s.queues[ch]| && Cost(s.queues[ch][k]) > s.cap;
      var t := Tick(s, ns);
      var gone := |s.queues[ch]| - |t.queues[ch]|;
      assert t.queues[ch][k - gone] == s.queues[ch][k];
      OversizedStays(t, ns, n - 1, ch);
    }
  }

  lemma {:induction false} ShorterQueues(a: seq<seq<Frame>>, b: seq<seq<Frame>>)
    requires |a| == |b| && forall c :: 0 <= c < |a| ==> |a[c]| <= |b[c]|
    ensures TotalQueued(a) <= TotalQueued(b)
    ensures (exists c :: 0 <= c < |a| && |a[c]| < |b[c]|) ==> TotalQueued(a) < TotalQueued(b)
  {
    if a != [] {
      assert forall c :: 0 <= c < |a[1..]| ==> a[1..][c] == a[c + 1] && b[1..][c] == b[c + 1];
      ShorterQueues(a[1..], b[1..]);
      if c :| 0 <= c < |a| && |a[c]| < |b[c]| {
        assert c > 0 ==> |a[1..][c - 1]| < |b[1..][c - 1]|;
      }
    }
  }

  /** A tick that sends something leaves fewer frames queued. */
  lemma SendingShrinks(s: State, ns: nat)
    requires Valid(s) && DrainFrames(Step(s, Op.Advance(ns)).state) != []
    ensures TotalQueued(Tick(s, ns).queues) < TotalQueued(s.queues)
  {
    var a := Step(s, Op.Advance(ns)).state;
    StepPromise(s, Op.Advance(ns));
    DrainDatagram(a);
    var out, t := DrainFrames(a), DrainState(a);
    var last := out[|out| - 1];
    forall c | 0 <= c < NUM_CHANNELS ensures |t.queues[c]| <= |s.queues[c]| {
      assert Of(out, c) + t.queues[c] == s.queues[c];
    }
    assert Of(out, last.channel) + t.queues[last.channel] == s.queues[last.channel];
    assert |t.queues[last.channel]| < |s.queues[last.channel]|;
    ShorterQueues(t.queues, s.queues);
  }

  /** A tick that sends nothing leaves the queues alone, and its credit stays in the bucket. */
  lemma SilentTickSaves(s: State, ns: nat)
    requires Valid(s) && DrainFrames(Step(s, Op.Advance(ns)).state) == []
    ensures Tick(s, ns) == Step(s, Op.Advance(ns)).state
  {
    var a := Step(s, Op.Advance(ns)).state;
    StepPromise(s, Op.Advance(ns));
    DrainDatagram(a);
    forall c | 0 <= c < NUM_CHANNELS ensures DrainState(a).queues[c] == a.queues[c] {
      assert Of([], c) + DrainState(a).queues[c] == a.queues[c];
    }
    assert DrainState(a).queues == a.queues;
  }

  /** With a full bucket a sendable front goes out. */
  lemma FullBucketSends(s: State, ns: nat, ch: nat)
    requires Valid(s) && ch < NUM_CHANNELS && Sendable(s, ch) && s.queues[ch] != [] && s.tokens == s.cap
    ensures DrainFrames(Step(s, Op.Advance(ns)).state) != []
  {
    var a := Step(s, Op.Advance(ns)).state;
    AddedNonNegative(s.rate, ns);
    StepPromise(s, Op.Advance(ns));
    assert Cost(s.queues[ch][0]) <= s.cap;
    assert Affordable(a.queues, a.tokens, ch);
    DrainNoneExactly(a);
  }

  /** Within finitely many ticks, while a sendable frame waits, something is sent. */
  lemma {:induction false} SomethingIsSent(s: State, ns: nat, ch: nat, k: nat) returns (n: nat)
    requires Valid(s) && ch < NUM_CHANNELS && Sendable(s, ch) && s.queues[ch] != []
    requires s.tokens + k as real * Added(s.rate, ns) >= s.cap
    ensures Valid(Ticks(s, ns, n)) && Sendable(Ticks(s, ns, n), ch)
    ensures Ticks(s, ns, n).rate == s.rate && TotalQueued(Ticks(s, ns, n).queues) < TotalQueued(s.queues)
    decreases k
  {
    TickKeeps(s, ns, ch);
    var t := Tick(s, ns);
    if DrainFrames(Step(s, Op.Advance(ns)).state) != [] {
      SendingShrinks(s, ns);
      n := 1;
      assert Ticks(s, ns, 1) == Ticks(t, ns, 0) == t;
    } else {
      if k == 0 {
        FullBucketSends(s, ns, ch);
      }
      SilentTickSaves(s, ns);
      assert k as real * Added(s.rate, ns) == Added(s.rate, ns) + (k - 1) as real * Added(s.rate, ns);
      AddedNonNegative(s.rate, ns);
      assert (k - 1) as real * Added(s.rate, ns) >= 0.0;
      var m := SomethingIsSent(t, ns, ch, k - 1);
      n := m + 1;
    }
  }

  /** Enough ticks to fill any bucket. */
  lemma EnoughTicks(cap: real, added: real) returns (k: nat)
    requires cap >= 0.0 && added > 0.0
    ensures k as real * added >= cap
  {
    var q := cap / added;
    assert q * added == cap;
    CancelFactor(0.0, q, added);
    k := q.Floor + 1;
    ProductSign(k as real - q, added);
    assert k as real * added - cap == (k as real - q) * added;
  }

  lemma {:induction false} TicksAdd(s: State, ns: nat, m: nat, n: nat)
    requires |s.queues| == NUM_CHANNELS
    ensures Ticks(Ticks(s, ns, m), ns, n) == Ticks(s, ns, m + n)
    decreases m
  {
    if m > 0 {
      TicksAdd(Tick(s, ns), ns, m - 1, n);
    }
  }

  lemma {:induction false} SendableEmpties(s: State, ns: nat, ch: nat) returns (n: nat)
    requires Valid(s) && ch < NUM_CHANNELS && Sendable(s, ch) && Added(s.rate, ns) > 0.0
    ensures Ticks(s, ns, n).queues[ch] == []
    decreases TotalQueued(s.queues)
  {
    if s.queues[ch] == [] {
      n := 0;
    } else {
      var k := EnoughTicks(s.cap, Added(s.rate, ns));
      var m := SomethingIsSent(s, ns, ch, k);
      var rest := SendableEmpties(Ticks(s, ns, m), ns, ch);
      n := m + rest;
      TicksAdd(s, ns, m, rest);
    }
  }

  /** The channel runs dry after some number of ticks. */
  ghost predicate Empties(s: State, ns: nat, ch: nat)
    requires |s.queues| == NUM_CHANNELS && ch < NUM_CHANNELS
  {
    exists n: nat :: Ticks(s, ns, n).queues[ch] == []
  }

  /**
   Liveness, exactly: at a fixed positive rate and tick length, whatever waits on the other channels, repeated
   ticks empty a channel if and only if each of its frames is at most the burst cap of five milliseconds.
   */
  lemma EmptiesExactly(s: State, ns: nat, ch: nat)
    requires Valid(s) && s.rate > 0.0 && ns > 0 && ch < NUM_CHANNELS
    ensures Empties(s, ns, ch) <==> Sendable(s, ch)
  {
    if Sendable(s, ch) {
      ProductSign(s.rate, ns as real);
      var n := SendableEmpties(s, ns, ch);
    } else {
      forall n: nat ensures Ticks(s, ns, n).queues[ch] != [] {
        OversizedStays(s, ns, n, ch);
      }
    }
  }

  lemma {:induction false} StaysEmpty(s: State, ns: nat, n: nat, ch: nat)
    requires Valid(s) && ch < NUM_CHANNELS && s.queues[ch] == []
    ensures Ticks(s, ns, n).queues[ch] == []
    decreases n
  {
    if n > 0 {
      TickKeeps(s, ns, ch);
      StaysEmpty(Tick(s, ns), ns, n - 1, ch);
    }
  }

  lemma {:induction false} TicksKeepValid(s: State, ns: nat, n: nat)
    requires Valid(s)
    ensures Valid(Ticks(s, ns, n))
    decreases n
  {
    if n > 0 {
      TickKeeps(s, ns, 0);
      TicksKeepValid(Tick(s, ns), ns, n - 1);
    }
  }

  /** The first `count` channels are all dry after `n` ticks. */
  ghost predicate Dry(s: State, ns: nat, n: nat, count: nat)
    requires |s.queues| == NUM_CHANNELS && count <= NUM_CHANNELS
  {
    forall ch :: 0 <= ch < count ==> Ticks(s, ns, n).queues[ch] == []
  }

  lemma {:induction false} CommonTick(s: State, ns: nat, count: nat) returns (n: nat)
    requires Valid(s) && count <= NUM_CHANNELS && forall ch :: 0 <= ch < count ==> Empties(s, ns, ch)
    ensures Dry(s, ns, n, count)
    decreases count
  {
    if count == 0 {
      n := 0;
    } else {
      var m := CommonTick(s, ns, count - 1);
      assert Empties(s, ns, count - 1);
      var k: nat :| Ticks(s, ns, k).queues[count - 1] == [];
      n := m + k;
      TicksKeepValid(s, ns, m);
      TicksKeepValid(s, ns, k);
      TicksAdd(s, ns, m, k);
      TicksAdd(s, ns, k, m);
      StaysEmpty(Ticks(s, ns, k), ns, m, count - 1);
      forall ch | 0 <= ch < count - 1 ensures Ticks(s, ns, n).queues[ch] == [] {
        StaysEmpty(Ticks(s, ns, m), ns, k, ch);
      }
    }
  }

  /** All queues are empty after some number of ticks if and only if every waiting frame is at most the burst cap. */
  lemma DrainsExactly(s: State, ns: nat)
    requires Valid(s) && s.rate > 0.0 && ns > 0
    ensures (exists n: nat :: Dry(s, ns, n, NUM_CHANNELS)) <==> forall ch :: 0 <= ch < NUM_CHANNELS ==> Sendable(s, ch)
  {
    if n: nat :| Dry(s, ns, n, NUM_CHANNELS) {
      forall ch | 0 <= ch < NUM_CHANNELS ensures Sendable(s, ch) {
        assert Ticks(s, ns, n).queues[ch] == [];
        EmptiesExactly(s, ns, ch);
      }
    }
    if forall ch :: 0 <= ch < NUM_CHANNELS ==> Sendable(s, ch) {
      forall ch | 0 <= ch < NUM_CHANNELS ensures Empties(s, ns, ch) {
        EmptiesExactly(s, ns, ch);
      }
      var n := CommonTick(s, ns, NUM_CHANNELS);
    }
  }

  /** For example: at 150 kbps an accepted frame of 94 bytes blocks its channel for ever. */
  lemma AcceptedFrameStarves(data: seq<Byte>, ns: nat)
    requires |data| == 94 && ns > 0
    ensures var s := Step(Initial(150000.0), Op.Enqueue(Frame(0, data)));
            s.accepted == [Frame(0, data)] && !Empties(s.state, ns, 0)
  {
    var s := Step(Initial(150000.0), Op.Enqueue(Frame(0, data))).state;
    StepPromise(Initial(150000.0), Op.Enqueue(Frame(0, data)));
    assert s.queues[0] == [Frame(0, data)] && Cost(s.queues[0][0]) > s.cap;
    EmptiesExactly(s, ns, 0);
  }

  // ----- the mutable pacer -----

  class TokenBucketPacer {
    var queues: seq<seq<Frame>>
    var tokenBytes: real
    var rateBps: real
    var burstCapBytes: real

    ghost predicate WellFormed()
      reads this
    {
      |queues| == NUM_CHANNELS
    }

    ghost function Value(): State
      reads this
    {
      State(queues, tokenBytes, rateBps, burstCapBytes)
    }

    constructor (initialRateBps: real)
      ensures WellFormed() && Value() == Initial(initialRateBps)
    {
      queues := seq(NUM_CHANNELS, _ => []);
      tokenBytes := 0.0;
      rateBps := initialRateBps;
      burstCapBytes := BurstCap(initialRateBps);
    }

    method SetRate(rate: real)
      requires WellFormed()
      modifies this
      ensures WellFormed() && Value() == WithRate(old(Value()), rate)
    {
      rateBps := rate;
      burstCapBytes := BurstCap(rate);
      tokenBytes := Min(tokenBytes, burstCapBytes);
    }

    method Advance(elapsedNs: nat)
      requires WellFormed()
      modifies this
      ensures WellFormed() && Value() == Step(old(Value()), Op.Advance(elapsedNs)).state
    {
      tokenBytes := Min(tokenBytes + Added(rateBps, elapsedNs), burstCapBytes);
    }

    method Enqueue(frame: Frame) returns (accepted: bool)
      requires WellFormed() && frame.channel < NUM_CHANNELS
      modifies this
      ensures WellFormed() && Value() == Step(old(Value()), Op.Enqueue(frame)).state
      ensures accepted <==> |frame.data| <= MAX_FRAME_DATA_BYTES
    {
      if |frame.data| > MAX_FRAME_DATA_BYTES {
        return false;
      }
      queues := queues[frame.channel := queues[frame.channel] + [frame]];
      return true;
    }

    method Dequeue() returns (frame: Option<Frame>)
      requires WellFormed()
      modifies this
      ensures WellFormed() && Value() == DequeueState(old(Value())) && frame == DequeueFrame(old(Value()))
    {
      for i := 0 to NUM_CHANNELS
        invariant Value() == old(Value()) && WellFormed()
        invariant FirstAffordable(0, queues, tokenBytes) == FirstAffordable(i, queues, tokenBytes)
      {
        var ch := PRIORITY_ORDER[i];
        if queues[ch] != [] {
          var needed := |queues[ch][0].data| as real;
          if tokenBytes >= needed {
            frame := Some(queues[ch][0]);
            tokenBytes := tokenBytes - needed;
            queues := queues[ch := queues[ch][1..]];
            return;
          }
        }
      }
      frame := None;
    }

    /** The restart-from-the-top scan; it computes exactly the single pass. */
    method DrainTick() returns (datagram: Option<seq<Frame>>)
      requires WellFormed()
      modifies this
      ensures WellFormed() && Value() == DrainState(old(Value()))
      ensures datagram == if DrainFrames(old(Value())) == [] then None else Some(DrainFrames(old(Value())))
    {
      var frames: seq<Frame> := [];
      var used: nat := 0;
      label Outer:
      while true
        invariant WellFormed() && rateBps == old(rateBps) && burstCapBytes == old(burstCapBytes)
        invariant SinglePass(0, Round(queues, tokenBytes, used, frames)) == SinglePass(0, Begin(old(Value())))
        decreases TotalQueued(queues)
      {
        ghost var d := Round(queues, tokenBytes, used, frames);
        for i := 0 to NUM_CHANNELS
          invariant d == Round(queues, tokenBytes, used, frames) && BlockedBelow(i, d)
          invariant WellFormed() && rateBps == old(rateBps) && burstCapBytes == old(burstCapBytes)
        {
          var ch := PRIORITY_ORDER[i];
          if queues[ch] == [] {
            continue;
          }
          var front := queues[ch][0];
          var tokenNeeded := |front.data| as real;
          if tokenBytes < tokenNeeded {
            continue;
          }
          var slot := FRAME_HEADER_OVERHEAD + |front.data|;
          if slot > MAX_DATAGRAM_PAYLOAD_BYTES {
            PopShrinks(queues, ch);
            RestartIsSinglePass(i, d);
            queues := queues[ch := queues[ch][1..]];
            continue Outer;
          }
          if frames != [] && used + slot > MAX_DATAGRAM_PAYLOAD_BYTES {
            continue;
          }
          PopShrinks(queues, ch);
          RestartIsSinglePass(i, d);
          tokenBytes := tokenBytes - tokenNeeded;
          used := used + slot;
          frames := frames + [front];
          queues := queues[ch := queues[ch][1..]];
          continue Outer;
        }
        SkipBlocked(NUM_CHANNELS, d);
        break;
      }
      datagram := if frames == [] then None else Some(frames);
    }
  }
}
