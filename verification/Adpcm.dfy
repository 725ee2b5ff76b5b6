/**
 The IMA ADPCM voice codec: four bits per sample, with a predictor and a step index that encoder and
 decoder update in lock-step.  Shifts of positive numbers are written as divisions and the nibble
 operations as arithmetic on values below 16.
 */
module Adpcm {
  import opened Prelude

  type Step = x: int | x >= 7 witness 7

  /** The step sizes, ten to a row. */
  const STEPS0: seq<Step> := [7, 8, 9, 10, 11, 12, 13, 14, 16, 17]
  const STEPS1: seq<Step> := [19, 21, 23, 25, 28, 31, 34, 37, 41, 45]
  const STEPS2: seq<Step> := [50, 55, 60, 66, 73, 80, 88, 97, 107, 118]
  const STEPS3: seq<Step> := [130, 143, 157, 173, 190, 209, 230, 253, 279, 307]
  const STEPS4: seq<Step> := [337, 371, 408, 449, 494, 544, 598, 658, 724, 796]
  const STEPS5: seq<Step> := [876, 963, 1060, 1166, 1282, 1411, 1552, 1707, 1878, 2066]
  const STEPS6: seq<Step> := [2272, 2499, 2749, 3024, 3327, 3660, 4026, 4428, 4871, 5358]
  const STEPS7: seq<Step> := [5894, 6484, 7132, 7845, 8630, 9493, 10442, 11487, 12635, 13899]
  const STEPS8: seq<Step> := [15289, 16818, 18500, 20350, 22385, 24623, 27086, 29794, 32767]

  const STEP_TABLE: seq<Step> :=
    STEPS0 + (STEPS1 + (STEPS2 + (STEPS3 + (STEPS4 + (STEPS5 + (STEPS6 + (STEPS7 + STEPS8)))))))

  const INDEX_TABLE: seq<int> := [-1, -1, -1, -1, 2, 4, 6, 8, -1, -1, -1, -1, 2, 4, 6, 8]

  const MAX_INDEX: nat := 88

  type Sample = x: int | -32768 <= x <= 32767

  type Code = x: int | 0 <= x < 16

  type StepIndex = x: int | 0 <= x <= MAX_INDEX

  function ClampIndex(i: int): StepIndex { if i < 0 then 0 else if i > MAX_INDEX then MAX_INDEX else i }

  function ClampSample(s: int): Sample { if s < -32768 then -32768 else if s > 32767 then 32767 else s }

  function StepAt(index: StepIndex): Step { STEP_TABLE[index] }

  function Abs(x: int): nat { if x < 0 then -x else x }

  /** Codec state: shared shape of encoder and decoder. */
  datatype State = State(predictor: Sample, index: StepIndex)

  const START: State := State(0, 0)

  function Bit(code: Code, weight: nat): bool
    requires weight == 1 || weight == 2 || weight == 4 || weight == 8
  {
    (code / weight) % 2 == 1
  }

  // ----- decoding one code -----

  function Magnitude(step: int, code: Code): int {
    step / 8 + (if Bit(code, 4) then step else 0) + (if Bit(code, 2) then step / 2 else 0)
    + (if Bit(code, 1) then step / 4 else 0)
  }

  function Moved(step: int, predictor: Sample, code: Code): Sample {
    ClampSample(if Bit(code, 8) then predictor - Magnitude(step, code) else predictor + Magnitude(step, code))
  }

  function Advance(st: State, code: Code): State {
    State(Moved(StepAt(st.index), st.predictor, code), ClampIndex(st.index + INDEX_TABLE[code]))
  }

  // ----- choosing a code -----

  /** Successive approximation of the difference by step, step/2 and step/4, plus the sign bit. */
  function CodeFor(step: int, predictor: Sample, sample: Sample): Code {
    var d0 := Abs(sample - predictor);
    var b4 := d0 >= step;
    var d1 := if b4 then d0 - step else d0;
    var b2 := d1 >= step / 2;
    var d2 := if b2 then d1 - step / 2 else d1;
    var b1 := d2 >= step / 4;
    (if sample < predictor then 8 else 0) + (if b4 then 4 else 0) + (if b2 then 2 else 0) + (if b1 then 1 else 0)
  }

  function Choose(st: State, sample: Sample): Code { CodeFor(StepAt(st.index), st.predictor, sample) }

  // ----- frames -----

  function Codes(st: State, pcm: seq<Sample>): (codes: seq<Code>)
    ensures |codes| == |pcm|
    decreases |pcm|
  {
    if pcm == [] then []
    else [Choose(st, pcm[0])] + Codes(Advance(st, Choose(st, pcm[0])), pcm[1..])
  }

  function AfterCodes(st: State, codes: seq<Code>): State
    decreases |codes|
  {
    if codes == [] then st else AfterCodes(Advance(st, codes[0]), codes[1..])
  }

  /** The predictors a codec passes through while consuming codes. */
  function Predictors(st: State, codes: seq<Code>): (out: seq<Sample>)
    ensures |out| == |codes|
    decreases |codes|
  {
    if codes == [] then [] else [Advance(st, codes[0]).predictor] + Predictors(Advance(st, codes[0]), codes[1..])
  }

  function Joined(low: int, high: int): int { low + 16 * high }

  /** Two codes per byte, the first in the low nibble; an odd last code stands alone. */
  function Pack(codes: seq<Code>): (bytes: seq<Byte>)
    ensures |bytes| == (|codes| + 1) / 2
    decreases |codes|
  {
    if codes == [] then []
    else if |codes| == 1 then [codes[0]]
    else [Joined(codes[0], codes[1])] + Pack(codes[2..])
  }

  /** The first `count` nibbles of the bytes, low nibble first. */
  function Unpack(bytes: seq<Byte>, count: nat): seq<Code>
    decreases |bytes|
  {
    if bytes == [] || count == 0 then []
    else if count == 1 then [bytes[0] % 16]
    else [bytes[0] % 16, bytes[0] / 16] + Unpack(bytes[1..], count - 2)
  }

  lemma {:induction false} UnpackPack(codes: seq<Code>)
    ensures Unpack(Pack(codes), |codes|) == codes
    decreases |codes|
  {
    if |codes| >= 2 {
      UnpackPack(codes[2..]);
      var b := Joined(codes[0], codes[1]);
      assert b % 16 == codes[0] && b / 16 == codes[1];
      assert Pack(codes)[1..] == Pack(codes[2..]);
      assert codes == [codes[0], codes[1]] + codes[2..];
    }
  }

  /** The layout: byte `k` holds code 2k in its low half and code 2k + 1, if there is one, in its high half. */
  lemma {:induction false} PackLayout(codes: seq<Code>, k: nat)
    requires k < |Pack(codes)|
    ensures 2 * k < |codes| && Pack(codes)[k] % 16 == codes[2 * k]
    ensures Pack(codes)[k] / 16 == if 2 * k + 1 < |codes| then codes[2 * k + 1] else 0
    decreases k
  {
    if k > 0 {
      assert Pack(codes)[k] == Pack(codes[2..])[k - 1];
      PackLayout(codes[2..], k - 1);
    }
  }

  /** Unpacking stops at the end of the bytes or at the count, whichever comes first. */
  lemma {:induction false} UnpackLength(bytes: seq<Byte>, count: nat)
    ensures |Unpack(bytes, count)| == if count <= 2 * |bytes| then count else 2 * |bytes|
    decreases |bytes|
  {
    if bytes != [] && count > 1 {
      UnpackLength(bytes[1..], count - 2);
    }
  }

  // ----- lock-step over whole streams -----

  datatype Encoded = Encoded(state: State, frames: seq<seq<Byte>>)

  datatype Decoded = Decoded(state: State, frames: seq<seq<Sample>>)

  function EncodeStream(st: State, frames: seq<seq<Sample>>): Encoded
    decreases |frames|
  {
    if frames == [] then Encoded(st, [])
    else
      var codes := Codes(st, frames[0]);
      var rest := EncodeStream(AfterCodes(st, codes), frames[1..]);
      Encoded(rest.state, [Pack(codes)] + rest.frames)
  }

  function DecodeStream(st: State, frames: seq<seq<Byte>>, counts: seq<nat>): Decoded
    requires |frames| == |counts|
    decreases |frames|
  {
    if frames == [] then Decoded(st, [])
    else
      var codes := Unpack(frames[0], counts[0]);
      var rest := DecodeStream(AfterCodes(st, codes), frames[1..], counts[1..]);
      Decoded(rest.state, [Predictors(st, codes)] + rest.frames)
  }

  /** What the encoder itself believes the listener hears: its successive predictors. */
  function Tracked(st: State, frames: seq<seq<Sample>>): seq<seq<Sample>>
    decreases |frames|
  {
    if frames == [] then []
    else [Predictors(st, Codes(st, frames[0]))] + Tracked(AfterCodes(st, Codes(st, frames[0])), frames[1..])
  }

  function Lengths(frames: seq<seq<Sample>>): seq<nat> { seq(|frames|, i requires 0 <= i < |frames| => |frames[i]|) }

  lemma {:induction false} EncodedFrameCount(st: State, frames: seq<seq<Sample>>)
    ensures |EncodeStream(st, frames).frames| == |frames|
    decreases |frames|
  {
    if frames != [] {
      EncodedFrameCount(AfterCodes(st, Codes(st, frames[0])), frames[1..]);
    }
  }

  /**
   Lock-step: after any sequence of frames, odd lengths included, the decoder is in the encoder's state
   and has produced exactly the encoder's successive predictors.
   */
  lemma {:induction false} LockStep(st: State, frames: seq<seq<Sample>>)
    ensures var enc := EncodeStream(st, frames);
            && |enc.frames| == |frames|
            && DecodeStream(st, enc.frames, Lengths(frames)) == Decoded(enc.state, Tracked(st, frames))
    decreases |frames|
  {
    EncodedFrameCount(st, frames);
    if frames != [] {
      var codes := Codes(st, frames[0]);
      UnpackPack(codes);
      LockStep(AfterCodes(st, codes), frames[1..]);
      assert Lengths(frames)[1..] == Lengths(frames[1..]);
      assert EncodeStream(st, frames).frames[1..] == EncodeStream(AfterCodes(st, codes), frames[1..]).frames;
    }
  }

  // ----- step adaptation -----

  /**
   The step follows the signal: a difference below the step takes it one place down the table, a larger one two to
   eight places up, the more the larger it is, within the table's ends.
   */
  lemma StepAdapts(st: State, sample: Sample)
    ensures var d, step := Abs(sample - st.predictor), StepAt(st.index);
            var next := Advance(st, Choose(st, sample)).index;
            if d < step then next == (if st.index == 0 then 0 else st.index - 1)
            else
              var up := if d < step + step / 4 then 2
                        else if d < step + step / 2 then 4
                        else if d < step + step / 2 + step / 4 then 6 else 8;
              next == if st.index + up > 88 then 88 else st.index + up
  {
  }

  /** A step is a tenth above the one before, to within a unit. */
  predicate TenthUp(a: Step, b: Step) { a < b && -8 <= 10 * (b as int) - 11 * (a as int) <= 8 }

  predicate TenthsUp(steps: seq<Step>) { forall i :: 0 <= i < |steps| - 1 ==> TenthUp(steps[i], steps[i + 1]) }

  lemma RowsJoin(a: seq<Step>, b: seq<Step>)
    requires a != [] && b != [] && TenthsUp(a) && TenthsUp(b) && TenthUp(a[|a| - 1], b[0])
    ensures TenthsUp(a + b) && (a + b)[0] == a[0]
  {
  }

  /** The table runs from 7 to 32 767, a tenth up at every place but the last, which the sample range cuts off. */
  lemma StepTable()
    ensures |STEP_TABLE| == 89 && StepAt(0) == 7 && StepAt(87) == 29794 && StepAt(88) == 32767
    ensures TenthsUp(STEP_TABLE[..88])
  {
    hide TenthUp, TenthsUp;
    Rows01();
    Rows23();
    Rows45();
    Rows67();
    Row8();
    var from7 := STEPS7 + STEPS8[..8];
    RowsJoin(STEPS7, STEPS8[..8]);
    var from6 := STEPS6 + from7;
    RowsJoin(STEPS6, from7);
    var from5 := STEPS5 + from6;
    RowsJoin(STEPS5, from6);
    var from4 := STEPS4 + from5;
    RowsJoin(STEPS4, from5);
    var from3 := STEPS3 + from4;
    RowsJoin(STEPS3, from4);
    var from2 := STEPS2 + from3;
    RowsJoin(STEPS2, from3);
    var from1 := STEPS1 + from2;
    RowsJoin(STEPS1, from2);
    RowsJoin(STEPS0, from1);
    assert STEP_TABLE[..88] == STEPS0 + from1;
  }

  lemma Rows01()
    ensures |STEPS0| == |STEPS1| == 10 && TenthsUp(STEPS0) && TenthsUp(STEPS1)
    ensures TenthUp(STEPS0[9], STEPS1[0]) && TenthUp(STEPS1[9], STEPS2[0])
  {
  }

  lemma Rows23()
    ensures |STEPS2| == |STEPS3| == 10 && TenthsUp(STEPS2) && TenthsUp(STEPS3)
    ensures TenthUp(STEPS2[9], STEPS3[0]) && TenthUp(STEPS3[9], STEPS4[0])
  {
  }

  lemma Rows45()
    ensures |STEPS4| == |STEPS5| == 10 && TenthsUp(STEPS4) && TenthsUp(STEPS5)
    ensures TenthUp(STEPS4[9], STEPS5[0]) && TenthUp(STEPS5[9], STEPS6[0])
  {
  }

  lemma Rows67()
    ensures |STEPS6| == |STEPS7| == 10 && TenthsUp(STEPS6) && TenthsUp(STEPS7)
    ensures TenthUp(STEPS6[9], STEPS7[0]) && TenthUp(STEPS7[9], STEPS8[0])
  {
  }

  lemma Row8()
    ensures |STEPS8| == 9 && TenthsUp(STEPS8[..8])
  {
  }

  // ----- quantisation error -----

  /** What is left of the difference once the chosen multiples of the step are taken off. */
  function Leftover(step: int, d0: int): int {
    var d1 := if d0 >= step then d0 - step else d0;
    var d2 := if d1 >= step / 2 then d1 - step / 2 else d1;
    if d2 >= step / 4 then d2 - step / 4 else d2
  }

  lemma LeftoverBound(step: nat, d0: nat)
    requires step >= 7
    ensures d0 < 2 * step ==> 0 <= Leftover(step, d0) <= 2 * (step / 8) + 2
    ensures d0 >= 2 * step ==> 0 < Leftover(step, d0) - step / 8 < d0
  {
  }

  lemma ClampOnlyHelps(target: Sample, raw: int)
    ensures Abs(target - ClampSample(raw)) <= Abs(target - raw)
  {
  }

  lemma ChosenBits(step: int, predictor: Sample, sample: Sample)
    ensures var d0 := Abs(sample - predictor);
            var d1 := if d0 >= step then d0 - step else d0;
            var d2 := if d1 >= step / 2 then d1 - step / 2 else d1;
            var code := CodeFor(step, predictor, sample);
            && (Bit(code, 8) <==> sample < predictor)
            && (Bit(code, 4) <==> d0 >= step) && (Bit(code, 2) <==> d1 >= step / 2)
            && (Bit(code, 1) <==> d2 >= step / 4)
  {
  }

  /** The magnitude of the chosen code: the difference without its leftover, plus an eighth of a step. */
  lemma ChosenMagnitude(step: int, predictor: Sample, sample: Sample)
    ensures var d0 := Abs(sample - predictor);
            Magnitude(step, CodeFor(step, predictor, sample)) == d0 - Leftover(step, d0) + step / 8
  {
    ChosenBits(step, predictor, sample);
    hide Bit, CodeFor;
  }

  lemma StepError(step: int, predictor: Sample, sample: Sample)
    requires step >= 7
    ensures var before := Abs(sample - predictor);
            var after := Abs(sample - Moved(step, predictor, CodeFor(step, predictor, sample)));
            && (before < 2 * step ==> after <= step / 8 + 2)
            && (before >= 2 * step ==> after < before)
  {
    ChosenBits(step, predictor, sample);
    ChosenMagnitude(step, predictor, sample);
    LeftoverBound(step, Abs(sample - predictor));
    hide Bit, CodeFor, Magnitude, Leftover, ClampSample;
    var code := CodeFor(step, predictor, sample);
    var v := Magnitude(step, code);
    ClampOnlyHelps(sample, if Bit(code, 8) then predictor - v else predictor + v);
  }

  /**
   Error bound: within two steps of the predictor the new error is at most step/8 + 2, clamping
   included; further away the error strictly shrinks.
   */
  lemma QuantisationError(st: State, sample: Sample)
    ensures var step := StepAt(st.index);
            var before := Abs(sample - st.predictor);
            var after := Abs(sample - Advance(st, Choose(st, sample)).predictor);
            && (before < 2 * step ==> after <= step / 8 + 2)
            && (before >= 2 * step ==> after < before)
  {
    StepError(StepAt(st.index), st.predictor, sample);
  }

  // ----- the mutable codec -----

  class AdpcmEncoder {
    var predictor: Sample
    var index: StepIndex

    ghost function Value(): State
      reads this
    {
      State(predictor, index)
    }

    constructor ()
      ensures Value() == START
    {
      predictor, index := 0, 0;
    }

    method EncodeSample(sample: Sample) returns (code: Code)
      modifies this
      ensures code == Choose(old(Value()), sample) && Value() == Advance(old(Value()), code)
    {
      var step: int := StepAt(index);
      ChosenBits(step, predictor, sample);
      var diff: int := sample - predictor;
      var sign: nat := if diff < 0 then 8 else 0;
      if diff < 0 {
        diff := -diff;
      }
      var delta: nat := 0;
      var vpdiff := step / 8;
      var s := step;
      if diff >= s {
        delta, diff, vpdiff := delta + 4, diff - s, vpdiff + s;
      }
      s := s / 2;
      if diff >= s {
        delta, diff, vpdiff := delta + 2, diff - s, vpdiff + s;
      }
      s := s / 2;
      assert s == step / 4;
      if diff >= s {
        delta, vpdiff := delta + 1, vpdiff + s;
      }
      code := delta + sign;
      assert code == CodeFor(step, predictor, sample);
      hide CodeFor, Bit;
      assert vpdiff == Magnitude(step, code);
      predictor := ClampSample(if sign != 0 then predictor - vpdiff else predictor + vpdiff);
      index := ClampIndex(index + INDEX_TABLE[code]);
    }

    method Encode(pcm: seq<Sample>) returns (out: seq<Byte>)
      modifies this
      ensures out == Pack(Codes(old(Value()), pcm)) && Value() == AfterCodes(old(Value()), Codes(old(Value()), pcm))
    {
      hide Advance, Choose;
      out := [];
      var pending: Option<Code> := None;
      ghost var st := Value();
      for i := 0 to |pcm|
        invariant Value() == AfterCodes(st, Codes(st, pcm[..i]))
        invariant Packed(Codes(st, pcm[..i]), pending, out)
      {
        CodesOneMore(st, pcm[..i], pcm[i]);
        assert pcm[..i] + [pcm[i]] == pcm[..i + 1];
        var code := EncodeSample(pcm[i]);
        PackStep(Codes(st, pcm[..i]), pending, out, code);
        match pending {
          case None => pending := Some(code);
          case Some(low) =>
            out := out + [Joined(low, code)];
            pending := None;
        }
      }
      assert pcm[..|pcm|] == pcm;
      PackDone(Codes(st, pcm), pending, out);
      if pending.Some? {
        out := out + [pending.value];
      }
    }
  }

  /** `out` packs the codes so far, the last of them still pending when their number is odd. */
  ghost predicate Packed(codes: seq<Code>, pending: Option<Code>, out: seq<Byte>) {
    match pending
    case None => |codes| % 2 == 0 && out == Pack(codes)
    case Some(low) => |codes| % 2 == 1 && codes[|codes| - 1] == low && out == Pack(codes[..|codes| - 1])
  }

  lemma PackStep(codes: seq<Code>, pending: Option<Code>, out: seq<Byte>, code: Code)
    requires Packed(codes, pending, out)
    ensures pending.None? ==> Packed(codes + [code], Some(code), out)
    ensures pending.Some? ==> Packed(codes + [code], None, out + [Joined(pending.value, code)])
  {
    if pending.Some? {
      PackTwoMore(codes[..|codes| - 1], pending.value, code);
      assert codes[..|codes| - 1] + [pending.value, code] == codes + [code];
    } else {
      assert (codes + [code])[..|codes|] == codes;
    }
  }

  lemma PackDone(codes: seq<Code>, pending: Option<Code>, out: seq<Byte>)
    requires Packed(codes, pending, out)
    ensures Pack(codes) == if pending.None? then out else out + [pending.value]
  {
    if pending.Some? {
      PackLast(codes[..|codes| - 1], pending.value);
      assert codes[..|codes| - 1] + [pending.value] == codes;
    }
  }

  lemma {:induction false} CodesOneMore(st: State, pcm: seq<Sample>, sample: Sample)
    ensures var codes := Codes(st, pcm);
            var code := Choose(AfterCodes(st, codes), sample);
            && Codes(st, pcm + [sample]) == codes + [code]
            && AfterCodes(st, codes + [code]) == Advance(AfterCodes(st, codes), code)
    decreases |pcm|
  {
    if pcm != [] {
      assert (pcm + [sample])[1..] == pcm[1..] + [sample];
      CodesOneMore(Advance(st, Choose(st, pcm[0])), pcm[1..], sample);
    }
    AfterOneMore(st, Codes(st, pcm), Choose(AfterCodes(st, Codes(st, pcm)), sample));
  }

  lemma {:induction false} AfterOneMore(st: State, codes: seq<Code>, code: Code)
    ensures AfterCodes(st, codes + [code]) == Advance(AfterCodes(st, codes), code)
    decreases |codes|
  {
    if codes != [] {
      assert (codes + [code])[1..] == codes[1..] + [code];
      AfterOneMore(Advance(st, codes[0]), codes[1..], code);
    }
  }

  lemma {:induction false} PackTwoMore(codes: seq<Code>, low: Code, high: Code)
    requires |codes| % 2 == 0
    ensures Pack(codes + [low, high]) == Pack(codes) + [Joined(low, high)]
    decreases |codes|
  {
    if codes == [] {
      assert codes + [low, high] == [low, high];
    } else {
      assert (codes + [low, high])[2..] == codes[2..] + [low, high];
      PackTwoMore(codes[2..], low, high);
    }
  }

  lemma {:induction false} PackLast(codes: seq<Code>, low: Code)
    requires |codes| % 2 == 0
    ensures Pack(codes + [low]) == Pack(codes) + [low]
    decreases |codes|
  {
    if codes != [] {
      assert (codes + [low])[2..] == codes[2..] + [low];
      PackLast(codes[2..], low);
    }
  }

  class AdpcmDecoder {
    var predictor: Sample
    var index: StepIndex

    ghost function Value(): State
      reads this
    {
      State(predictor, index)
    }

    constructor ()
      ensures Value() == START
    {
      predictor, index := 0, 0;
    }

    method DecodeCode(code: Code) returns (sample: Sample)
      modifies this
      ensures Value() == Advance(old(Value()), code) && sample == Value().predictor
    {
      var step: int := StepAt(index);
      var vpdiff := step / 8;
      if Bit(code, 4) {
        vpdiff := vpdiff + step;
      }
      if Bit(code, 2) {
        vpdiff := vpdiff + step / 2;
      }
      if Bit(code, 1) {
        vpdiff := vpdiff + step / 4;
      }
      predictor := ClampSample(if Bit(code, 8) then predictor - vpdiff else predictor + vpdiff);
      index := ClampIndex(index + INDEX_TABLE[code]);
      sample := predictor;
    }

    method Decode(data: seq<Byte>, sampleCount: nat) returns (out: seq<Sample>)
      modifies this
      ensures var codes := Unpack(data, sampleCount);
              out == Predictors(old(Value()), codes) && Value() == AfterCodes(old(Value()), codes)
    {
      hide Advance;
      out := [];
      ghost var st, rest := Value(), Unpack(data, sampleCount);
      for i := 0 to |data|
        invariant |out| <= sampleCount && rest == Unpack(data[i..], sampleCount - |out|)
        invariant out + Predictors(Value(), rest) == Predictors(st, Unpack(data, sampleCount))
        invariant AfterCodes(Value(), rest) == AfterCodes(st, Unpack(data, sampleCount))
      {
        UnpackByte(data, i, sampleCount - |out|);
        if |out| < sampleCount {
          NextCode(Value(), rest, out);
          var s := DecodeCode(data[i] % 16);
          out := out + [s];
          rest := rest[1..];
        }
        if |out| < sampleCount {
          NextCode(Value(), rest, out);
          var s := DecodeCode(data[i] / 16);
          out := out + [s];
          rest := rest[1..];
        }
      }
    }
  }

  lemma NextCode(st: State, rest: seq<Code>, out: seq<Sample>)
    requires rest != []
    ensures var next := Advance(st, rest[0]);
            && out + Predictors(st, rest) == (out + [next.predictor]) + Predictors(next, rest[1..])
            && AfterCodes(st, rest) == AfterCodes(next, rest[1..])
  {
  }

  lemma UnpackByte(data: seq<Byte>, i: nat, left: nat)
    requires i < |data|
    ensures Unpack(data[i..], left)
         == if left == 0 then Unpack(data[i + 1..], 0)
            else if left == 1 then [data[i] % 16] + Unpack(data[i + 1..], 0)
            else [data[i] % 16] + ([data[i] / 16] + Unpack(data[i + 1..], left - 2))
  {
  }
}
