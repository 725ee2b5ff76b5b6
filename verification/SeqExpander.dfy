/** Reconstruction of 47-bit packet sequence numbers from their low 16 wire bits. */
module SeqExpander {

  const WIRE_SPAN: int := 0x1_0000
  const HALF_SPAN: int := 0x8000
  const SEQ_LIMIT: int := 0x8000_0000_0000
  const SEQ_MAX: int := SEQ_LIMIT - 1

  type Wire = x: int | 0 <= x < WIRE_SPAN

  type Expectation = x: int | 0 <= x <= SEQ_LIMIT

  function Clamp(x: int, low: int, high: int): int { if x < low then low else if x > high then high else x }

  /** The 16-bit difference reread as a signed number: two's complement wrap-around. */
  function WrappedDelta(wire: Wire, low: Wire): int {
    var d := (wire - low) % WIRE_SPAN;
    if d < HALF_SPAN then d else d - WIRE_SPAN
  }

  /** The candidate nearest to the expectation, before clamping. */
  function Nearest(expected: Expectation, wire: Wire): int {
    expected + WrappedDelta(wire, expected % WIRE_SPAN)
  }

  function Expand(expected: Expectation, wire: Wire): int { Clamp(Nearest(expected, wire), 0, SEQ_MAX) }

  function Advance(expected: Expectation, full: int): int { if full >= expected then full + 1 else expected }

  /** The window the wire value can name without ambiguity. */
  predicate InWindow(expected: int, full: int) { expected - HALF_SPAN <= full <= expected + HALF_SPAN - 1 }

  /** The nearest candidate is the one number in the window with these low 16 bits. */
  lemma NearestIsUnique(expected: Expectation, wire: Wire)
    ensures InWindow(expected, Nearest(expected, wire)) && Nearest(expected, wire) % WIRE_SPAN == wire
    ensures forall t :: InWindow(expected, t) && t % WIRE_SPAN == wire ==> t == Nearest(expected, wire)
  {
  }

  /** A true number is recovered exactly when it lies in the window. */
  lemma ExpandExactly(expected: Expectation, full: int)
    requires 0 <= full <= SEQ_MAX
    ensures Expand(expected, full % 65536) == full <==> expected - 32768 <= full <= expected + 32767
  {
    NearestIsUnique(expected, full % WIRE_SPAN);
  }

  /** The result carries the wire bits exactly when no clamp applied. */
  lemma CongruentUnlessClamped(expected: Expectation, wire: Wire)
    ensures Expand(expected, wire) % 65536 == wire <==> 0 <= Nearest(expected, wire) <= 0x7FFF_FFFF_FFFF
  {
    NearestIsUnique(expected, wire);
  }

  /** At the lower clamp the wire bits are lost: the very first packet carrying 0xFFFF expands to 0. */
  lemma ClampLosesWireBits()
    ensures Nearest(0, 0xFFFF) == -1 && Expand(0, 0xFFFF) == 0 && Expand(0, 0xFFFF) % WIRE_SPAN != 0xFFFF
  {
  }

  // ----- whole arrival sequences -----

  function RunExpected(expected: Expectation, wires: seq<Wire>): (e: Expectation)
    ensures e >= expected
    decreases |wires|
  {
    if wires == [] then expected else RunExpected(Advance(expected, Expand(expected, wires[0])), wires[1..])
  }

  function RunResults(expected: Expectation, wires: seq<Wire>): seq<int>
    decreases |wires|
  {
    if wires == [] then []
    else [Expand(expected, wires[0])] + RunResults(Advance(expected, Expand(expected, wires[0])), wires[1..])
  }

  function LowBits(fulls: seq<int>): seq<Wire> { seq(|fulls|, i requires 0 <= i < |fulls| => fulls[i] % WIRE_SPAN) }

  /** One more than the largest number seen, or the starting expectation when that is larger. */
  function RunningMax(expected: int, fulls: seq<int>): int
    decreases |fulls|
  {
    if fulls == [] then expected
    else RunningMax(if fulls[0] + 1 > expected then fulls[0] + 1 else expected, fulls[1..])
  }

  /** Each number lies in range and in the window around the expectation its predecessors set. */
  predicate Arrivable(expected: int, fulls: seq<int>)
    decreases |fulls|
  {
    fulls == [] ||
    (&& 0 <= fulls[0] <= SEQ_MAX && InWindow(expected, fulls[0])
     && Arrivable(RunningMax(expected, fulls[..1]), fulls[1..]))
  }

  /** Any arrivable sequence, reordered and lossy as it may be, is reconstructed exactly. */
  lemma {:induction false} ArrivalsRecovered(expected: Expectation, fulls: seq<int>)
    requires Arrivable(expected, fulls)
    ensures RunResults(expected, LowBits(fulls)) == fulls
    ensures RunExpected(expected, LowBits(fulls)) == RunningMax(expected, fulls)
    decreases |fulls|
  {
    if fulls != [] {
      ExpandExactly(expected, fulls[0]);
      assert LowBits(fulls)[1..] == LowBits(fulls[1..]);
      var next := Advance(expected, fulls[0]);
      assert fulls[..1][1..] == [];
      assert RunningMax(expected, fulls[..1]) == next;
      ArrivalsRecovered(next, fulls[1..]);
    }
  }

  class SequenceExpander {
    var nextExpected: Expectation

    constructor ()
      ensures nextExpected == 0
    {
      nextExpected := 0;
    }

    /** The expectation never falls and never leaves its 47-bit range, whatever the wire carries. */
    method ExpandNext(wire: Wire) returns (full: int)
      modifies this
      ensures full == Expand(old(nextExpected), wire) && 0 <= full <= SEQ_MAX
      ensures nextExpected == Advance(old(nextExpected), full) && nextExpected >= old(nextExpected)
    {
      var low := nextExpected % WIRE_SPAN;
      var wrapped := (wire + WIRE_SPAN - low) % WIRE_SPAN;
      var delta := if wrapped < HALF_SPAN then wrapped else wrapped - WIRE_SPAN;
      full := Clamp(nextExpected + delta, 0, SEQ_MAX);
      if full >= nextExpected {
        nextExpected := full + 1;
      }
    }
  }
}
