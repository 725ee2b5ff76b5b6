/**
 Length-prefixed framing of datagrams over the TCP port 443 fallback, and the incremental
 reassembler that turns arbitrary chunks of the byte stream back into datagrams.
 */
module TcpFallback {
  import opened Prelude

  const TCP_LENGTH_PREFIX_BYTES: nat := 2
  const TCP_MAX_DATAGRAM_BYTES: nat := 1200

  function Encode(datagram: seq<Byte>): Option<seq<Byte>> {
    if |datagram| > TCP_MAX_DATAGRAM_BYTES then None
    else Some([|datagram| / 256, |datagram| % 256] + datagram)
  }

  /** `Header` holds the prefix bytes read so far, `Body` the announced length and the bytes read so far. */
  datatype Phase = Header(got: seq<Byte>) | Body(expected: nat, got: seq<Byte>)

  datatype State = State(phase: Phase, rejected: nat)

  const READY: Phase := Header([])

  ghost predicate ValidPhase(p: Phase) {
    match p
    case Header(got) => |got| < TCP_LENGTH_PREFIX_BYTES
    case Body(expected, got) => expected <= TCP_MAX_DATAGRAM_BYTES && (|got| < expected || (expected == 0 && got == []))
  }

  // ----- the byte-at-a-time reference machine -----

  datatype Fed = Fed(state: State, delivered: seq<seq<Byte>>)

  /** An announced empty body is complete already and is left without delivering anything. */
  function SkipEmpty(p: Phase): Phase { if p == Body(0, []) then READY else p }

  function PrefixValue(hi: int, lo: int): int { 256 * hi + lo }

  function AfterPrefix(hi: Byte, lo: Byte, rejected: nat): State {
    var len := PrefixValue(hi, lo);
    if len > TCP_MAX_DATAGRAM_BYTES then State(READY, rejected + 1) else State(Body(len, []), rejected)
  }

  function FeedByte(s: State, b: Byte): Fed
    requires ValidPhase(s.phase)
  {
    match SkipEmpty(s.phase)
    case Header(got) =>
      if got == [] then Fed(State(Header([b]), s.rejected), []) else Fed(AfterPrefix(got[0], b, s.rejected), [])
    case Body(expected, got) =>
      if |got| + 1 == expected then Fed(State(READY, s.rejected), [got + [b]])
      else Fed(State(Body(expected, got + [b]), s.rejected), [])
  }

  function Feed(s: State, bytes: seq<Byte>): (r: Fed)
    requires ValidPhase(s.phase)
    ensures ValidPhase(r.state.phase)
    decreases |bytes|
  {
    if bytes == [] then Fed(s, [])
    else
      var first := FeedByte(s, bytes[0]);
      var rest := Feed(first.state, bytes[1..]);
      Fed(rest.state, first.delivered + rest.delivered)
  }

  /** Chunking invariance: the split of the stream into pushes changes neither output nor state. */
  lemma {:induction false} FeedConcat(s: State, a: seq<Byte>, b: seq<Byte>)
    requires ValidPhase(s.phase)
    ensures var first := Feed(s, a);
            var second := Feed(first.state, b);
            Feed(s, a + b) == Fed(second.state, first.delivered + second.delivered)
    decreases |a|
  {
    if a == [] {
      assert a + b == b;
    } else {
      assert (a + b)[1..] == a[1..] + b;
      FeedConcat(FeedByte(s, a[0]).state, a[1..], b);
    }
  }

  /** A whole run of pushes. */
  function FeedChunks(s: State, chunks: seq<seq<Byte>>): (r: Fed)
    requires ValidPhase(s.phase)
    ensures ValidPhase(r.state.phase)
    decreases |chunks|
  {
    if chunks == [] then Fed(s, [])
    else
      var first := Feed(s, chunks[0]);
      var rest := FeedChunks(first.state, chunks[1..]);
      Fed(rest.state, first.delivered + rest.delivered)
  }

  function Concat(parts: seq<seq<Byte>>): seq<Byte> {
    if parts == [] then [] else parts[0] + Concat(parts[1..])
  }

  lemma {:induction false} ChunksDoNotMatter(s: State, chunks: seq<seq<Byte>>)
    requires ValidPhase(s.phase)
    ensures FeedChunks(s, chunks) == Feed(s, Concat(chunks))
    decreases |chunks|
  {
    if chunks != [] {
      FeedConcat(s, chunks[0], Concat(chunks[1..]));
      ChunksDoNotMatter(Feed(s, chunks[0]).state, chunks[1..]);
    }
  }

  // ----- feeding a run of body bytes at once -----

  lemma {:induction false} FeedBody(s: State, bytes: seq<Byte>)
    requires ValidPhase(s.phase) && s.phase.Body? && |s.phase.got| + |bytes| <= s.phase.expected && bytes != []
    ensures var full := s.phase.got + bytes;
            Feed(s, bytes) == if |full| == s.phase.expected then Fed(State(READY, s.rejected), [full])
                              else Fed(State(Body(s.phase.expected, full), s.rejected), [])
    decreases |bytes|
  {
    var first := FeedByte(s, bytes[0]);
    assert s.phase.got + bytes == (s.phase.got + [bytes[0]]) + bytes[1..];
    if |bytes| == 1 {
      assert s.phase.got + bytes == s.phase.got + [bytes[0]];
      assert Feed(first.state, []) == Fed(first.state, []);
      assert first.delivered + [] == first.delivered;
    } else {
      FeedBody(first.state, bytes[1..]);
    }
  }

  // ----- round trip -----

  ghost predicate Between(p: Phase) { p == READY || p == Body(0, []) }

  function NonEmpty(datagrams: seq<seq<Byte>>): seq<seq<Byte>> {
    if datagrams == [] then []
    else (if datagrams[0] == [] then [] else [datagrams[0]]) + NonEmpty(datagrams[1..])
  }

  function EncodeAll(datagrams: seq<seq<Byte>>): seq<Byte>
    requires forall d :: d in datagrams ==> |d| <= TCP_MAX_DATAGRAM_BYTES
  {
    if datagrams == [] then [] else Encode(datagrams[0]).value + EncodeAll(datagrams[1..])
  }

  lemma FeedPrefix(s: State, hi: Byte, lo: Byte)
    requires Between(s.phase)
    ensures Feed(s, [hi, lo]) == Fed(AfterPrefix(hi, lo, s.rejected), [])
  {
    var one := FeedByte(s, hi).state;
    assert one == State(Header([hi]), s.rejected);
    assert [hi, lo][1..] == [lo] && [lo][1..] == [];
    var two := FeedByte(one, lo);
    assert Feed(one, [lo]) == Fed(two.state, two.delivered + []);
  }

  lemma FeedDatagram(s: State, d: seq<Byte>)
    requires Between(s.phase) && |d| <= TCP_MAX_DATAGRAM_BYTES
    ensures var r := Feed(s, Encode(d).value);
            && Between(r.state.phase) && r.state.rejected == s.rejected
            && r.delivered == if d == [] then [] else [d]
  {
    var hi, lo := |d| / 256, |d| % 256;
    FeedPrefix(s, hi, lo);
    var mid := AfterPrefix(hi, lo, s.rejected);
    assert mid == State(Body(|d|, []), s.rejected);
    FeedConcat(s, [hi, lo], d);
    if d != [] {
      FeedBody(mid, d);
      assert [] + d == d;
    }
  }

  lemma {:induction false} FeedDatagrams(s: State, datagrams: seq<seq<Byte>>)
    requires Between(s.phase) && forall d :: d in datagrams ==> |d| <= TCP_MAX_DATAGRAM_BYTES
    ensures var r := Feed(s, EncodeAll(datagrams));
            Between(r.state.phase) && r.state.rejected == s.rejected && r.delivered == NonEmpty(datagrams)
    decreases |datagrams|
  {
    if datagrams != [] {
      FeedDatagram(s, datagrams[0]);
      FeedConcat(s, Encode(datagrams[0]).value, EncodeAll(datagrams[1..]));
      FeedDatagrams(Feed(s, Encode(datagrams[0]).value).state, datagrams[1..]);
    }
  }

  const FRESH: State := State(READY, 0)

  /**
   Round trip: however the stream of encoded datagrams is cut into pushes, exactly the non-empty
   datagrams come out, in order, and nothing is rejected.
   */
  lemma StreamRoundTrip(datagrams: seq<seq<Byte>>, chunks: seq<seq<Byte>>)
    requires forall d :: d in datagrams ==> |d| <= TCP_MAX_DATAGRAM_BYTES
    requires Concat(chunks) == EncodeAll(datagrams)
    ensures var r := FeedChunks(FRESH, chunks);
            r.delivered == NonEmpty(datagrams) && r.state.rejected == 0 && Between(r.state.phase)
  {
    ChunksDoNotMatter(FRESH, chunks);
    FeedDatagrams(FRESH, datagrams);
  }

  // ----- the wire, absolutely -----

  /** The layout: the length, high byte first, then at most 1 200 bytes. */
  lemma Layout(datagram: seq<Byte>)
    ensures Encode(datagram).None? <==> |datagram| > 1200
    ensures Encode(datagram).Some? ==>
              var e := Encode(datagram).value;
              |e| == 2 + |datagram| && e[2..] == datagram && (e[0] as int) * 256 + e[1] as int == |datagram|
  {
  }

  /**
   What the next two bytes mean for any stream read from between two frames: a length above 1 200 is counted and the
   stream read on behind it, a frame that is all there is delivered unless it is empty, one that is not is kept.
   */
  lemma NextFrame(s: State, bytes: seq<Byte>)
    requires Between(s.phase) && |bytes| >= 2
    ensures var n, rest := (bytes[0] as int) * 256 + bytes[1] as int, bytes[2..];
            && (n > 1200 ==> Feed(s, bytes) == Feed(State(READY, s.rejected + 1), rest))
            && (n == 0 ==> Feed(s, bytes) == Feed(State(Body(0, []), s.rejected), rest))
            && (0 < n <= 1200 && |rest| >= n ==>
                  var after := Feed(State(READY, s.rejected), rest[n..]);
                  Feed(s, bytes) == Fed(after.state, [rest[..n]] + after.delivered))
            && (0 < n <= 1200 && |rest| < n ==> Feed(s, bytes) == Fed(State(Body(n, rest), s.rejected), []))
  {
    hide FeedByte, Feed;
    FeedPrefix(s, bytes[0], bytes[1]);
    FeedConcat(s, bytes[..2], bytes[2..]);
    assert bytes[..2] == [bytes[0], bytes[1]] && bytes == bytes[..2] + bytes[2..];
    var mid := AfterPrefix(bytes[0], bytes[1], s.rejected);
    if mid.phase.Body? && mid.phase.expected > 0 {
      BodyRead(mid, bytes[2..]);
    }
  }

  lemma BodyRead(s: State, bytes: seq<Byte>)
    requires ValidPhase(s.phase) && s.phase.Body? && s.phase.got == [] && s.phase.expected > 0
    ensures var n := s.phase.expected;
            && (|bytes| < n ==> Feed(s, bytes) == Fed(State(Body(n, bytes), s.rejected), []))
            && (|bytes| >= n ==>
                  var after := Feed(State(READY, s.rejected), bytes[n..]);
                  Feed(s, bytes) == Fed(after.state, [bytes[..n]] + after.delivered))
  {
    hide FeedByte;
    var n := s.phase.expected;
    if |bytes| >= n {
      FeedBody(s, bytes[..n]);
      FeedConcat(s, bytes[..n], bytes[n..]);
      assert bytes == bytes[..n] + bytes[n..] && [] + bytes[..n] == bytes[..n];
    } else if bytes != [] {
      FeedBody(s, bytes);
      assert [] + bytes == bytes;
    }
  }

  // ----- the reassembler -----

  class TcpReassembler {
    var phase: Phase
    var oversizedRejected: nat

    ghost predicate Valid()
      reads this
    {
      ValidPhase(phase)
    }

    ghost function Value(): State
      reads this
    {
      State(phase, oversizedRejected)
    }

    constructor ()
      ensures Valid() && Value() == FRESH
    {
      phase, oversizedRejected := READY, 0;
    }

    /** Consumes the chunk in block copies; an announced empty body costs one round that reads no byte. */
    method Push(bytes: seq<Byte>) returns (completed: seq<seq<Byte>>)
      requires Valid()
      modifies this
      ensures Valid()
      ensures Fed(Value(), completed) == Feed(old(Value()), bytes)
    {
      completed := [];
      var pos := 0;
      while pos < |bytes|
        invariant pos <= |bytes| && Valid()
        invariant Feed(old(Value()), bytes) == Prefixed(completed, Feed(Value(), bytes[pos..]))
        decreases |bytes| - pos, if phase == Body(0, []) then 1 else 0
      {
        if phase.Header? {
          pos := ReadPrefix(bytes, pos);
        } else {
          completed, pos := ReadBody(bytes, pos, completed);
        }
      }
    }

    method ReadPrefix(bytes: seq<Byte>, start: nat) returns (pos: nat)
      requires Valid() && phase.Header? && start < |bytes|
      modifies this
      ensures Valid() && start < pos <= |bytes|
      ensures Feed(old(Value()), bytes[start..]) == Feed(Value(), bytes[pos..])
    {
      var need := TCP_LENGTH_PREFIX_BYTES - |phase.got|;
      var avail := |bytes| - start;
      var copy := if need < avail then need else avail;
      HeaderRound(Value(), bytes, start, copy);
      var buf := phase.got + bytes[start..start + copy];
      pos := start + copy;
      if |buf| == TCP_LENGTH_PREFIX_BYTES {
        var len := PrefixValue(buf[0], buf[1]);
        if len > TCP_MAX_DATAGRAM_BYTES {
          oversizedRejected := oversizedRejected + 1;
          phase := READY;
        } else {
          phase := Body(len, []);
        }
      } else {
        phase := Header(buf);
      }
    }

    method ReadBody(bytes: seq<Byte>, start: nat, earlier: seq<seq<Byte>>) returns (completed: seq<seq<Byte>>, pos: nat)
      requires Valid() && phase.Body? && start < |bytes|
      modifies this
      ensures Valid() && start <= pos <= |bytes| && (pos == start ==> old(phase) == Body(0, []) && phase == READY)
      ensures Prefixed(earlier, Feed(old(Value()), bytes[start..])) == Prefixed(completed, Feed(Value(), bytes[pos..]))
    {
      var need := phase.expected - |phase.got|;
      var avail := |bytes| - start;
      var copy := if need < avail then need else avail;
      BodyRound(Value(), bytes, start, copy);
      var buf := phase.got + bytes[start..start + copy];
      completed, pos := earlier, start + copy;
      ghost var more := if |buf| == phase.expected && phase.expected > 0 then [buf] else [];
      if |buf| == phase.expected {
        if phase.expected > 0 {
          completed := completed + [buf];
        }
        phase := READY;
      } else {
        phase := Body(phase.expected, buf);
      }
      PrefixedTwice(earlier, more, Feed(Value(), bytes[pos..]));
      assert completed == earlier + more;
    }
  }

  function Prefixed(earlier: seq<seq<Byte>>, f: Fed): Fed { Fed(f.state, earlier + f.delivered) }

  lemma SplitFeed(s: State, bytes: seq<Byte>, pos: nat, copy: nat)
    requires ValidPhase(s.phase) && pos + copy <= |bytes|
    ensures var first := Feed(s, bytes[pos..pos + copy]);
            Feed(s, bytes[pos..]) == Prefixed(first.delivered, Feed(first.state, bytes[pos + copy..]))
  {
    assert bytes[pos..] == bytes[pos..pos + copy] + bytes[pos + copy..];
    FeedConcat(s, bytes[pos..pos + copy], bytes[pos + copy..]);
  }

  lemma HeaderRound(s: State, bytes: seq<Byte>, pos: nat, copy: nat)
    requires ValidPhase(s.phase) && s.phase.Header? && 0 < copy && pos + copy <= |bytes|
    requires |s.phase.got| + copy <= TCP_LENGTH_PREFIX_BYTES
    ensures var buf := s.phase.got + bytes[pos..pos + copy];
            var next := if |buf| == TCP_LENGTH_PREFIX_BYTES then AfterPrefix(buf[0], buf[1], s.rejected)
                        else State(Header(buf), s.rejected);
            ValidPhase(next.phase) && Feed(s, bytes[pos..]) == Feed(next, bytes[pos + copy..])
  {
    FeedHeader(s, bytes[pos..pos + copy]);
    SplitFeed(s, bytes, pos, copy);
  }

  lemma BodyRound(s: State, bytes: seq<Byte>, pos: nat, copy: nat)
    requires ValidPhase(s.phase) && s.phase.Body? && pos < |bytes| && pos + copy <= |bytes|
    requires |s.phase.got| + copy <= s.phase.expected && (copy == 0 ==> s.phase.expected == 0)
    ensures var buf := s.phase.got + bytes[pos..pos + copy];
            var done := |buf| == s.phase.expected;
            var next := State(if done then READY else Body(s.phase.expected, buf), s.rejected);
            && ValidPhase(next.phase)
            && Feed(s, bytes[pos..])
               == Prefixed(if done && s.phase.expected > 0 then [buf] else [], Feed(next, bytes[pos + copy..]))
  {
    if copy > 0 {
      FeedBody(s, bytes[pos..pos + copy]);
      SplitFeed(s, bytes, pos, copy);
      hide Feed;
    } else {
      SkippedBody(s, bytes[pos..]);
    }
  }

  lemma PrefixedTwice(earlier: seq<seq<Byte>>, more: seq<seq<Byte>>, f: Fed)
    ensures Prefixed(earlier, Prefixed(more, f)) == Prefixed(earlier + more, f)
  {
  }

  /** An announced empty body changes nothing about what is read next. */
  lemma SkippedBody(s: State, bytes: seq<Byte>)
    requires s.phase == Body(0, []) && bytes != []
    ensures Feed(s, bytes) == Feed(State(READY, s.rejected), bytes)
  {
  }

  lemma FeedHeader(s: State, bytes: seq<Byte>)
    requires ValidPhase(s.phase) && s.phase.Header? && bytes != [] && |s.phase.got| + |bytes| <= TCP_LENGTH_PREFIX_BYTES
    ensures var buf := s.phase.got + bytes;
            Feed(s, bytes) == if |buf| == TCP_LENGTH_PREFIX_BYTES then Fed(AfterPrefix(buf[0], buf[1], s.rejected), [])
                              else Fed(State(Header(buf), s.rejected), [])
  {
    if |bytes| == 2 {
      assert bytes == [bytes[0], bytes[1]];
      FeedPrefix(s, bytes[0], bytes[1]);
    } else {
      var first := FeedByte(s, bytes[0]);
      assert bytes[1..] == [];
      assert first.delivered + [] == first.delivered;
    }
  }
}
