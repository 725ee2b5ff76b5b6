/** The wire codec of file-transfer frames. */
module XferCodec {
  import opened Prelude

  const FRAGMENT_LEN: nat := 1024
  const MAX_FRAGMENTS: nat := 1_048_576
  const KIND_OFFER: Byte := 0x10
  const KIND_FRAGMENT: Byte := 0x11
  const KIND_COMPLETE: Byte := 0x12
  const HASH_LEN: nat := 32

  type Hash = seq<Byte>

  /** File names are held as their bytes. */
  datatype Frame =
    | Offer(name: seq<Byte>, totalBytes: nat, fragHashes: seq<Hash>, wholeHash: Hash)
    | Fragment(index: nat, data: seq<Byte>)
    | Complete

  datatype DecodeError = Truncated | TooLarge | UnknownKind(kind: Byte)

  /** What the field types of a frame guarantee: 64- and 32-bit numbers, 32-byte hashes, text names. */
  ghost predicate Typed(utf8: seq<Byte> -> bool, f: Frame) {
    match f
    case Offer(name, total, hashes, whole) =>
      && utf8(name) && total < Pow256(8) && |whole| == HASH_LEN
      && forall i :: 0 <= i < |hashes| ==> |hashes[i]| == HASH_LEN
    case Fragment(index, _) => index < Pow256(4)
    case Complete => true
  }

  function Flatten(hashes: seq<Hash>): seq<Byte> {
    if hashes == [] then [] else hashes[0] + Flatten(hashes[1..])
  }

  /** Lengths are cast to the width of their field, which drops high bits. */
  function Encode(f: Frame): seq<Byte> {
    match f
    case Offer(name, total, hashes, whole) =>
      [KIND_OFFER] + (ToLe(|name|, 2) + (name + (ToLe(total, 8) + (ToLe(|hashes|, 4) + (Flatten(hashes) + whole)))))
    case Fragment(index, data) => [KIND_FRAGMENT] + (ToLe(index, 4) + (ToLe(|data|, 2) + data))
    case Complete => [KIND_COMPLETE]
  }

  // ----- decoding with a cursor -----

  datatype Taken<T> = Taken(value: T, rest: seq<Byte>) | Short

  function Take(rest: seq<Byte>, n: nat): Taken<seq<Byte>> {
    if |rest| < n then Short else Taken(rest[..n], rest[n..])
  }

  function TakeNumber(rest: seq<Byte>, width: nat): Taken<nat> {
    match Take(rest, width)
    case Short => Short
    case Taken(h, t) => Taken(FromLe(h), t)
  }

  function TakeHashes(rest: seq<Byte>, count: nat): (r: Taken<seq<Hash>>)
    ensures r.Taken? ==> |r.value| == count
  {
    if count == 0 then Taken([], rest)
    else
      match Take(rest, HASH_LEN)
      case Short => Short
      case Taken(h, t) =>
        match TakeHashes(t, count - 1)
        case Short => Short
        case Taken(hs, u) => Taken([h] + hs, u)
  }

  function DecodeOffer(utf8: seq<Byte> -> bool, rest: seq<Byte>): Result<Frame, DecodeError> {
    match TakeNumber(rest, 2)
    case Short => Err(Truncated)
    case Taken(nameLen, r1) =>
      match Take(r1, nameLen)
      case Short => Err(Truncated)
      case Taken(name, r2) =>
        if !utf8(name) then Err(Truncated)
        else
          match TakeNumber(r2, 8)
          case Short => Err(Truncated)
          case Taken(total, r3) =>
            match TakeNumber(r3, 4)
            case Short => Err(Truncated)
            case Taken(count, r4) =>
              if count > MAX_FRAGMENTS then Err(TooLarge)
              else
                match TakeHashes(r4, count)
                case Short => Err(Truncated)
                case Taken(hashes, r5) =>
                  match Take(r5, HASH_LEN)
                  case Short => Err(Truncated)
                  case Taken(whole, _) => Ok(Offer(name, total, hashes, whole))
  }

  function DecodeFragment(rest: seq<Byte>): Result<Frame, DecodeError> {
    match TakeNumber(rest, 4)
    case Short => Err(Truncated)
    case Taken(index, r1) =>
      match TakeNumber(r1, 2)
      case Short => Err(Truncated)
      case Taken(len, r2) =>
        if len > FRAGMENT_LEN then Err(TooLarge)
        else
          match Take(r2, len)
          case Short => Err(Truncated)
          case Taken(data, _) => Ok(Fragment(index, data))
  }

  function Decode(utf8: seq<Byte> -> bool, buf: seq<Byte>): Result<Frame, DecodeError> {
    if buf == [] then Err(Truncated)
    else if buf[0] == KIND_OFFER then DecodeOffer(utf8, buf[1..])
    else if buf[0] == KIND_FRAGMENT then DecodeFragment(buf[1..])
    else if buf[0] == KIND_COMPLETE then Ok(Complete)
    else Err(UnknownKind(buf[0]))
  }

  // ----- the codec's exact domain -----

  /** A caller can check this before encoding: the name fits 16 bits of length, the rest fits the caps. */
  predicate Encodable(f: Frame) {
    match f
    case Offer(name, _, hashes, _) => |name| < 0x1_0000 && |hashes| <= MAX_FRAGMENTS
    case Fragment(_, data) => |data| <= FRAGMENT_LEN
    case Complete => true
  }

  lemma {:induction false} FromLeBound(s: seq<Byte>)
    ensures FromLe(s) < Pow256(|s|)
  {
    if s != [] {
      FromLeBound(s[1..]);
    }
  }

  lemma Widths()
    ensures Pow256(2) == 0x1_0000 && Pow256(4) == 0x1_0000_0000
  {
  }

  /** Whatever bytes arrive, a decoded frame is within the caps. */
  lemma DecodedIsEncodable(utf8: seq<Byte> -> bool, buf: seq<Byte>)
    requires Decode(utf8, buf).Ok?
    ensures Encodable(Decode(utf8, buf).value)
  {
    if buf[0] == KIND_OFFER {
      FromLeBound(buf[1..][..2]);
      Widths();
    }
  }

  lemma TakeWritten(head: seq<Byte>, tail: seq<Byte>)
    ensures Take(head + tail, |head|) == Taken(head, tail)
  {
  }

  lemma TakeNumberWritten(n: nat, width: nat, tail: seq<Byte>)
    requires n < Pow256(width)
    ensures TakeNumber(ToLe(n, width) + tail, width) == Taken(n, tail)
  {
    TakeWritten(ToLe(n, width), tail);
    LeExact(n, width);
  }

  lemma {:induction false} TakeHashesWritten(hashes: seq<Hash>, tail: seq<Byte>)
    requires forall i :: 0 <= i < |hashes| ==> |hashes[i]| == HASH_LEN
    ensures TakeHashes(Flatten(hashes) + tail, |hashes|) == Taken(hashes, tail)
    decreases |hashes|
  {
    if hashes == [] {
      assert Flatten(hashes) + tail == tail;
    } else {
      TakeHashesWritten(hashes[1..], tail);
      assert Flatten(hashes) + tail == hashes[0] + (Flatten(hashes[1..]) + tail);
      TakeWritten(hashes[0], Flatten(hashes[1..]) + tail);
      assert [hashes[0]] + hashes[1..] == hashes;
    }
  }

  lemma Regroup(a: seq<Byte>, b: seq<Byte>, c: seq<Byte>)
    ensures (a + b) + c == a + (b + c)
  {
  }

  lemma OfferLayout(f: Frame, tail: seq<Byte>)
    requires f.Offer?
    ensures Encode(f)[1..] + tail
         == ToLe(|f.name|, 2)
            + (f.name
               + (ToLe(f.totalBytes, 8) + (ToLe(|f.fragHashes|, 4) + (Flatten(f.fragHashes) + (f.wholeHash + tail)))))
  {
    hide ToLe, Flatten;
    var b5 := Flatten(f.fragHashes) + f.wholeHash;
    var b4 := ToLe(|f.fragHashes|, 4) + b5;
    var b3 := ToLe(f.totalBytes, 8) + b4;
    var b2 := f.name + b3;
    assert Encode(f)[1..] == ToLe(|f.name|, 2) + b2;
    Regroup(ToLe(|f.name|, 2), b2, tail);
    Regroup(f.name, b3, tail);
    Regroup(ToLe(f.totalBytes, 8), b4, tail);
    Regroup(ToLe(|f.fragHashes|, 4), b5, tail);
    Regroup(Flatten(f.fragHashes), f.wholeHash, tail);
  }

  lemma OfferRoundTrip(utf8: seq<Byte> -> bool, f: Frame, tail: seq<Byte>)
    requires f.Offer? && Typed(utf8, f) && Encodable(f)
    ensures DecodeOffer(utf8, Encode(f)[1..] + tail) == Ok(f)
  {
    OfferLayout(f, tail);
    hide Encode, Take, TakeNumber, TakeHashes, ToLe, FromLe, Flatten, Pow256;
    var Offer(name, total, hashes, whole) := f;
    var t5 := whole + tail;
    var t4 := Flatten(hashes) + t5;
    var t3 := ToLe(|hashes|, 4) + t4;
    var t2 := ToLe(total, 8) + t3;
    Widths();
    TakeNumberWritten(|name|, 2, name + t2);
    TakeWritten(name, t2);
    TakeNumberWritten(total, 8, t3);
    TakeNumberWritten(|hashes|, 4, t4);
    TakeHashesWritten(hashes, t5);
    TakeWritten(whole, tail);
  }

  lemma FragmentRoundTrip(utf8: seq<Byte> -> bool, f: Frame, tail: seq<Byte>)
    requires f.Fragment? && Typed(utf8, f) && Encodable(f)
    ensures DecodeFragment(Encode(f)[1..] + tail) == Ok(f)
  {
    var t2 := f.data + tail;
    var t1 := ToLe(|f.data|, 2) + t2;
    assert Encode(f)[1..] + tail == ToLe(f.index, 4) + t1;
    Widths();
    TakeNumberWritten(f.index, 4, t1);
    TakeNumberWritten(|f.data|, 2, t2);
    TakeWritten(f.data, tail);
  }

  lemma KindComesFirst(f: Frame, tail: seq<Byte>)
    ensures var buf := Encode(f) + tail;
            && buf != [] && Encode(f) != [] && buf[1..] == Encode(f)[1..] + tail
            && buf[0] == (match f
                          case Offer(_, _, _, _) => KIND_OFFER
                          case Fragment(_, _) => KIND_FRAGMENT
                          case Complete => KIND_COMPLETE)
  {
    hide ToLe, Flatten;
  }

  /** A frame survives the wire, whatever bytes follow it, exactly when it is encodable. */
  lemma RoundTripExactly(utf8: seq<Byte> -> bool, f: Frame, tail: seq<Byte>)
    requires Typed(utf8, f)
    ensures Decode(utf8, Encode(f) + tail) == Ok(f) <==> Encodable(f)
  {
    var buf := Encode(f) + tail;
    KindComesFirst(f, tail);
    hide Encode, DecodeOffer, DecodeFragment, Typed;
    if Encodable(f) {
      match f {
        case Offer(_, _, _, _) => OfferRoundTrip(utf8, f, tail);
        case Fragment(_, _) => FragmentRoundTrip(utf8, f, tail);
        case Complete =>
      }
    } else if Decode(utf8, buf).Ok? {
      DecodedIsEncodable(utf8, buf);
    }
  }

  // ----- decoding read backwards -----

  /** What was taken off the front is there, and a number taken is in the width it was read from. */
  lemma NumberTaken(rest: seq<Byte>, width: nat)
    requires TakeNumber(rest, width).Taken?
    ensures var t := TakeNumber(rest, width);
            t.value < Pow256(width) && rest == ToLe(t.value, width) + t.rest
  {
    ToLeFromLe(rest[..width]);
    FromLeBound(rest[..width]);
  }

  lemma BytesTaken(rest: seq<Byte>, n: nat)
    requires Take(rest, n).Taken?
    ensures var t := Take(rest, n); |t.value| == n && rest == t.value + t.rest
  {
  }

  lemma {:induction false} HashesTaken(rest: seq<Byte>, count: nat)
    requires TakeHashes(rest, count).Taken?
    ensures var t := TakeHashes(rest, count);
            && |t.value| == count && rest == Flatten(t.value) + t.rest
            && forall i :: 0 <= i < |t.value| ==> |t.value[i]| == HASH_LEN
  {
    if count > 0 {
      BytesTaken(rest, HASH_LEN);
      var first := Take(rest, HASH_LEN);
      HashesTaken(first.rest, count - 1);
      var more := TakeHashes(first.rest, count - 1);
      assert ([first.value] + more.value)[1..] == more.value;
      Regroup(first.value, Flatten(more.value), more.rest);
    }
  }

  lemma OfferRead(utf8: seq<Byte> -> bool, rest: seq<Byte>)
    requires DecodeOffer(utf8, rest).Ok?
    ensures var f := DecodeOffer(utf8, rest).value;
            f.Offer? && Typed(utf8, f) && exists tail :: rest == Encode(f)[1..] + tail
  {
    hide Take, TakeNumber, TakeHashes, ToLe, FromLe, Flatten, Pow256, Encode;
    var n1 := TakeNumber(rest, 2);
    NumberTaken(rest, 2);
    var n2 := Take(n1.rest, n1.value);
    BytesTaken(n1.rest, n1.value);
    var n3 := TakeNumber(n2.rest, 8);
    NumberTaken(n2.rest, 8);
    var n4 := TakeNumber(n3.rest, 4);
    NumberTaken(n3.rest, 4);
    var n5 := TakeHashes(n4.rest, n4.value);
    HashesTaken(n4.rest, n4.value);
    var n6 := Take(n5.rest, HASH_LEN);
    BytesTaken(n5.rest, HASH_LEN);
    OfferLayout(Offer(n2.value, n3.value, n5.value, n6.value), n6.rest);
  }

  lemma FragmentRead(utf8: seq<Byte> -> bool, rest: seq<Byte>)
    requires DecodeFragment(rest).Ok?
    ensures var f := DecodeFragment(rest).value;
            f.Fragment? && Typed(utf8, f) && exists tail :: rest == Encode(f)[1..] + tail
  {
    var n1 := TakeNumber(rest, 4);
    NumberTaken(rest, 4);
    var n2 := TakeNumber(n1.rest, 2);
    NumberTaken(n1.rest, 2);
    var n3 := Take(n2.rest, n2.value);
    BytesTaken(n2.rest, n2.value);
    hide Take, TakeNumber, ToLe, FromLe, Pow256;
    var f := Fragment(n1.value, n3.value);
    assert Encode(f)[1..] == ToLe(n1.value, 4) + (ToLe(n2.value, 2) + n3.value);
    Regroup(ToLe(n1.value, 4), ToLe(n2.value, 2) + n3.value, n3.rest);
    Regroup(ToLe(n2.value, 2), n3.value, n3.rest);
  }

  /** Whatever bytes decode to a frame begin with that frame's encoding. */
  lemma DecodedWasEncoded(utf8: seq<Byte> -> bool, buf: seq<Byte>)
    requires Decode(utf8, buf).Ok?
    ensures Typed(utf8, Decode(utf8, buf).value) && Encode(Decode(utf8, buf).value) <= buf
  {
    var f := Decode(utf8, buf).value;
    var tail: seq<Byte>;
    if buf[0] == KIND_OFFER {
      OfferRead(utf8, buf[1..]);
      hide DecodeOffer, DecodeFragment, Typed;
      tail :| buf[1..] == Encode(f)[1..] + tail;
    } else if buf[0] == KIND_FRAGMENT {
      FragmentRead(utf8, buf[1..]);
      hide DecodeOffer, DecodeFragment, Typed;
      tail :| buf[1..] == Encode(f)[1..] + tail;
    } else {
      tail := buf[1..];
    }
    KindComesFirst(f, tail);
    assert buf == [buf[0]] + buf[1..];
    assert Encode(f) + tail == buf;
  }

  /**
   Exact inverse: bytes decode to a frame if and only if the frame is within its types and the caps and the
   bytes begin with its encoding.
   */
  lemma DecodesExactly(utf8: seq<Byte> -> bool, buf: seq<Byte>, f: Frame)
    ensures Decode(utf8, buf) == Ok(f) <==> Typed(utf8, f) && Encodable(f) && Encode(f) <= buf
  {
    hide Decode, Encode, Typed;
    if Decode(utf8, buf) == Ok(f) {
      DecodedIsEncodable(utf8, buf);
      DecodedWasEncoded(utf8, buf);
    }
    if Typed(utf8, f) && Encodable(f) && Encode(f) <= buf {
      RoundTripExactly(utf8, f, buf[|Encode(f)|..]);
      assert Encode(f) + buf[|Encode(f)|..] == buf;
    }
  }

  // ----- the bytes, absolutely -----

  /** The bytes hold `n` in `width` octets from position `at` on, the lowest first. */
  predicate NumberAt(bytes: seq<Byte>, at: nat, n: nat, width: nat) {
    at + width <= |bytes| && forall i :: 0 <= i < width ==> bytes[at..at + width][i] == (n / Pow256(i)) % 256
  }

  lemma NumberWritten(head: seq<Byte>, n: nat, width: nat, tail: seq<Byte>)
    ensures NumberAt(head + (ToLe(n, width) + tail), |head|, n, width)
  {
    var bytes := head + (ToLe(n, width) + tail);
    assert bytes[|head|..|head| + width] == ToLe(n, width);
    forall i | 0 <= i < width ensures ToLe(n, width)[i] == (n / Pow256(i)) % 256 {
      LeDigits(n, width, i);
    }
  }

  lemma {:induction false} HashesWritten(hashes: seq<Hash>, i: nat)
    requires forall i :: 0 <= i < |hashes| ==> |hashes[i]| == HASH_LEN
    ensures |Flatten(hashes)| == 32 * |hashes|
    ensures i < |hashes| ==> Flatten(hashes)[32 * i..32 * i + 32] == hashes[i]
    decreases |hashes|
  {
    if hashes != [] {
      var rest := Flatten(hashes[1..]);
      HashesWritten(hashes[1..], if i == 0 then 0 else i - 1);
      if i == 0 {
        assert Flatten(hashes)[0..32] == hashes[0];
      } else if i < |hashes| {
        assert Flatten(hashes)[32 * i..32 * i + 32] == rest[32 * (i - 1)..32 * (i - 1) + 32];
      }
    }
  }

  /** A fragment on the wire: 0x11, the index in four octets, the length in two, the data. */
  lemma FragmentBytes(index: nat, data: seq<Byte>)
    ensures var e := Encode(Fragment(index, data));
            && |e| == 7 + |data| && e[0] == 0x11 && NumberAt(e, 1, index, 4) && NumberAt(e, 5, |data|, 2)
            && e[7..] == data && Encode(Complete) == [0x12]
  {
    var e := Encode(Fragment(index, data));
    NumberWritten([KIND_FRAGMENT], index, 4, ToLe(|data|, 2) + data);
    NumberWritten([KIND_FRAGMENT] + ToLe(index, 4), |data|, 2, data);
    assert e == [KIND_FRAGMENT] + ToLe(index, 4) + (ToLe(|data|, 2) + data);
  }

  /**
   An offer on the wire: 0x10, the name's length in two octets and the name, the size in eight, the number of hashes in
   four, the hashes in order, and the hash of the whole.
   */
  lemma OfferBytes(f: Frame, i: nat)
    requires f.Offer? && (forall i :: 0 <= i < |f.fragHashes| ==> |f.fragHashes[i]| == HASH_LEN)
    requires |f.wholeHash| == HASH_LEN
    ensures var e, n, k := Encode(f), |f.name|, |f.fragHashes|;
            && |e| == n + 32 * k + 47 && e[0] == 0x10 && NumberAt(e, 1, n, 2) && e[3..n + 3] == f.name
            && NumberAt(e, n + 3, f.totalBytes, 8) && NumberAt(e, n + 11, k, 4)
            && (i < k ==> e[n + 15 + 32 * i..n + 47 + 32 * i] == f.fragHashes[i])
            && e[n + 15 + 32 * k..] == f.wholeHash
  {
    hide NumberAt, ToLe, Flatten;
    var e, n, k := Encode(f), |f.name|, |f.fragHashes|;
    HashesWritten(f.fragHashes, i);
    var t4 := Flatten(f.fragHashes) + f.wholeHash;
    var t3 := ToLe(k, 4) + t4;
    var t2 := ToLe(f.totalBytes, 8) + t3;
    var h1 := [KIND_OFFER] + ToLe(n, 2);
    var h2 := h1 + f.name;
    var h3 := h2 + ToLe(f.totalBytes, 8);
    NumberWritten([KIND_OFFER], n, 2, f.name + t2);
    NumberWritten(h2, f.totalBytes, 8, t3);
    NumberWritten(h3, k, 4, t4);
    assert e == h1 + (f.name + t2) == h2 + t2 == h3 + t3 == h3 + ToLe(k, 4) + t4;
    OfferHashes(h3 + ToLe(k, 4), f.fragHashes, f.wholeHash, i);
  }

  lemma OfferHashes(head: seq<Byte>, hashes: seq<Hash>, whole: Hash, i: nat)
    requires |Flatten(hashes)| == 32 * |hashes|
    requires i < |hashes| ==> Flatten(hashes)[32 * i..32 * i + 32] == hashes[i]
    ensures var e, at := head + (Flatten(hashes) + whole), |head|;
            && (i < |hashes| ==> e[at + 32 * i..at + 32 * i + 32] == hashes[i])
            && e[at + 32 * |hashes|..] == whole
  {
    hide Flatten;
    var e, at := head + (Flatten(hashes) + whole), |head|;
    if i < |hashes| {
      assert e[at + 32 * i..at + 32 * i + 32] == Flatten(hashes)[32 * i..32 * i + 32];
    }
  }

  /** Which bytes are refused for their first one: none at all, and every kind but the three. */
  lemma KindsRefused(utf8: seq<Byte> -> bool, buf: seq<Byte>, kind: Byte)
    ensures buf == [] ==> Decode(utf8, buf) == Err(Truncated)
    ensures Decode(utf8, buf) == Err(UnknownKind(kind))
       <==> buf != [] && buf[0] == kind && kind != 0x10 && kind != 0x11 && kind != 0x12
  {
    hide Take, TakeNumber, TakeHashes;
  }

  /** A fragment is read from its fixed places, and refused if it announces over 1 024 bytes or ends too soon. */
  lemma FragmentReadExactly(utf8: seq<Byte> -> bool, buf: seq<Byte>)
    requires buf != [] && buf[0] == 0x11
    ensures var r := Decode(utf8, buf);
            if |buf| < 7 then r == Err(Truncated)
            else
              var n := FromLe(buf[5..7]);
              if n > 1024 then r == Err(TooLarge)
              else if |buf| < 7 + n then r == Err(Truncated)
              else r == Ok(Fragment(FromLe(buf[1..5]), buf[7..7 + n]))
  {
    hide FromLe;
    var rest := buf[1..];
    if |buf| >= 7 {
      assert rest[..4] == buf[1..5] && rest[4..][..2] == buf[5..7] && rest[4..][2..] == buf[7..];
      var n := FromLe(buf[5..7]);
      if |buf| >= 7 + n {
        assert buf[7..][..n] == buf[7..7 + n];
      }
    }
  }

  /** An offer that announces over 2^20 hashes is refused as too large once its name has been read, and no other is. */
  lemma OfferTooLargeExactly(utf8: seq<Byte> -> bool, buf: seq<Byte>)
    requires buf != [] && buf[0] == 0x10
    ensures Decode(utf8, buf) == Err(TooLarge)
       <==> && |buf| >= 3
            && var at := 3 + FromLe(buf[1..3]);
               |buf| >= at + 12 && utf8(buf[3..at]) && FromLe(buf[at + 8..at + 12]) > 1_048_576
    ensures Decode(utf8, buf).Err? ==> Decode(utf8, buf) == Err(TooLarge) || Decode(utf8, buf) == Err(Truncated)
  {
    hide FromLe, TakeHashes;
    var rest := buf[1..];
    if |buf| >= 3 {
      var n := FromLe(buf[1..3]);
      assert rest[..2] == buf[1..3] && rest[2..] == buf[3..];
      if |buf| >= 3 + n {
        var r2 := buf[3..][n..];
        assert buf[3..][..n] == buf[3..3 + n] && r2 == buf[3 + n..];
        if |buf| >= n + 15 {
          assert r2[8..] == buf[n + 11..] && r2[8..][..4] == buf[n + 11..n + 15];
        }
      }
    }
  }

  /** Outside that domain a frame really is lost: a name of 65 536 bytes does not come back. */
  lemma LongNameIsLost(utf8: seq<Byte> -> bool, name: seq<Byte>, whole: Hash)
    requires |name| == 0x1_0000 && utf8(name) && |whole| == HASH_LEN
    ensures Decode(utf8, Encode(Offer(name, 0, [], whole))) != Ok(Offer(name, 0, [], whole))
  {
    hide Encode, Decode;
    var f := Offer(name, 0, [], whole);
    RoundTripExactly(utf8, f, []);
    assert Encode(f) + [] == Encode(f);
  }
}
