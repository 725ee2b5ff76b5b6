/** Participant ids and tagged candidate strings of a mesh room. */
module MeshNames {
  import opened Prelude

  type Id = string

  // ----- who initiates -----

  /** Lexicographic order on ids; the smaller id of a pair initiates. */
  predicate Less(a: Id, b: Id) {
    if b == "" then false
    else if a == "" then true
    else a[0] < b[0] || (a[0] == b[0] && Less(a[1..], b[1..]))
  }

  /** Of two different ids exactly one initiates. */
  lemma {:induction false} OneInitiator(a: Id, b: Id)
    requires a != b
    ensures Less(a, b) <==> !Less(b, a)
    decreases |a|
  {
    if a != "" && b != "" && a[0] == b[0] {
      assert a[1..] != b[1..] by {
        assert a == [a[0]] + a[1..] && b == [b[0]] + b[1..];
      }
      OneInitiator(a[1..], b[1..]);
    }
  }

  /** The ids agree before position `k`, where `a` ends or has the smaller character. */
  predicate SmallerAt(a: Id, b: Id, k: nat) {
    k <= |a| && k < |b| && a[..k] == b[..k] && (k == |a| || a[k] < b[k])
  }

  /** The initiator's id is a proper prefix of the other's or has the smaller character where they first differ. */
  lemma {:induction false} SmallerInitiates(a: Id, b: Id)
    ensures Less(a, b) <==> exists k: nat :: SmallerAt(a, b, k)
    decreases |a|
  {
    forall k: nat | 0 < k <= |a| && k <= |b| && a[..k] == b[..k] ensures a[0] == b[0] {
      assert a[0] == a[..k][0] && b[0] == b[..k][0];
    }
    if a != "" && b != "" && a[0] == b[0] {
      SmallerInitiates(a[1..], b[1..]);
      if Less(a, b) {
        var k: nat :| SmallerAt(a[1..], b[1..], k);
        assert a[..k + 1] == [a[0]] + a[1..][..k] && b[..k + 1] == [b[0]] + b[1..][..k];
        assert SmallerAt(a, b, k + 1);
      }
      if k: nat :| SmallerAt(a, b, k) {
        assert k > 0 && a[1..][..k - 1] == a[..k][1..] && b[1..][..k - 1] == b[..k][1..];
        assert SmallerAt(a[1..], b[1..], k - 1);
      }
    } else if Less(a, b) {
      assert SmallerAt(a, b, 0);
    }
  }

  // ----- tagged candidates -----

  /** Socket addresses in text form: digits, dots, colons, brackets and hex letters, so never a 'u'. */
  predicate IsAddr(s: string) { s != "" && forall k :: 0 <= k < |s| ==> s[k] != 'u' }

  function Tag(peer: Id): string { "mesh:" + peer + ":udp:" }

  function CandidateFor(peer: Id, addr: string): string { Tag(peer) + addr }

  function StripPrefix(s: string, prefix: string): Option<string> {
    if |prefix| <= |s| && s[..|prefix|] == prefix then Some(s[|prefix|..]) else None
  }

  /** The address this candidate offers to `me`, if it is tagged for `me` and parses. */
  function AddrFor(cand: string, me: Id): Option<string> {
    var rest := StripPrefix(cand, Tag(me));
    if rest.Some? && IsAddr(rest.value) then rest else None
  }

  function FindAddr(cands: seq<string>, me: Id): Option<string> {
    if cands == [] then None
    else if AddrFor(cands[0], me).Some? then AddrFor(cands[0], me)
    else FindAddr(cands[1..], me)
  }

  /** Position of the 'u' in the tag. */
  lemma TagMark(peer: Id)
    ensures |Tag(peer)| == |peer| + 10 && Tag(peer)[|peer| + 6] == 'u'
    ensures forall k :: |peer| + 6 < k < |Tag(peer)| ==> Tag(peer)[k] != 'u'
    ensures Tag(peer)[..5] == "mesh:" && Tag(peer)[5..|peer| + 5] == peer && Tag(peer)[|peer| + 5..] == ":udp:"
  {
  }

  /**
   Whatever characters ids contain, a candidate yields an address to `me` exactly when it was tagged for
   `me`: the last 'u' of the string marks where the id ends.
   */
  lemma CandidateIsUnambiguous(peer: Id, addr: string, me: Id)
    requires IsAddr(addr)
    ensures AddrFor(CandidateFor(peer, addr), me) == if peer == me then Some(addr) else None
  {
    var c := CandidateFor(peer, addr);
    TagMark(peer);
    TagMark(me);
    assert c[..|Tag(peer)|] == Tag(peer) && c[|Tag(peer)|..] == addr;
    assert forall k :: |peer| + 6 < k < |c| ==> c[k] != 'u' by {
      assert forall k :: |Tag(peer)| <= k < |c| ==> c[k] == addr[k - |Tag(peer)|];
      assert forall k :: 0 <= k < |Tag(peer)| ==> c[k] == Tag(peer)[k];
    }
    var rest := StripPrefix(c, Tag(me));
    if rest.Some? && IsAddr(rest.value) {
      assert forall k :: 0 <= k < |Tag(me)| ==> c[k] == Tag(me)[k];
      assert forall k :: |me| + 6 < k < |c| ==> c[k] != 'u' by {
        assert forall k :: |Tag(me)| <= k < |c| ==> c[k] == rest.value[k - |Tag(me)|];
      }
      assert c[|me| + 6] == 'u' && c[|peer| + 6] == 'u';
      assert |me| == |peer|;
      assert peer == c[5..|peer| + 5] == me by {
        assert c[5..|peer| + 5] == Tag(peer)[5..|peer| + 5];
        assert c[5..|me| + 5] == Tag(me)[5..|me| + 5];
      }
    }
  }

  /** A candidate before it is written out: the peer it is meant for and the socket's address. */
  datatype Tagged<+K, +A> = Tagged(peer: K, addr: A)

  /** The first address tagged for `me`. */
  function Lookup<K(==), A>(cands: seq<Tagged<K, A>>, me: K): Option<A> {
    if cands == [] then None
    else if cands[0].peer == me then Some(cands[0].addr)
    else Lookup(cands[1..], me)
  }

  function Written(cands: seq<Tagged<Id, string>>): seq<string> {
    seq(|cands|, i requires 0 <= i < |cands| => CandidateFor(cands[i].peer, cands[i].addr))
  }

  /** Searching the strings on the board is looking up the tag, for every choice of ids. */
  lemma {:induction false} SearchIsLookup(cands: seq<Tagged<Id, string>>, me: Id)
    requires forall i :: 0 <= i < |cands| ==> IsAddr(cands[i].addr)
    ensures FindAddr(Written(cands), me) == Lookup(cands, me)
    decreases |cands|
  {
    if cands != [] {
      CandidateIsUnambiguous(cands[0].peer, cands[0].addr, me);
      assert Written(cands)[1..] == Written(cands[1..]);
      SearchIsLookup(cands[1..], me);
    }
  }
}
