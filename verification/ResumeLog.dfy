/**
 The progress part of a transfer's resume file: four-byte entries appended one per delivered fragment, replayed on
 open.  A crash can cut the last entry short; the file is reopened for appending without being cut back.
 */
module ResumeLog {
  import opened Prelude

  const PROGRESS_ENTRY_LEN: nat := 4

  function Remaining(n: nat, delivered: set<nat>): set<nat> { set i | 0 <= i < n && i !in delivered }

  function Entry(index: nat): (e: seq<Byte>)
    ensures |e| == PROGRESS_ENTRY_LEN
  {
    ToLe(index, PROGRESS_ENTRY_LEN)
  }

  /** An entry names a fragment of this transfer, or nothing when it is out of range. */
  function Named(entry: seq<Byte>, n: nat): set<nat> { if FromLe(entry) < n then {FromLe(entry)} else {} }

  /** Replaying the entries of a transfer of `n` fragments; a partial entry at the end is dropped. */
  function Load(log: seq<Byte>, n: nat): set<nat> {
    if |log| < PROGRESS_ENTRY_LEN then {}
    else Named(log[..PROGRESS_ENTRY_LEN], n) + Load(log[PROGRESS_ENTRY_LEN..], n)
  }

  predicate Aligned(log: seq<Byte>) { |log| % PROGRESS_ENTRY_LEN == 0 }

  function Whole(log: seq<Byte>): seq<Byte> { log[..|log| - |log| % PROGRESS_ENTRY_LEN] }

  /** The bytes of a cut entry left at the end. */
  function Residue(log: seq<Byte>): seq<Byte> { log[|log| - |log| % PROGRESS_ENTRY_LEN..] }

  /** The one index whose entry, shifted behind the residue, still reads as itself: the residue repeated. */
  function Echo(residue: seq<Byte>): nat
    requires residue != []
  {
    FromLe((residue + residue + residue + residue)[..PROGRESS_ENTRY_LEN])
  }

  /** Appending to this log keeps what is appended: no residue, or nothing left to append but the echo. */
  predicate Safe(log: seq<Byte>, n: nat) {
    Aligned(log) || Remaining(n, Load(log, n)) <= {Echo(Residue(log))}
  }

  /** Appending this much of an entry completes one that reads as something else than what it records. */
  predicate Spoils(log: seq<Byte>, index: nat, written: nat) {
    !Aligned(log) && index != Echo(Residue(log)) && |Residue(log)| + written >= PROGRESS_ENTRY_LEN
  }

  /** Indices are 32-bit numbers. */
  const INDEX_LIMIT: nat := 0x1_0000_0000

  lemma EntryRoundTrip(index: nat)
    requires index < INDEX_LIMIT
    ensures FromLe(Entry(index)) == index
  {
    assert Pow256(2) == 0x1_0000;
    assert Pow256(4) == 0x1_0000 * Pow256(2);
    LeExact(index, PROGRESS_ENTRY_LEN);
  }

  // ----- replay -----

  lemma {:induction false} LoadConcat(a: seq<Byte>, b: seq<Byte>, n: nat)
    requires Aligned(a)
    ensures Load(a + b, n) == Load(a, n) + Load(b, n)
    decreases |a|
  {
    if a == [] {
      assert a + b == b;
    } else {
      assert (a + b)[..4] == a[..4] && (a + b)[4..] == a[4..] + b;
      LoadConcat(a[4..], b, n);
    }
  }

  lemma LoadOne(entry: seq<Byte>, rest: seq<Byte>, n: nat)
    requires |entry| == PROGRESS_ENTRY_LEN && |rest| < PROGRESS_ENTRY_LEN
    ensures Load(entry + rest, n) == Named(entry, n)
  {
    assert (entry + rest)[..4] == entry && (entry + rest)[4..] == rest;
    assert Load(rest, n) == {};
  }

  /** The residue does not count. */
  lemma LoadWhole(log: seq<Byte>, n: nat)
    ensures Load(log, n) == Load(Whole(log), n)
  {
    assert log == Whole(log) + Residue(log);
    LoadConcat(Whole(log), Residue(log), n);
    assert Load(Residue(log), n) == {};
  }

  /** Bytes appended to a log are read behind its residue. */
  lemma LoadAppended(log: seq<Byte>, more: seq<Byte>, n: nat)
    ensures Load(log + more, n) == Load(log, n) + Load(Residue(log) + more, n)
  {
    assert log + more == Whole(log) + (Residue(log) + more);
    LoadConcat(Whole(log), Residue(log) + more, n);
    LoadWhole(log, n);
  }

  /** What an entry behind this residue reads as. */
  function ReadBehind(residue: seq<Byte>, index: nat): seq<Byte> { (residue + Entry(index))[..PROGRESS_ENTRY_LEN] }

  lemma LoadRecorded(log: seq<Byte>, index: nat, n: nat)
    ensures Load(log + Entry(index), n) == Load(log, n) + Named(ReadBehind(Residue(log), index), n)
  {
    var r, e := Residue(log), Entry(index);
    LoadAppended(log, e, n);
    assert r + e == (r + e)[..4] + (r + e)[4..];
    LoadOne((r + e)[..4], (r + e)[4..], n);
  }

  lemma EchoIsUnique(residue: seq<Byte>, index: nat)
    requires 0 < |residue| < PROGRESS_ENTRY_LEN && index < INDEX_LIMIT
    ensures FromLe(ReadBehind(residue, index)) == index <==> index == Echo(residue)
  {
    var e, x, y := Entry(index), ReadBehind(residue, index), (residue + residue + residue + residue)[..4];
    EntryRoundTrip(index);
    ToLeFromLe(x);
    ToLeFromLe(y);
    assert |x| == 4 && |y| == 4;
    assert FromLe(x) == index <==> x == e;
    assert FromLe(y) == index <==> y == e;
    assert forall k :: 0 <= k < 4 ==> x[k] == if k < |residue| then residue[k] else e[k - |residue|];
    assert forall k :: 0 <= k < 4 ==> y[k] == if k < |residue| then residue[k] else y[k - |residue|];
    if x == e {
      assert e[0] == y[0];
      assert e[1] == y[1];
      assert e[2] == y[2];
      assert e[3] == y[3];
      assert e == y;
    }
    if y == e {
      assert x == e;
    }
  }

  /** An entry that does not spoil the log reads as what it records. */
  lemma ReadsAsItself(log: seq<Byte>, index: nat, n: nat)
    requires index < n <= INDEX_LIMIT
    ensures index in Named(ReadBehind(Residue(log), index), n) <==> Aligned(log) || index == Echo(Residue(log))
    ensures Aligned(log) || index == Echo(Residue(log)) ==> Named(ReadBehind(Residue(log), index), n) == {index}
  {
    EntryRoundTrip(index);
    hide Echo, Entry;
    if Aligned(log) {
      assert ReadBehind(Residue(log), index) == Entry(index);
    } else {
      EchoIsUnique(Residue(log), index);
    }
  }

  /** Recording a missing index is read back exactly when the entry does not spoil the log. */
  lemma RecordSurvivesExactly(log: seq<Byte>, index: nat, n: nat)
    requires index in Remaining(n, Load(log, n)) && n <= INDEX_LIMIT
    ensures index in Load(log + Entry(index), n) <==> !Spoils(log, index, PROGRESS_ENTRY_LEN)
  {
    hide Load, Named, ReadBehind, Entry, Echo;
    LoadRecorded(log, index, n);
    ReadsAsItself(log, index, n);
  }

  /** Every missing index can be recorded exactly when the log is safe. */
  lemma SafeExactly(log: seq<Byte>, n: nat)
    requires n <= INDEX_LIMIT
    ensures Safe(log, n) <==>
            forall i :: i in Remaining(n, Load(log, n)) ==> i in Load(log + Entry(i), n)
  {
    forall i | i in Remaining(n, Load(log, n))
      ensures i in Load(log + Entry(i), n) <==> Aligned(log) || i == Echo(Residue(log))
    {
      RecordSurvivesExactly(log, i, n);
    }
  }

  lemma TornRead(residue: seq<Byte>, index: nat, n: nat, written: nat)
    requires |residue| < PROGRESS_ENTRY_LEN && written <= PROGRESS_ENTRY_LEN
    ensures Load(residue + Entry(index)[..written], n)
         == if |residue| + written < PROGRESS_ENTRY_LEN then {} else Named(ReadBehind(residue, index), n)
  {
    hide Named;
    var read := residue + Entry(index)[..written];
    if |read| >= PROGRESS_ENTRY_LEN {
      assert read[..4] == ReadBehind(residue, index);
      assert read == read[..4] + read[4..];
      LoadOne(read[..4], read[4..], n);
    }
  }

  /** A record, whole or cut anywhere, that does not spoil the log loses nothing and adds at most its own index. */
  lemma UnspoiledRecord(log: seq<Byte>, index: nat, n: nat, written: nat)
    requires index in Remaining(n, Load(log, n)) && n <= INDEX_LIMIT && written <= PROGRESS_ENTRY_LEN
    requires !Spoils(log, index, written)
    ensures Load(log, n) <= Load(log + Entry(index)[..written], n) <= Load(log, n) + {index}
    ensures written == PROGRESS_ENTRY_LEN ==> Load(log + Entry(index), n) == Load(log, n) + {index}
  {
    assert written == PROGRESS_ENTRY_LEN ==> Entry(index)[..written] == Entry(index);
    hide Load, Named, ReadBehind, Entry, Echo;
    LoadAppended(log, Entry(index)[..written], n);
    TornRead(Residue(log), index, n, written);
    ReadsAsItself(log, index, n);
  }

  /** An entry cut in an aligned log does not count. */
  lemma CutEntryUnread(log: seq<Byte>, index: nat, n: nat, written: nat)
    requires Aligned(log) && written < PROGRESS_ENTRY_LEN
    ensures Load(log + Entry(index)[..written], n) == Load(log, n)
  {
    hide Load, Entry;
    LoadAppended(log, Entry(index)[..written], n);
    TornRead(Residue(log), index, n, written);
  }

  // ----- a case -----

  /** Entry 5 cut after one byte, then index 1 recorded: index 261 is read and index 1 is not. */
  lemma ResidueMisleads()
    ensures Load([5] + Entry(1), 262) == {261}
  {
    assert Entry(1) == [1, 0, 0, 0];
    assert [5] + Entry(1) == [5, 1, 0, 0] + [0];
    LoadOne([5, 1, 0, 0], [0], 262);
    assert FromLe([5, 1, 0, 0]) == 261 by {
      assert [5, 1, 0, 0][1..] == [1, 0, 0] && [1, 0, 0][1..] == [0, 0] && [0, 0][1..] == [0] && [0][1..] == [];
    }
  }
}
