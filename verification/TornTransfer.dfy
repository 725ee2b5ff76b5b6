/**
 What becomes of a transfer whose log ends in a cut entry.  The next session is sound; whether the sessions after it
 are depends, exactly, on whether the log it resumed was safe to append to.
 */
module TornTransfer {
  import opened Prelude
  import opened XferCodec
  import opened ResumeLog
  import opened FileTransfer
  import opened TransferProgress

  /** An offer that resumes finds a log that is safe to append to. */
  predicate OpensSafely(s: State, f: Frame) {
    Resumes(s, f) ==> Safe(s.sidecar.value.log, |f.fragHashes|)
  }

  // ----- the next session -----

  /** An entry cut in an aligned log is dropped on the next open, and nothing else is lost. */
  lemma CutEntryIsDropped(H: seq<Byte> -> Hash, play: set<seq<Byte>>, s: State, offer: Frame, src: seq<Byte>,
                          index: nat, data: seq<Byte>, written: nat)
    requires Inv(H, play, s, false) && s.active.Some? && ActiveFor(H, s.active.value, src) && IsOfferOf(H, offer, src)
    requires Aligned(s.sidecar.value.log) && Accepts(H, s, index, data) && written < PROGRESS_ENTRY_LEN
    ensures var t := Run(H, s, [CrashInRecord(index, data, written), Receive(offer)]);
            t.active == Some(Active(ManifestOf(H, src), s.active.value.delivered, H(src)))
  {
    var log, n, e := s.sidecar.value.log, FragmentCount(src), CrashInRecord(index, data, written);
    SameManifestHashes(H, src, 0);
    CutEntryUnread(log, index, n, written);
    hide Load, WriteAt, SetLen, Entry, Run, Faithful, InPlay;
    var t := Step(H, s, e);
    assert t.sidecar == Some(Sidecar(ManifestOf(H, src), log + Entry(index)[..written]));
    ResumeReplays(H, t, offer, src);
    hide Inv, Step, Apply, Accepts;
    RunStep(H, s, [e, Receive(offer)]);
    assert [e, Receive(offer)][1..] == [Receive(offer)];
    RunStep(H, t, [Receive(offer)]);
  }

  lemma ResumeReplays(H: seq<Byte> -> Hash, s: State, offer: Frame, src: seq<Byte>)
    requires IsOfferOf(H, offer, src) && s.sidecar.Some? && s.sidecar.value.manifest == ManifestOf(H, src)
    ensures Step(H, s, Receive(offer)).active
         == Some(Active(ManifestOf(H, src), Load(s.sidecar.value.log, FragmentCount(src)), H(src)))
  {
    hide Load, SetLen;
    SameManifestHashes(H, src, 0);
  }

  // ----- the session after it -----

  /** Resume, take fragment `i`, die, and resume again. */
  function TwoRestarts(offer: Frame, src: seq<Byte>, i: nat): seq<Event>
    requires i < FragmentCount(src)
  {
    [Receive(offer), Receive(FragmentOf(src, i)), Crash, Receive(offer)]
  }

  /** After that the receiver still knows that it has fragment `i`. */
  ghost predicate Remembers(H: seq<Byte> -> Hash, s: State, offer: Frame, src: seq<Byte>, i: nat)
    requires i < FragmentCount(src)
  {
    var t := Run(H, s, TwoRestarts(offer, src, i));
    t.active.Some? && i in t.active.value.delivered
  }

  lemma RestartReplays(H: seq<Byte> -> Hash, s: State, offer: Frame, src: seq<Byte>, i: nat)
    requires IsOfferOf(H, offer, src) && s.sidecar.Some? && s.sidecar.value.manifest == ManifestOf(H, src)
    requires i in Remaining(FragmentCount(src), Load(s.sidecar.value.log, FragmentCount(src)))
    ensures var t, log := Run(H, s, TwoRestarts(offer, src, i)), s.sidecar.value.log + Entry(i);
            && t.active == Some(Active(ManifestOf(H, src), Load(log, FragmentCount(src)), H(src)))
            && t.sidecar == Some(Sidecar(ManifestOf(H, src), log))
            && t.file == SetLen(WriteAt(SetLen(s.file, |src|), i * FRAGMENT_LEN, Chunk(src, i)), |src|)
  {
    hide Load, WriteAt, SetLen, Entry;
    SameManifestHashes(H, src, i);
    var events := TwoRestarts(offer, src, i);
    var s1 := Step(H, s, events[0]);
    var s2 := Step(H, s1, events[1]);
    var s3 := Step(H, s2, events[2]);
    var s4 := Step(H, s3, events[3]);
    assert s2.sidecar == Some(Sidecar(ManifestOf(H, src), s.sidecar.value.log + Entry(i)));
    hide Step;
    RunStep(H, s, events);
    RunStep(H, s1, events[1..]);
    RunStep(H, s2, events[2..]);
    RunStep(H, s3, events[3..]);
  }

  /**
   The exact condition: a restarted receiver remembers every fragment it goes on to take if and only if the log it
   resumed was safe, that is had a length divisible by four, or nothing missing but the echo of its residue.
   */
  lemma ResumesExactly(H: seq<Byte> -> Hash, s: State, offer: Frame, src: seq<Byte>)
    requires IsOfferOf(H, offer, src) && s.sidecar.Some? && s.sidecar.value.manifest == ManifestOf(H, src)
    ensures OpensSafely(s, offer) <==>
            forall i :: i in Remaining(FragmentCount(src), Replayed(s.sidecar.value)) ==>
              i < FragmentCount(src) && Remembers(H, s, offer, src, i)
  {
    var log, n := s.sidecar.value.log, FragmentCount(src);
    SameManifestHashes(H, src, 0);
    SafeExactly(log, n);
    hide Load, Safe, Run;
    forall i | i in Remaining(n, Load(log, n))
      ensures Remembers(H, s, offer, src, i) <==> i in Load(log + Entry(i), n)
    {
      RestartReplays(H, s, offer, src, i);
    }
  }

  /** Every fragment of `src` but one. */
  function AllBut(src: seq<Byte>, i: nat): seq<Frame>
    requires i < FragmentCount(src)
  {
    Fragments(src)[..i] + Fragments(src)[i + 1..]
  }

  lemma AllButOne(src: seq<Byte>, i: nat)
    requires i < FragmentCount(src)
    ensures OwnFragments(src, AllBut(src, i)) && Below(FragmentCount(src)) <= {i} + Indices(AllBut(src, i))
    ensures forall k :: 0 <= k < |AllBut(src, i)| ==> AllBut(src, i)[k].Fragment? && AllBut(src, i)[k].index != i
  {
    hide FragmentOf;
    var frames := AllBut(src, i);
    assert forall k :: 0 <= k < |frames| ==> frames[k] == Fragments(src)[if k < i then k else k + 1];
    FragmentIndices(src);
    forall j | j in Below(FragmentCount(src)) && j != i ensures j in Indices(frames) {
      IndexAmong(frames, if j < i then j else j - 1);
    }
  }

  lemma FragmentIndices(src: seq<Byte>)
    ensures forall k :: 0 <= k < FragmentCount(src) ==>
              Fragments(src)[k].Fragment? && Fragments(src)[k].index == k && Fragments(src)[k] == FragmentOf(src, k)
  {
  }

  /** Without fragment `i` among them, no fragments make the receiver think it has it, or complete. */
  lemma {:induction false} NeverTold(H: seq<Byte> -> Hash, src: seq<Byte>, s: State, frames: seq<Frame>, i: nat)
    requires s.active.Some? && s.active.value.manifest == ManifestOf(H, src) && i < FragmentCount(src)
    requires s.active.value.delivered <= Below(FragmentCount(src)) && i !in s.active.value.delivered
    requires forall k :: 0 <= k < |frames| ==> frames[k].Fragment? && frames[k].index != i
    ensures var t := Run(H, s, Received(frames));
            t.active.Some? && Apply(H, t, Frame.Complete).1.Ok? && Apply(H, t, Frame.Complete).1.value.Incomplete?
    decreases |frames|
  {
    SameManifestHashes(H, src, 0);
    if frames == [] {
      BelowSize(FragmentCount(src));
      SubsetSize(s.active.value.delivered, Below(FragmentCount(src)));
    } else {
      assert Received(frames)[0] == Receive(frames[0]) && Received(frames)[1..] == Received(frames[1..]);
      hide WriteAt, Load, Appended;
      NeverTold(H, src, Apply(H, s, frames[0]).0, frames[1..], i);
    }
  }

  lemma {:induction false} LoadInRange(log: seq<Byte>, n: nat)
    ensures Load(log, n) <= Below(n)
  {
    if |log| >= PROGRESS_ENTRY_LEN {
      LoadInRange(log[PROGRESS_ENTRY_LEN..], n);
    }
  }

  /** Resume, take fragment `i`, die, resume, take all the others: everything has arrived. */
  ghost predicate CompletesAcross(H: seq<Byte> -> Hash, s: State, offer: Frame, src: seq<Byte>, i: nat)
    requires i < FragmentCount(src)
  {
    Completes(H, Run(H, s, TwoRestarts(offer, src, i) + Received(AllBut(src, i))), src)
  }

  lemma KeepsAcross(H: seq<Byte> -> Hash, play: set<seq<Byte>>, s: State, offer: Frame, src: seq<Byte>, i: nat)
    requires CollisionFree(H, play) && Inv(H, play, s, false) && InPlay(play, src) && IsOfferOf(H, offer, src)
    requires s.sidecar.Some? && s.sidecar.value.manifest == ManifestOf(H, src) && i < FragmentCount(src)
    requires !Spoils(s.sidecar.value.log, i, PROGRESS_ENTRY_LEN)
    ensures Inv(H, play, Run(H, s, TwoRestarts(offer, src, i)), false)
  {
    hide Load, WriteAt, SetLen, Entry, Spoils, Faithful, CollisionFree, Chunk;
    var events := TwoRestarts(offer, src, i);
    var s1 := Step(H, s, events[0]);
    var s2 := Step(H, s1, events[1]);
    var s3 := Step(H, s2, events[2]);
    assert FragmentOf(src, i).data in play;
    StepKeepsInv(H, play, s, false, events[0]);
    assert s1.sidecar == s.sidecar;
    StepKeepsInv(H, play, s1, false, events[1]);
    assert !SpoiledAfter(H, s1, false, events[1]);
    StepKeepsInv(H, play, s2, false, events[2]);
    StepKeepsInv(H, play, s3, false, events[3]);
    hide Inv, Step;
    RunStep(H, s, events);
    RunStep(H, s1, events[1..]);
    RunStep(H, s2, events[2..]);
    RunStep(H, s3, events[3..]);
  }

  lemma AcrossExactly(H: seq<Byte> -> Hash, play: set<seq<Byte>>, s: State, offer: Frame, src: seq<Byte>, i: nat)
    requires CollisionFree(H, play) && Inv(H, play, s, false) && InPlay(play, src) && IsOfferOf(H, offer, src)
    requires s.sidecar.Some? && s.sidecar.value.manifest == ManifestOf(H, src)
    requires i in Remaining(FragmentCount(src), Load(s.sidecar.value.log, FragmentCount(src)))
    ensures CompletesAcross(H, s, offer, src, i) <==> !Spoils(s.sidecar.value.log, i, PROGRESS_ENTRY_LEN)
  {
    var log, n, first := s.sidecar.value.log, FragmentCount(src), TwoRestarts(offer, src, i);
    RestartReplays(H, s, offer, src, i);
    RecordSurvivesExactly(log, i, n);
    LoadInRange(log + Entry(i), n);
    AllButOne(src, i);
    RunSplit(H, s, false, first, Received(AllBut(src, i)));
    var u := Run(H, s, first);
    if Spoils(log, i, PROGRESS_ENTRY_LEN) {
      hide Load, Spoils, Run, Received;
      NeverTold(H, src, u, AllBut(src, i), i);
    } else {
      KeepsAcross(H, play, s, offer, src, i);
      hide Load, Spoils, Run, Received, Inv, InPlay, CollisionFree, Completes, Indices, OwnFragments, AllBut;
      assert Below(n) <= InMemory(u) + Indices(AllBut(src, i));
      SessionCompletes(H, play, src, u, false, AllBut(src, i));
    }
  }

  /**
   The exact condition for completion when a restart follows: whichever missing fragment arrives before it, the
   transfer completes once all others have arrived after it, if and only if the log resumed first was safe.
   */
  lemma CompletesAcrossExactly(H: seq<Byte> -> Hash, play: set<seq<Byte>>, s: State, offer: Frame, src: seq<Byte>)
    requires CollisionFree(H, play) && Inv(H, play, s, false) && InPlay(play, src) && IsOfferOf(H, offer, src)
    requires s.sidecar.Some? && s.sidecar.value.manifest == ManifestOf(H, src)
    ensures OpensSafely(s, offer) <==>
            forall i :: i in Remaining(FragmentCount(src), Replayed(s.sidecar.value)) ==>
              i < FragmentCount(src) && CompletesAcross(H, s, offer, src, i)
  {
    var log, n := s.sidecar.value.log, FragmentCount(src);
    SameManifestHashes(H, src, 0);
    SafeExactly(log, n);
    hide Load, Safe, Spoils, CompletesAcross, Inv, InPlay, CollisionFree;
    forall i | i in Remaining(n, Load(log, n))
      ensures CompletesAcross(H, s, offer, src, i) <==> i in Load(log + Entry(i), n)
    {
      AcrossExactly(H, play, s, offer, src, i);
      RecordSurvivesExactly(log, i, n);
    }
  }

  // ----- a fragment that is not there -----

  predicate AllZero(bytes: seq<Byte>) { forall k :: 0 <= k < |bytes| ==> bytes[k] == 0 }

  /** No other file has this file's hash. */
  ghost predicate UniqueHash(H: seq<Byte> -> Hash, src: seq<Byte>) { forall f :: H(f) == H(src) ==> f == src }

  /** The log, and with it every receiver that resumes it, counts fragment `j`, which the destination does not hold. */
  ghost predicate FalselyDelivered(H: seq<Byte> -> Hash, s: State, src: seq<Byte>, j: nat) {
    && j < FragmentCount(src) && |s.file| == |src| && !Holds(s.file, src, j)
    && On(H, s, src) && j in Kept(s) && (s.active.Some? ==> j in s.active.value.delivered)
  }

  /** Writing into one fragment neither makes nor breaks another. */
  lemma WriteSparesOthers(file: seq<Byte>, src: seq<Byte>, i: nat, j: nat, data: seq<Byte>)
    requires i < FragmentCount(src) && j < FragmentCount(src) && i != j && |file| == |src|
    requires |data| <= |Chunk(src, j)|
    ensures var t := WriteAt(file, j * FRAGMENT_LEN, data); |t| == |file| && (Holds(t, src, i) <==> Holds(file, src, i))
  {
    WriteInside(file, j * FRAGMENT_LEN, data);
    var t, lo, c := WriteAt(file, j * FRAGMENT_LEN, data), i * FRAGMENT_LEN, Chunk(src, i);
    assert t[lo..lo + |c|] == file[lo..lo + |c|];
  }

  lemma HoldsItself(src: seq<Byte>, j: nat)
    requires j < FragmentCount(src)
    ensures Holds(src, src, j)
  {
  }

  /** An accepted fragment is the source's, is not `j`, and spares `j`; what is appended to the log keeps `j` in it. */
  lemma AcceptedSpares(H: seq<Byte> -> Hash, play: set<seq<Byte>>, src: seq<Byte>, s: State, j: nat, index: nat,
                       data: seq<Byte>, part: seq<Byte>, more: seq<Byte>)
    requires CollisionFree(H, play) && InPlay(play, src) && FalselyDelivered(H, s, src, j)
    requires data in play && Accepts(H, s, index, data) && |part| <= |data|
    ensures var file, side := WriteAt(s.file, index * FRAGMENT_LEN, part), Appended(s.sidecar, more);
            && |file| == |src| && !Holds(file, src, j)
            && side.Some? && side.value.manifest == ManifestOf(H, src) && j in Replayed(side.value)
  {
    SameManifestHashes(H, src, index);
    assert Chunk(src, index) in play;
    WriteSparesOthers(s.file, src, j, index, part);
    LoadAppended(s.sidecar.value.log, more, FragmentCount(src));
    hide Load, WriteAt, Holds;
  }

  lemma FalselyDeliveredStep(H: seq<Byte> -> Hash, play: set<seq<Byte>>, src: seq<Byte>, s: State, j: nat, e: Event)
    requires CollisionFree(H, play) && InPlay(play, src) && UniqueHash(H, src) && FalselyDelivered(H, s, src, j)
    requires Transferring(H, play, src, e)
    ensures FalselyDelivered(H, Step(H, s, e), src, j) && s.file != src
  {
    HoldsItself(src, j);
    SameManifestHashes(H, src, 0);
    hide Load, WriteAt, Holds, CollisionFree, InPlay, Chunk, Entry;
    match e
    case Receive(f) =>
      if f.Offer? {
        assert SetLen(s.file, |src|) == s.file;
      } else if f.Fragment? && Accepts(H, s, f.index, f.data) {
        AcceptedSpares(H, play, src, s, j, f.index, f.data, f.data, Entry(f.index));
      }
    case CrashInFragment(index, data, written) =>
      if Accepts(H, s, index, data) {
        AcceptedSpares(H, play, src, s, j, index, data, Cut(data, written), []);
      }
    case CrashInRecord(index, data, written) =>
      if Accepts(H, s, index, data) {
        AcceptedSpares(H, play, src, s, j, index, data, data, Cut(Entry(index), written));
      }
    case _ =>
  }

  /**
   It never heals: whatever follows of the transfer, offers, restarts, crashes and repeats of every fragment included,
   the destination is never the source and nothing completes.
   */
  lemma {:induction false} FalselyDeliveredNeverHeals(H: seq<Byte> -> Hash, play: set<seq<Byte>>, src: seq<Byte>,
                                                      s: State, j: nat, events: seq<Event>)
    requires CollisionFree(H, play) && InPlay(play, src) && UniqueHash(H, src) && FalselyDelivered(H, s, src, j)
    requires forall i :: 0 <= i < |events| ==> Transferring(H, play, src, events[i])
    ensures !CompletesWithin(H, s, events, src) && Run(H, s, events).file != src
    ensures FalselyDelivered(H, Run(H, s, events), src, j)
    decreases |events|
  {
    HoldsItself(src, j);
    if events != [] {
      FalselyDeliveredStep(H, play, src, s, j, events[0]);
      assert forall i :: 0 <= i < |events[1..]| ==> events[1..][i] == events[i + 1];
      hide FalselyDelivered, CollisionFree, InPlay, UniqueHash, Step, Transferring, Holds, Apply;
      FalselyDeliveredNeverHeals(H, play, src, Step(H, s, events[0]), j, events[1..]);
    }
  }

  /** Within one session: the receiver, while it runs, counts fragment `j`, which the destination does not hold. */
  ghost predicate Misbelieves(H: seq<Byte> -> Hash, s: State, src: seq<Byte>, j: nat) {
    && j < FragmentCount(src) && |s.file| == |src| && !Holds(s.file, src, j)
    && (s.active.Some? ==> ActiveFor(H, s.active.value, src) && j in s.active.value.delivered)
  }

  /** Fragments and completions only: what one session hears after its offer. */
  ghost predicate InSession(play: set<seq<Byte>>, e: Event) {
    e.Receive? && !e.frame.Offer? && (e.frame.Fragment? ==> e.frame.data in play)
  }

  lemma MisbelievesStep(H: seq<Byte> -> Hash, play: set<seq<Byte>>, src: seq<Byte>, s: State, j: nat, e: Event)
    requires CollisionFree(H, play) && InPlay(play, src) && Misbelieves(H, s, src, j) && InSession(play, e)
    ensures Misbelieves(H, Step(H, s, e), src, j)
  {
    if e.frame.Fragment? && Accepts(H, s, e.frame.index, e.frame.data) {
      SameManifestHashes(H, src, e.frame.index);
      assert Chunk(src, e.frame.index) in play;
      WriteSparesOthers(s.file, src, j, e.frame.index, e.frame.data);
    }
    hide WriteAt, Holds, Load;
  }

  /** Within one session no fragments and completions lead to the source file, however the wrong file hashes. */
  lemma {:induction false} FalselyDeliveredNeverCompletes(H: seq<Byte> -> Hash, play: set<seq<Byte>>, src: seq<Byte>,
                                                          s: State, j: nat, events: seq<Event>)
    requires CollisionFree(H, play) && InPlay(play, src) && Misbelieves(H, s, src, j)
    requires forall i :: 0 <= i < |events| ==> InSession(play, events[i])
    ensures !CompletesWithin(H, s, events, src) && Run(H, s, events).file != src
    decreases |events|
  {
    HoldsItself(src, j);
    if events != [] {
      MisbelievesStep(H, play, src, s, j, events[0]);
      assert forall i :: 0 <= i < |events[1..]| ==> events[1..][i] == events[i + 1];
      hide Misbelieves, CollisionFree, InPlay, Step, InSession, Apply;
      FalselyDeliveredNeverCompletes(H, play, src, Step(H, s, events[0]), j, events[1..]);
    }
  }

  // ----- a case -----

  /** Entry 5 is cut after one byte; the receiver restarts, takes fragment 1, and restarts again. */
  function CutAndRestart(offer: Frame, src: seq<Byte>): seq<Event>
    requires FragmentCount(src) == 262
  {
    [Receive(offer), CrashInRecord(5, Chunk(src, 5), 1)] + TwoRestarts(offer, src, 1)
  }

  lemma AfterCut(H: seq<Byte> -> Hash, src: seq<Byte>, offer: Frame)
    requires IsOfferOf(H, offer, src) && FragmentCount(src) == 262
    ensures var s := Run(H, State([], None, None), [Receive(offer), CrashInRecord(5, Chunk(src, 5), 1)]);
            && s.sidecar == Some(Sidecar(ManifestOf(H, src), [5]))
            && s.file == WriteAt(SetLen([], |src|), 5 * FRAGMENT_LEN, Chunk(src, 5))
    ensures Run(H, State([], None, None), CutAndRestart(offer, src))
         == Run(H, Run(H, State([], None, None), [Receive(offer), CrashInRecord(5, Chunk(src, 5), 1)]),
                TwoRestarts(offer, src, 1))
  {
    var s0, first, second := State([], None, None), Receive(offer), CrashInRecord(5, Chunk(src, 5), 1);
    var s1 := Step(H, s0, first);
    CutLog(H, src, offer);
    hide Step, CutAndRestart;
    RunStep(H, s0, [first, second]);
    RunStep(H, s1, [second]);
    assert [first, second][1..] == [second];
    CutAndRestartShape(offer, src);
    RunStep(H, s0, CutAndRestart(offer, src));
    RunStep(H, s1, CutAndRestart(offer, src)[1..]);
  }

  lemma CutAndRestartShape(offer: Frame, src: seq<Byte>)
    requires FragmentCount(src) == 262
    ensures var events := CutAndRestart(offer, src);
            && |events| == 6 && events[0] == Receive(offer) && events[1] == CrashInRecord(5, Chunk(src, 5), 1)
            && events[1..][0] == events[1] && events[1..][1..] == TwoRestarts(offer, src, 1)
  {
  }

  lemma CutLog(H: seq<Byte> -> Hash, src: seq<Byte>, offer: Frame)
    requires IsOfferOf(H, offer, src) && FragmentCount(src) == 262
    ensures var s := Step(H, State([], None, None), Receive(offer));
            var t := Step(H, s, CrashInRecord(5, Chunk(src, 5), 1));
            && t.sidecar == Some(Sidecar(ManifestOf(H, src), [5]))
            && t.file == WriteAt(SetLen([], |src|), 5 * FRAGMENT_LEN, Chunk(src, 5))
  {
    SameManifestHashes(H, src, 5);
    FreshLog(262);
    assert Entry(5)[..1] == [5];
    assert [] + [5] == [5];
    hide Load, WriteAt, SetLen, Entry;
  }

  /**
   A case: in every transfer of 262 fragments this makes the receiver believe it has fragment 261, which never
   arrived and is now refused as a duplicate, and forget fragment 1.
   */
  lemma CutEntryMisleads(H: seq<Byte> -> Hash, src: seq<Byte>, offer: Frame)
    requires IsOfferOf(H, offer, src) && FragmentCount(src) == 262
    ensures var s := Run(H, State([], None, None), CutAndRestart(offer, src));
            && s.active == Some(Active(ManifestOf(H, src), {261}, H(src)))
            && s.sidecar == Some(Sidecar(ManifestOf(H, src), [5] + Entry(1)))
            && Apply(H, s, FragmentOf(src, 261)) == (s, Ok(Duplicate))
            && |s.file| == |src| && (Holds(s.file, src, 261) <==> AllZero(Chunk(src, 261)))
  {
    AfterCut(H, src, offer);
    var s := Run(H, State([], None, None), [Receive(offer), CrashInRecord(5, Chunk(src, 5), 1)]);
    assert |[5]| < PROGRESS_ENTRY_LEN && Load([5], 262) == {};
    hide Run, Load;
    RestartReplays(H, s, offer, src, 1);
    ResidueMisleads();
    SameManifestHashes(H, src, 261);
    TwoWrites(src);
    hide Holds, WriteAt, SetLen;
  }

  /** Fragments 5 and 1 written into an empty file leave zeros at fragment 261. */
  lemma TwoWrites(src: seq<Byte>)
    requires FragmentCount(src) == 262
    ensures var blank := SetLen([], |src|);
            var five := WriteAt(blank, 5 * FRAGMENT_LEN, Chunk(src, 5));
            var one := SetLen(WriteAt(SetLen(five, |src|), 1 * FRAGMENT_LEN, Chunk(src, 1)), |src|);
            && |one| == |src|
            && (Holds(one, src, 261) <==> AllZero(Chunk(src, 261)))
  {
    var blank := SetLen([], |src|);
    var five := WriteAt(blank, 5 * FRAGMENT_LEN, Chunk(src, 5));
    WriteSparesOthers(blank, src, 261, 5, Chunk(src, 5));
    assert SetLen(five, |src|) == five;
    var both := WriteAt(five, 1 * FRAGMENT_LEN, Chunk(src, 1));
    WriteSparesOthers(five, src, 261, 1, Chunk(src, 1));
    assert SetLen(both, |src|) == both;
    BlankHolds(src, 261);
    hide WriteAt, SetLen, Holds;
  }

  lemma BlankHolds(src: seq<Byte>, j: nat)
    requires j < FragmentCount(src)
    ensures Holds(SetLen([], |src|), src, j) <==> AllZero(Chunk(src, j))
  {
    var blank, lo, c := SetLen([], |src|), j * FRAGMENT_LEN, Chunk(src, j);
    var slice := blank[lo..lo + |c|];
    assert forall k :: 0 <= k < |slice| ==> slice[k] == 0;
  }

  /**
   Unless that fragment is all zeros, nothing that follows completes the transfer: no events of the transfer at all if
   no other file has the source's hash, and in any case nothing in the running session.
   */
  lemma CutEntryIsFatal(H: seq<Byte> -> Hash, play: set<seq<Byte>>, src: seq<Byte>, offer: Frame, events: seq<Event>)
    requires CollisionFree(H, play) && InPlay(play, src) && IsOfferOf(H, offer, src)
    requires FragmentCount(src) == 262 && !AllZero(Chunk(src, 261))
    requires forall i :: 0 <= i < |events| ==> Transferring(H, play, src, events[i])
    requires UniqueHash(H, src) || forall i :: 0 <= i < |events| ==> InSession(play, events[i])
    ensures var s := Run(H, State([], None, None), CutAndRestart(offer, src));
            !CompletesWithin(H, s, events, src) && Run(H, s, events).file != src
  {
    CutMisbelieves(H, src, offer);
    hide Run, CutAndRestart, InPlay, CollisionFree, UniqueHash, InSession, Transferring, FalselyDelivered, Misbelieves;
    hide IsOfferOf, CompletesWithin, Chunk;
    var s := Run(H, State([], None, None), CutAndRestart(offer, src));
    if UniqueHash(H, src) {
      FalselyDeliveredNeverHeals(H, play, src, s, 261, events);
    } else {
      FalselyDeliveredNeverCompletes(H, play, src, s, 261, events);
    }
  }

  lemma CutMisbelieves(H: seq<Byte> -> Hash, src: seq<Byte>, offer: Frame)
    requires IsOfferOf(H, offer, src) && FragmentCount(src) == 262 && !AllZero(Chunk(src, 261))
    ensures var s := Run(H, State([], None, None), CutAndRestart(offer, src));
            FalselyDelivered(H, s, src, 261) && Misbelieves(H, s, src, 261)
  {
    CutEntryMisleads(H, src, offer);
    ResidueMisleads();
    SameManifestHashes(H, src, 0);
    hide Holds, Run, CutAndRestart, Apply, Load, Entry, AllZero, Chunk, IsOfferOf;
  }
}
