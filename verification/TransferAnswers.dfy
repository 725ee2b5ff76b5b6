/**
 What a file transfer looks like from outside: the frames `send_file` sends for a file, the receiver's answer to each
 frame, and that a completed transfer leaves nothing behind.
 */
module TransferAnswers {
  import opened Prelude
  import opened XferCodec
  import opened ResumeLog
  import opened FileTransfer
  import opened TransferProgress

  // ----- what is sent -----

  /** The data of all fragments among the frames, put together in order. */
  function Joined(frames: seq<Frame>): seq<Byte> {
    if frames == [] then [] else (if frames[0].Fragment? then frames[0].data else []) + Joined(frames[1..])
  }

  lemma {:induction false} FragmentsJoin(src: seq<Byte>, k: nat)
    requires k <= FragmentCount(src)
    ensures Joined(Fragments(src)[k..]) == if k == FragmentCount(src) then [] else src[1024 * k..]
    decreases FragmentCount(src) - k
  {
    var rest := Fragments(src)[k..];
    if k < FragmentCount(src) {
      assert rest[0] == FragmentOf(src, k) && rest[1..] == Fragments(src)[k + 1..];
      FragmentsJoin(src, k + 1);
    }
  }

  /**
   `send_file` offers the file under its name with its size, the hash of every kilobyte and the hash of all of it, then
   sends the kilobytes in order, only the last of them shorter, and asks for completion.
   */
  lemma SentFrames(H: seq<Byte> -> Hash, name: seq<Byte>, src: seq<Byte>)
    ensures var frames, n := SendFile(H, name, src), FragmentCount(src);
            && |frames| == n + 2 && 1024 * n >= |src| > 1024 * n - 1024 && Joined(frames[1..n + 1]) == src
            && frames[0].Offer? && frames[0].name == name && frames[0].totalBytes == |src|
            && frames[0].wholeHash == H(src) && |frames[0].fragHashes| == n
            && frames[n + 1] == Frame.Complete
            && forall i :: 0 <= i < n ==>
                 && frames[i + 1].Fragment? && frames[i + 1].index == i && 1024 * i <= |src|
                 && frames[0].fragHashes[i] == H(frames[i + 1].data)
                 && |frames[i + 1].data| == if i < n - 1 then 1024 else |src| - 1024 * i
  {
    var frames, n := SendFile(H, name, src), FragmentCount(src);
    FragmentsJoin(src, 0);
    SameManifestHashes(H, src, 0);
    assert frames[1..n + 1] == Fragments(src)[0..];
    forall i | 0 <= i < n
      ensures && frames[i + 1].Fragment? && frames[i + 1].index == i && 1024 * i <= |src|
              && frames[0].fragHashes[i] == H(frames[i + 1].data)
              && |frames[i + 1].data| == if i < n - 1 then 1024 else |src| - 1024 * i
    {
      SentFragment(H, name, src, i);
    }
    hide SendFile, Fragments, Chunk, Joined, FragmentOf;
  }

  lemma SentFragment(H: seq<Byte> -> Hash, name: seq<Byte>, src: seq<Byte>, i: nat)
    requires i < FragmentCount(src)
    ensures var frames, n := SendFile(H, name, src), FragmentCount(src);
            && |frames| == n + 2 && frames[0].Offer? && |frames[0].fragHashes| == n
            && frames[i + 1].Fragment? && frames[i + 1].index == i && 1024 * i <= |src|
            && frames[0].fragHashes[i] == H(frames[i + 1].data)
            && |frames[i + 1].data| == if i < n - 1 then 1024 else |src| - 1024 * i
  {
    SameManifestHashes(H, src, i);
    assert SendFile(H, name, src)[i + 1] == Fragments(src)[i] == FragmentOf(src, i);
  }

  // ----- what is answered -----

  function Answers(H: seq<Byte> -> Hash, s: State, frames: seq<Frame>): (r: seq<Result<Progress, Error>>)
    ensures |r| == |frames|
    decreases |frames|
  {
    if frames == [] then [] else [Apply(H, s, frames[0]).1] + Answers(H, Apply(H, s, frames[0]).0, frames[1..])
  }

  /** A receiver on the file `src`, counting these fragments of it as delivered. */
  ghost predicate Has(H: seq<Byte> -> Hash, s: State, src: seq<Byte>, delivered: set<nat>) {
    s.active.Some? && ActiveFor(H, s.active.value, src) && s.active.value.delivered == delivered
    && delivered <= Below(FragmentCount(src))
  }

  /** Without an offer nothing else is taken, and nothing changes. */
  lemma NothingBeforeOffer(H: seq<Byte> -> Hash, s: State, f: Frame)
    requires s.active.None? && !f.Offer?
    ensures Apply(H, s, f) == (s, Err(NoOffer))
  {
  }

  /** The answer to a fragment, told from the file offered: what it must be to be written, and the count reported. */
  lemma FragmentAnswered(H: seq<Byte> -> Hash, s: State, src: seq<Byte>, delivered: set<nat>, i: nat, data: seq<Byte>)
    requires Has(H, s, src, delivered)
    ensures var (t, r) := Apply(H, s, Fragment(i, data));
            var n := FragmentCount(src);
            && (r == Err(BadIndex) <==> i >= n)
            && (r == Ok(Duplicate) <==> i in delivered)
            && (r == Err(HashMismatch(i)) <==> i < n && i !in delivered && H(data) != H(Chunk(src, i)))
            && (r == Ok(Written(|delivered| + 1, n)) <==> i < n && i !in delivered && H(data) == H(Chunk(src, i)))
            && (if r.Ok? && r.value.Written? then Has(H, t, src, delivered + {i}) else t == s)
            && (r.Ok? || r == Err(BadIndex) || r == Err(HashMismatch(i)))
  {
    hide WriteAt, Load, Appended, Entry, Chunk;
    SameManifestHashes(H, src, i);
  }

  /** The fragments an offer finds recorded. */
  function Recorded(s: State, offer: Frame): set<nat> { if Resumes(s, offer) then Replayed(s.sidecar.value) else {} }

  /** The answer to an offer: what the disk does not already know of. */
  lemma OfferAnswered(H: seq<Byte> -> Hash, s: State, offer: Frame, src: seq<Byte>)
    requires IsOfferOf(H, offer, src)
    ensures var (t, r) := Apply(H, s, offer);
            var known := Recorded(s, offer);
            && r.Ok? && r.value.Started? && r.value.remaining + |known| == FragmentCount(src)
            && Has(H, t, src, known) && |t.file| == |src|
            && t.sidecar.Some? && Replayed(t.sidecar.value) == known
  {
    hide SetLen;
    var n := FragmentCount(src);
    SameManifestHashes(H, src, 0);
    FreshLog(n);
    var known := Apply(H, s, offer).0.active.value.delivered;
    LoadedBelow(OpenSidecar(s.sidecar, ManifestOf(H, src)).log, n);
    BelowSize(n);
    assert Below(n) == known + Remaining(n, known);
  }

  lemma {:induction false} LoadedBelow(log: seq<Byte>, n: nat)
    ensures Load(log, n) <= Below(n)
    decreases |log|
  {
    if |log| >= PROGRESS_ENTRY_LEN {
      LoadedBelow(log[PROGRESS_ENTRY_LEN..], n);
    }
  }

  lemma OwnFragmentAnswered(H: seq<Byte> -> Hash, s: State, src: seq<Byte>, delivered: set<nat>, k: nat)
    requires k < FragmentCount(src) && Has(H, s, src, delivered)
    ensures var (t, r) := Apply(H, s, FragmentOf(src, k));
            && r == (if k in delivered then Ok(Duplicate) else Ok(Written(|delivered + {k}|, FragmentCount(src))))
            && Has(H, t, src, delivered + {k})
  {
    hide Apply, Chunk;
    FragmentAnswered(H, s, src, delivered, k, Chunk(src, k));
    if k in delivered {
      assert delivered + {k} == delivered;
    }
  }

  lemma RestOfPass(src: seq<Byte>, k: nat)
    requires k < FragmentCount(src)
    ensures |Fragments(src)| == FragmentCount(src)
    ensures var rest := (Fragments(src) + [Frame.Complete])[k..];
            rest[0] == FragmentOf(src, k) && rest[1..] == (Fragments(src) + [Frame.Complete])[k + 1..]
  {
    hide FragmentOf, FragmentCount;
  }

  lemma OneMoreBelow(known: set<nat>, k: nat)
    ensures known + Below(k + 1) == known + Below(k) + {k} && k !in Below(k)
  {
  }

  /** The answers to the sender's fragments from the `k`-th on, the earlier ones having been taken. */
  lemma {:induction false} FragmentsAnswered(H: seq<Byte> -> Hash, s: State, src: seq<Byte>, known: set<nat>, k: nat,
                                             i: nat)
    requires k <= i < FragmentCount(src) && Has(H, s, src, known + Below(k))
    ensures Answers(H, s, (Fragments(src) + [Frame.Complete])[k..])[i - k]
         == if i in known then Ok(Duplicate) else Ok(Written(|known + Below(i + 1)|, FragmentCount(src)))
    decreases i - k
  {
    hide FragmentOf, Apply, Has, FragmentCount, Remaining, Fragments;
    RestOfPass(src, k);
    var rest := (Fragments(src) + [Frame.Complete])[k..];
    OwnFragmentAnswered(H, s, src, known + Below(k), k);
    OneMoreBelow(known, k);
    if i > k {
      FragmentsAnswered(H, Apply(H, s, rest[0]).0, src, known, k + 1, i);
    }
  }

  /** The answers along a pass are those of the run it is. */
  lemma {:induction false} AnswerAlongRun(H: seq<Byte> -> Hash, s: State, frames: seq<Frame>, k: nat)
    requires k < |frames|
    ensures Answers(H, s, frames)[k] == Apply(H, Run(H, s, Received(frames)[..k]), frames[k]).1
    ensures Run(H, s, Received(frames)[..k + 1]) == Apply(H, Run(H, s, Received(frames)[..k]), frames[k]).0
    decreases k
  {
    hide Apply;
    var events := Received(frames);
    assert events[..k + 1][0] == Receive(frames[0]) && events[..k + 1][1..] == Received(frames[1..])[..k];
    if k > 0 {
      AnswerAlongRun(H, Apply(H, s, frames[0]).0, frames[1..], k - 1);
      assert events[..k][0] == Receive(frames[0]) && events[..k][1..] == Received(frames[1..])[..k - 1];
    }
  }

  lemma PassBegins(H: seq<Byte> -> Hash, s: State, name: seq<Byte>, src: seq<Byte>)
    ensures var offer, rest := OfferOf(H, name, src), Fragments(src) + [Frame.Complete];
            Answers(H, s, SendFile(H, name, src))
            == [Apply(H, s, offer).1] + Answers(H, Apply(H, s, offer).0, rest[0..])
  {
    hide Apply, OfferOf, Fragments;
    var offer, rest := OfferOf(H, name, src), Fragments(src) + [Frame.Complete];
    assert SendFile(H, name, src)[0] == offer && SendFile(H, name, src)[1..] == rest == rest[0..];
  }

  /**
   A pass of the sender, answered: the offer with the number of fragments still missing, every fragment with the count
   so far or, where the disk already had it, as a duplicate.
   */
  lemma PassAnswered(H: seq<Byte> -> Hash, s: State, name: seq<Byte>, src: seq<Byte>, i: nat)
    requires FragmentCount(src) <= MAX_FRAGMENTS && i < FragmentCount(src)
    ensures var known, answers := Recorded(s, OfferOf(H, name, src)), Answers(H, s, SendFile(H, name, src));
            && |answers| == FragmentCount(src) + 2 && answers[0].Ok? && answers[0].value.Started?
            && answers[0].value.remaining + |known| == FragmentCount(src)
            && answers[i + 1] == if i in known then Ok(Duplicate)
                                 else Ok(Written(|known + Below(i + 1)|, FragmentCount(src)))
  {
    var offer := OfferOf(H, name, src);
    var known := Recorded(s, offer);
    assert |SendFile(H, name, src)| == FragmentCount(src) + 2;
    assert known + Below(0) == known && IsOfferOf(H, offer, src);
    hide Apply, Has, Fragments, OfferOf, SendFile, FragmentCount, Remaining, IsOfferOf, Recorded, Load, Answers;
    PassBegins(H, s, name, src);
    OfferAnswered(H, s, offer, src);
    FragmentsAnswered(H, Apply(H, s, offer).0, src, known, 0, i);
  }

  // ----- what a completed transfer leaves behind -----

  /**
   A completed transfer is forgotten: the file stays, no progress is left on disk, and the next offer, of the same file
   or another, starts from nothing.
   */
  lemma CompletedIsForgotten(H: seq<Byte> -> Hash, s: State, offer: Frame, src: seq<Byte>)
    requires Apply(H, s, Frame.Complete).1 == Ok(Completed) && IsOfferOf(H, offer, src)
    ensures var t := Apply(H, s, Frame.Complete).0;
            && t.file == s.file && t.active.None? && t.sidecar.None?
            && Apply(H, t, offer).1 == Ok(Started(FragmentCount(src))) && Has(H, Apply(H, t, offer).0, src, {})
  {
    OfferAnswered(H, Apply(H, s, Frame.Complete).0, offer, src);
  }

  /**
   So after any run that completes, whatever becomes of the destination in the meantime, one pass transfers a file
   again: it is answered with the full count, one fragment more each time, and completion, and ends as the first did.
   */
  lemma TransferredAgain(H: seq<Byte> -> Hash, play: set<seq<Byte>>, s: State, disk: seq<Byte>, name: seq<Byte>,
                         src: seq<Byte>)
    requires CollisionFree(H, play) && InPlay(play, src) && FragmentCount(src) <= MAX_FRAGMENTS
    requires Apply(H, s, Frame.Complete).1 == Ok(Completed)
    ensures var t, n := Apply(H, s, Frame.Complete).0.(file := disk), FragmentCount(src);
            var frames := SendFile(H, name, src);
            var answers := Answers(H, t, frames);
            && |frames| == n + 2 && answers[0] == Ok(Started(n)) && answers[n + 1] == Ok(Completed)
            && (forall k :: 1 <= k <= n ==> answers[k] == Ok(Written(k, n)))
            && Run(H, t, Received(frames)) == State(src, None, None)
  {
    var t, n := State(disk, None, None), FragmentCount(src);
    var frames := SendFile(H, name, src);
    FreshPass(H, play, disk, name, src);
    OfferAnswered(H, t, OfferOf(H, name, src), src);
    assert frames[0] == OfferOf(H, name, src);
    assert Apply(H, s, Frame.Complete).0.(file := disk) == t;
    hide Apply, SendFile, Received, Run, Remaining, FragmentCount;
    forall k | 1 <= k <= n ensures Answers(H, t, frames)[k] == Ok(Written(k, n)) {
      PassAnswered(H, t, name, src, k - 1);
      BelowSize(k);
      assert {} + Below(k) == Below(k) && Recorded(t, OfferOf(H, name, src)) == {};
    }
  }

  lemma FreshPass(H: seq<Byte> -> Hash, play: set<seq<Byte>>, disk: seq<Byte>, name: seq<Byte>, src: seq<Byte>)
    requires CollisionFree(H, play) && InPlay(play, src) && FragmentCount(src) <= MAX_FRAGMENTS
    ensures var t, n, frames := State(disk, None, None), FragmentCount(src), SendFile(H, name, src);
            && |frames| == n + 2 && Answers(H, t, frames)[n + 1] == Ok(Completed)
            && Run(H, t, Received(frames)) == State(src, None, None)
  {
    var t, n, frames := State(disk, None, None), FragmentCount(src), SendFile(H, name, src);
    var events := Received(frames);
    SendFileDelivers(H, play, disk, [], name, src);
    assert |frames| == n + 2 && frames[n + 1] == Frame.Complete && events[..n + 2] == events;
    AnswerAlongRun(H, t, frames, n + 1);
    assert Run(H, t, []) == t;
  }
}
