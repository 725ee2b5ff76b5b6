/**
 Resumable file transfer: the sender's frame sequence and the receiver that writes verified fragments
 into the destination, records progress in a sidecar, and survives crashes between any two writes.
 The content hash is a parameter; where identity of contents matters it is taken to have no collisions among
 the strings in play: the offered files, their chunks, and the fragments that arrive.
 */
module FileTransfer {
  import opened Prelude
  import opened XferCodec
  import opened ResumeLog

  // ----- the sender -----

  function FragmentCount(src: seq<Byte>): nat { (|src| + FRAGMENT_LEN - 1) / FRAGMENT_LEN }

  function Chunk(src: seq<Byte>, i: nat): (c: seq<Byte>)
    requires i < FragmentCount(src)
    ensures 0 < |c| <= FRAGMENT_LEN && i * FRAGMENT_LEN + |c| <= |src|
    ensures i + 1 < FragmentCount(src) ==> |c| == FRAGMENT_LEN
  {
    var lo := i * FRAGMENT_LEN;
    if lo + FRAGMENT_LEN <= |src| then src[lo..lo + FRAGMENT_LEN] else src[lo..]
  }

  datatype Manifest = Manifest(hashes: seq<Hash>, total: nat)

  function ManifestOf(H: seq<Byte> -> Hash, src: seq<Byte>): Manifest {
    Manifest(seq(FragmentCount(src), i requires 0 <= i < FragmentCount(src) => H(Chunk(src, i))), |src|)
  }

  function OfferOf(H: seq<Byte> -> Hash, name: seq<Byte>, src: seq<Byte>): Frame {
    Offer(name, |src|, ManifestOf(H, src).hashes, H(src))
  }

  function FragmentOf(src: seq<Byte>, i: nat): Frame
    requires i < FragmentCount(src)
  {
    Fragment(i, Chunk(src, i))
  }

  function Fragments(src: seq<Byte>): seq<Frame> {
    seq(FragmentCount(src), i requires 0 <= i < FragmentCount(src) => FragmentOf(src, i))
  }

  /** The frames `send_file` puts on the session, in order. */
  function SendFile(H: seq<Byte> -> Hash, name: seq<Byte>, src: seq<Byte>): seq<Frame> {
    [OfferOf(H, name, src)] + Fragments(src) + [Frame.Complete]
  }

  // ----- the receiver -----

  /** The resume file: the manifest in its header and the progress entries appended after it. */
  datatype Sidecar = Sidecar(manifest: Manifest, log: seq<Byte>)

  /** What replaying the resume file yields. */
  function Replayed(side: Sidecar): set<nat> { Load(side.log, |side.manifest.hashes|) }

  datatype Active = Active(manifest: Manifest, delivered: set<nat>, wholeHash: Hash)

  /** What is on disk, and what the running process holds (nothing after a crash). */
  datatype State = State(file: seq<Byte>, sidecar: Option<Sidecar>, active: Option<Active>)

  datatype Progress =
    | Started(remaining: nat)
    | Written(delivered: nat, total: nat)
    | Duplicate
    | Completed
    | Incomplete(remaining: nat)

  datatype Error = NoOffer | BadIndex | HashMismatch(index: nat) | WholeHashMismatch

  function SetLen(file: seq<Byte>, n: nat): (r: seq<Byte>)
    ensures |r| == n
  {
    if n <= |file| then file[..n] else file + seq(n - |file|, _ => 0)
  }

  function WriteAt(file: seq<Byte>, at: nat, data: seq<Byte>): seq<Byte> {
    var f := if at + |data| > |file| then SetLen(file, at + |data|) else file;
    f[..at] + data + f[at + |data|..]
  }

  /** Opening the sidecar: resume on an identical manifest, residue and all, otherwise start a fresh one. */
  function OpenSidecar(saved: Option<Sidecar>, m: Manifest): Sidecar {
    if saved.Some? && saved.value.manifest == m then saved.value else Sidecar(m, [])
  }

  /** Bytes appended to the resume file, if there is one. */
  function Appended(saved: Option<Sidecar>, bytes: seq<Byte>): Option<Sidecar> {
    match saved
    case None => None
    case Some(side) => Some(side.(log := side.log + bytes))
  }

  function Apply(H: seq<Byte> -> Hash, s: State, f: Frame): (State, Result<Progress, Error>) {
    match f
    case Offer(_, total, hashes, whole) =>
      var m := Manifest(hashes, total);
      var side := OpenSidecar(s.sidecar, m);
      (State(SetLen(s.file, total), Some(side), Some(Active(m, Replayed(side), whole))),
       Ok(Started(|Remaining(|hashes|, Replayed(side))|)))
    case Fragment(index, data) =>
      (match s.active
       case None => (s, Err(NoOffer))
       case Some(a) =>
         if index >= |a.manifest.hashes| then (s, Err(BadIndex))
         else if index !in Remaining(|a.manifest.hashes|, a.delivered) then (s, Ok(Duplicate))
         else if H(data) != a.manifest.hashes[index] then (s, Err(HashMismatch(index)))
         else
           var delivered := a.delivered + {index};
           (State(WriteAt(s.file, index * FRAGMENT_LEN, data),
                  Appended(s.sidecar, Entry(index)), Some(a.(delivered := delivered))),
            Ok(Written(|delivered|, |a.manifest.hashes|))))
    case Complete =>
      (match s.active
       case None => (s, Err(NoOffer))
       case Some(a) =>
         if |a.delivered| != |a.manifest.hashes| then
           (s, Ok(Incomplete(|Remaining(|a.manifest.hashes|, a.delivered)|)))
         else if H(s.file) != a.wholeHash then (s, Err(WholeHashMismatch))
         else (State(s.file, None, None), Ok(Completed)))
  }

  // ----- runs with crashes -----

  datatype Event =
    | Receive(frame: Frame)
    | Crash
      /** Died after opening the sidecar (its header written or not) and before sizing the destination. */
    | CrashInOffer(offer: Frame, headerWritten: bool)
      /** Died while writing a verified fragment, before recording it: only some bytes reached the file. */
    | CrashInFragment(index: nat, data: seq<Byte>, written: nat)
      /** Died while recording a fragment it had written: only some bytes of the entry reached the sidecar. */
    | CrashInRecord(index: nat, data: seq<Byte>, written: nat)

  /** The fragment would be verified, written and recorded. */
  predicate Accepts(H: seq<Byte> -> Hash, s: State, index: nat, data: seq<Byte>) {
    var r := Apply(H, s, Fragment(index, data)).1;
    r.Ok? && r.value.Written?
  }

  function Cut(bytes: seq<Byte>, written: nat): seq<Byte> { if written <= |bytes| then bytes[..written] else bytes }

  function Step(H: seq<Byte> -> Hash, s: State, e: Event): State {
    match e
    case Receive(f) => Apply(H, s, f).0
    case Crash => s.(active := None)
    case CrashInOffer(Offer(_, total, hashes, _), headerWritten) =>
      var m := Manifest(hashes, total);
      var kept := s.sidecar.Some? && s.sidecar.value.manifest == m;
      State(s.file, if kept then s.sidecar else if headerWritten then Some(Sidecar(m, [])) else None, None)
    case CrashInOffer(_, _) => s.(active := None)
    case CrashInFragment(index, data, written) =>
      if Accepts(H, s, index, data) then
        State(WriteAt(s.file, index * FRAGMENT_LEN, Cut(data, written)), s.sidecar, None)
      else s.(active := None)
    case CrashInRecord(index, data, written) =>
      if Accepts(H, s, index, data) then
        State(WriteAt(s.file, index * FRAGMENT_LEN, data), Appended(s.sidecar, Cut(Entry(index), written)), None)
      else s.(active := None)
  }

  function Run(H: seq<Byte> -> Hash, s: State, events: seq<Event>): State
    decreases |events|
  {
    if events == [] then s else Run(H, Step(H, s, events[0]), events[1..])
  }

  /** No two of the strings in play share a hash. */
  ghost predicate CollisionFree(H: seq<Byte> -> Hash, play: set<seq<Byte>>) {
    forall a, b :: a in play && b in play && H(a) == H(b) ==> a == b
  }

  /** The file and all its chunks are in play. */
  ghost predicate InPlay(play: set<seq<Byte>>, src: seq<Byte>) {
    src in play && forall i :: 0 <= i < FragmentCount(src) ==> Chunk(src, i) in play
  }

  /** The frame offers `src`; an offer that came off the wire has at most 2^20 hashes. */
  ghost predicate IsOfferOf(H: seq<Byte> -> Hash, f: Frame, src: seq<Byte>) {
    f.Offer? && f == OfferOf(H, f.name, src) && FragmentCount(src) <= MAX_FRAGMENTS
  }

  /** The frame is an offer of some file in play. */
  ghost predicate OffersRealFile(H: seq<Byte> -> Hash, play: set<seq<Byte>>, f: Frame) {
    exists src :: InPlay(play, src) && IsOfferOf(H, f, src)
  }

  /** Offers come from real files; fragments may carry anything that is in play; completions come at any time. */
  ghost predicate Honest(H: seq<Byte> -> Hash, play: set<seq<Byte>>, e: Event) {
    match e
    case Receive(f) => (f.Offer? ==> OffersRealFile(H, play, f)) && (f.Fragment? ==> f.data in play)
    case CrashInOffer(f, _) => f.Offer? ==> OffersRealFile(H, play, f)
    case CrashInFragment(_, data, _) => data in play
    case CrashInRecord(_, data, _) => data in play
    case Crash => true
  }

  // ----- logs that stop saying what they record -----

  /** The frame offers the transfer whose log is on disk. */
  predicate Resumes(s: State, f: Frame) {
    f.Offer? && s.sidecar.Some? && s.sidecar.value.manifest == Manifest(f.fragHashes, f.totalBytes)
  }

  /** The event appends to the log what will not be read back as the fragment it records. */
  predicate Spoiling(H: seq<Byte> -> Hash, s: State, e: Event) {
    s.sidecar.Some? &&
    match e
    case Receive(Fragment(index, data)) =>
      Accepts(H, s, index, data) && Spoils(s.sidecar.value.log, index, PROGRESS_ENTRY_LEN)
    case CrashInRecord(index, data, written) =>
      Accepts(H, s, index, data) && Spoils(s.sidecar.value.log, index, written)
    case _ => false
  }

  /** Whether the log on disk is spoiled after the event, given whether it was before; a new log is not. */
  function SpoiledAfter(H: seq<Byte> -> Hash, s: State, spoiled: bool, e: Event): bool {
    match e
    case Receive(f) => if f.Offer? then spoiled && Resumes(s, f) else spoiled || Spoiling(H, s, e)
    case CrashInOffer(f, _) => if f.Offer? then spoiled && Resumes(s, f) else spoiled
    case _ => spoiled || Spoiling(H, s, e)
  }

  function SpoiledRun(H: seq<Byte> -> Hash, s: State, spoiled: bool, events: seq<Event>): bool
    decreases |events|
  {
    if events == [] then spoiled
    else SpoiledRun(H, Step(H, s, events[0]), SpoiledAfter(H, s, spoiled, events[0]), events[1..])
  }

  /** The event does not resume a spoiled log. */
  predicate Trusts(s: State, spoiled: bool, e: Event) { e.Receive? && Resumes(s, e.frame) ==> !spoiled }

  /**
   No spoiled log is resumed along the run.  A log that ends in a cut entry may be resumed, and a log may be spoiled,
   as long as no later offer of the run resumes it.
   */
  predicate NeverResumesSpoiled(H: seq<Byte> -> Hash, s: State, spoiled: bool, events: seq<Event>)
    decreases |events|
  {
    events == [] ||
    (&& Trusts(s, spoiled, events[0])
     && NeverResumesSpoiled(H, Step(H, s, events[0]), SpoiledAfter(H, s, spoiled, events[0]), events[1..]))
  }

  // ----- what every step keeps -----

  /** The destination holds fragment `i` of `src` at its place. */
  ghost predicate Holds(file: seq<Byte>, src: seq<Byte>, i: nat)
    requires i < FragmentCount(src)
  {
    var lo, c := i * FRAGMENT_LEN, Chunk(src, i);
    lo + |c| <= |file| && file[lo..lo + |c|] == c
  }

  /** Every index taken as delivered is really in the file, for the file this manifest names. */
  ghost predicate Faithful(H: seq<Byte> -> Hash, play: set<seq<Byte>>, file: seq<Byte>, m: Manifest,
                           delivered: set<nat>)
  {
    forall src :: InPlay(play, src) && m == ManifestOf(H, src) ==>
      forall i :: i in delivered ==> i < FragmentCount(src) && Holds(file, src, i)
  }

  ghost predicate ActiveFor(H: seq<Byte> -> Hash, a: Active, src: seq<Byte>) {
    a.manifest == ManifestOf(H, src) && a.wholeHash == H(src)
  }

  /** A running receiver: its sidecar is for the transfer it runs, and the file is sized. */
  ghost predicate Running(s: State, a: Active) {
    && s.sidecar.Some? && s.sidecar.value.manifest == a.manifest
    && |a.manifest.hashes| <= MAX_FRAGMENTS && |s.file| == a.manifest.total
  }

  /** A running receiver's memory is true, whatever its log says. */
  ghost predicate Mem(H: seq<Byte> -> Hash, play: set<seq<Byte>>, s: State) {
    s.active.Some? &&
    var a := s.active.value;
    && Running(s, a) && Faithful(H, play, s.file, a.manifest, a.delivered)
    && exists src :: InPlay(play, src) && ActiveFor(H, a, src)
  }

  /** A log that is not spoiled replays to true indices, and to exactly what a running receiver remembers. */
  ghost predicate Inv(H: seq<Byte> -> Hash, play: set<seq<Byte>>, s: State, spoiled: bool) {
    && (s.sidecar.Some? && !spoiled ==>
          Faithful(H, play, s.file, s.sidecar.value.manifest, Replayed(s.sidecar.value)))
    && (s.active.Some? ==>
          Mem(H, play, s) && (!spoiled ==> Replayed(s.sidecar.value) == s.active.value.delivered))
  }

  lemma SetLenKeeps(file: seq<Byte>, src: seq<Byte>, i: nat)
    requires i < FragmentCount(src) && Holds(file, src, i)
    ensures Holds(SetLen(file, |src|), src, i)
  {
  }

  lemma WriteInside(file: seq<Byte>, at: nat, data: seq<Byte>)
    requires at + |data| <= |file|
    ensures var r := WriteAt(file, at, data);
            && |r| == |file| && r[at..at + |data|] == data
            && (forall k :: 0 <= k < |file| && !(at <= k < at + |data|) ==> r[k] == file[k])
  {
  }

  /** Writing bytes of fragment `j` leaves every other fragment alone. */
  lemma WriteKeepsOthers(file: seq<Byte>, src: seq<Byte>, i: nat, j: nat, data: seq<Byte>)
    requires i < FragmentCount(src) && j < FragmentCount(src) && i != j && Holds(file, src, i)
    requires |data| <= |Chunk(src, j)| && |file| == |src|
    ensures Holds(WriteAt(file, j * FRAGMENT_LEN, data), src, i)
  {
  }

  lemma SameManifestHashes(H: seq<Byte> -> Hash, src: seq<Byte>, i: nat)
    ensures |ManifestOf(H, src).hashes| == FragmentCount(src)
    ensures i < FragmentCount(src) ==> ManifestOf(H, src).hashes[i] == H(Chunk(src, i))
  {
  }

  /** A verified fragment is the source's fragment, and counting it as delivered is faithful. */
  lemma FragmentKeepsFaith(H: seq<Byte> -> Hash, play: set<seq<Byte>>, s: State, index: nat, data: seq<Byte>,
                           src: seq<Byte>)
    requires CollisionFree(H, play) && Mem(H, play, s) && data in play && InPlay(play, src)
    requires s.active.value.manifest == ManifestOf(H, src)
    requires index < |s.active.value.manifest.hashes| && H(data) == s.active.value.manifest.hashes[index]
    requires index !in s.active.value.delivered
    ensures index < FragmentCount(src) && data == Chunk(src, index) && |s.file| == |src|
    ensures forall i :: i in s.active.value.delivered + {index} ==>
              i < FragmentCount(src) && Holds(WriteAt(s.file, index * FRAGMENT_LEN, data), src, i)
  {
    SameManifestHashes(H, src, index);
    assert Chunk(src, index) in play;
    WriteInside(s.file, index * FRAGMENT_LEN, data);
    forall i | i in s.active.value.delivered + {index}
      ensures i < FragmentCount(src) && Holds(WriteAt(s.file, index * FRAGMENT_LEN, data), src, i)
    {
      if i != index {
        WriteKeepsOthers(s.file, src, i, index, data);
      }
    }
  }

  lemma FreshLog(n: nat)
    ensures Load([], n) == {}
  {
  }

  /** An offer that resumes no spoiled log leaves memory and log true, and equal. */
  lemma OfferStep(H: seq<Byte> -> Hash, play: set<seq<Byte>>, s: State, spoiled: bool, f: Frame, src: seq<Byte>)
    requires Inv(H, play, s, spoiled) && InPlay(play, src) && IsOfferOf(H, f, src) && Trusts(s, spoiled, Receive(f))
    ensures Inv(H, play, Apply(H, s, f).0, false) && ActiveFor(H, Apply(H, s, f).0.active.value, src)
  {
    hide Load;
    var t := Apply(H, s, f).0;
    var side := t.sidecar.value;
    SameManifestHashes(H, src, 0);
    assert ActiveFor(H, t.active.value, src);
    if Resumes(s, f) {
      assert Faithful(H, play, s.file, side.manifest, Replayed(side));
    } else {
      FreshLog(|side.manifest.hashes|);
    }
    forall other, i | InPlay(play, other) && side.manifest == ManifestOf(H, other) && i in Replayed(side)
      ensures i < FragmentCount(other) && Holds(t.file, other, i)
    {
      SetLenKeeps(s.file, other, i);
    }
  }

  /** Writing an accepted fragment keeps the size and makes the fragment's index true as well. */
  lemma FragmentFaith(H: seq<Byte> -> Hash, play: set<seq<Byte>>, s: State, index: nat, data: seq<Byte>)
    requires CollisionFree(H, play) && Mem(H, play, s) && data in play && Accepts(H, s, index, data)
    ensures var file := WriteAt(s.file, index * FRAGMENT_LEN, data);
            && |file| == |s.file|
            && Faithful(H, play, file, s.active.value.manifest, s.active.value.delivered + {index})
  {
    var a := s.active.value;
    var src :| InPlay(play, src) && ActiveFor(H, a, src);
    FragmentKeepsFaith(H, play, s, index, data, src);
    WriteInside(s.file, index * FRAGMENT_LEN, data);
    hide WriteAt, Holds;
    forall other | InPlay(play, other) && a.manifest == ManifestOf(H, other)
      ensures forall i :: i in a.delivered + {index} ==>
                i < FragmentCount(other) && Holds(WriteAt(s.file, index * FRAGMENT_LEN, data), other, i)
    {
      FragmentKeepsFaith(H, play, s, index, data, other);
    }
  }

  /** An accepted fragment joins the memory, and an unspoiled log along with it. */
  lemma FragmentStep(H: seq<Byte> -> Hash, play: set<seq<Byte>>, s: State, spoiled: bool, index: nat, data: seq<Byte>)
    requires CollisionFree(H, play) && Inv(H, play, s, spoiled) && data in play
    ensures var e := Receive(Fragment(index, data)); Inv(H, play, Step(H, s, e), SpoiledAfter(H, s, spoiled, e))
  {
    hide Load, WriteAt, Faithful, InPlay, CollisionFree, Spoils, Entry;
    if Accepts(H, s, index, data) {
      var a := s.active.value;
      FragmentFaith(H, play, s, index, data);
      if !SpoiledAfter(H, s, spoiled, Receive(Fragment(index, data))) {
        UnspoiledRecord(s.sidecar.value.log, index, |a.manifest.hashes|, PROGRESS_ENTRY_LEN);
      }
      var src :| InPlay(play, src) && ActiveFor(H, a, src);
      assert ActiveFor(H, Apply(H, s, Fragment(index, data)).0.active.value, src);
    }
  }

  /** A write cut short disturbs no delivered fragment. */
  lemma TornWrite(H: seq<Byte> -> Hash, play: set<seq<Byte>>, s: State, index: nat, data: seq<Byte>, written: nat)
    requires CollisionFree(H, play) && Mem(H, play, s) && data in play && Accepts(H, s, index, data)
    ensures Faithful(H, play, WriteAt(s.file, index * FRAGMENT_LEN, Cut(data, written)), s.active.value.manifest,
                     s.active.value.delivered)
  {
    var a := s.active.value;
    forall other, i | InPlay(play, other) && a.manifest == ManifestOf(H, other) && i in a.delivered
      ensures i < FragmentCount(other) && Holds(WriteAt(s.file, index * FRAGMENT_LEN, Cut(data, written)), other, i)
    {
      FragmentKeepsFaith(H, play, s, index, data, other);
      WriteKeepsOthers(s.file, other, i, index, Cut(data, written));
    }
  }

  lemma CrashInFragmentStep(H: seq<Byte> -> Hash, play: set<seq<Byte>>, s: State, spoiled: bool, index: nat,
                            data: seq<Byte>, written: nat)
    requires CollisionFree(H, play) && Inv(H, play, s, spoiled) && data in play
    ensures Inv(H, play, Step(H, s, CrashInFragment(index, data, written)), spoiled)
  {
    hide Load, WriteAt, Faithful, InPlay, CollisionFree, Cut;
    if Accepts(H, s, index, data) {
      TornWrite(H, play, s, index, data, written);
    }
  }

  /** An entry cut anywhere leaves an unspoiled log true, with all it had. */
  lemma CrashInRecordStep(H: seq<Byte> -> Hash, play: set<seq<Byte>>, s: State, spoiled: bool, index: nat,
                          data: seq<Byte>, written: nat)
    requires CollisionFree(H, play) && Inv(H, play, s, spoiled) && data in play
    ensures var e := CrashInRecord(index, data, written);
            var t := Step(H, s, e);
            && Inv(H, play, t, SpoiledAfter(H, s, spoiled, e))
            && (Accepts(H, s, index, data) ==> t.sidecar.Some? && t.sidecar.value.manifest == s.active.value.manifest)
            && (Accepts(H, s, index, data) && !SpoiledAfter(H, s, spoiled, e) ==>
                  s.active.value.delivered <= Replayed(t.sidecar.value))
  {
    hide Load, WriteAt, InPlay, CollisionFree, Cut, Spoils, Holds;
    var e := CrashInRecord(index, data, written);
    if Accepts(H, s, index, data) && !SpoiledAfter(H, s, spoiled, e) {
      TornRecord(s, s.active.value, index, written);
      FragmentFaith(H, play, s, index, data);
    }
  }

  lemma TornRecord(s: State, a: Active, index: nat, written: nat)
    requires Running(s, a) && Replayed(s.sidecar.value) == a.delivered
    requires index in Remaining(|a.manifest.hashes|, a.delivered) && !Spoils(s.sidecar.value.log, index, written)
    ensures var t := Appended(s.sidecar, Cut(Entry(index), written));
            && t.Some? && t.value.manifest == a.manifest
            && a.delivered <= Replayed(t.value) <= a.delivered + {index}
  {
    hide Load, Entry, Echo;
    var w := if written <= PROGRESS_ENTRY_LEN then written else PROGRESS_ENTRY_LEN;
    UnspoiledRecord(s.sidecar.value.log, index, |a.manifest.hashes|, w);
    assert Cut(Entry(index), written) == Entry(index)[..w];
  }

  lemma StepKeepsInv(H: seq<Byte> -> Hash, play: set<seq<Byte>>, s: State, spoiled: bool, e: Event)
    requires CollisionFree(H, play) && Inv(H, play, s, spoiled) && Honest(H, play, e) && Trusts(s, spoiled, e)
    ensures Inv(H, play, Step(H, s, e), SpoiledAfter(H, s, spoiled, e))
  {
    hide Load, WriteAt, Faithful, InPlay, CollisionFree, Accepts;
    match e
    case Receive(f) =>
      if f.Offer? {
        var src :| InPlay(play, src) && IsOfferOf(H, f, src);
        OfferStep(H, play, s, spoiled, f, src);
      } else if f.Fragment? {
        FragmentStep(H, play, s, spoiled, f.index, f.data);
      }
    case CrashInFragment(index, data, written) => CrashInFragmentStep(H, play, s, spoiled, index, data, written);
    case CrashInRecord(index, data, written) => CrashInRecordStep(H, play, s, spoiled, index, data, written);
    case CrashInOffer(f, _) => CrashInOfferStep(H, play, s, spoiled, e);
    case Crash =>
  }

  lemma CrashInOfferStep(H: seq<Byte> -> Hash, play: set<seq<Byte>>, s: State, spoiled: bool, e: Event)
    requires Inv(H, play, s, spoiled) && e.CrashInOffer?
    ensures Inv(H, play, Step(H, s, e), SpoiledAfter(H, s, spoiled, e))
  {
    if e.offer.Offer? {
      FreshLog(|e.offer.fragHashes|);
    }
    hide Load, Holds, InPlay;
  }

  /**
   In every run that never resumes a spoiled log, whatever is lost, repeated, forged or crashed, inside a record
   included, what the receiver remembers and what an unspoiled log replays are fragments of the source.
   */
  lemma {:induction false} RunKeepsInv(H: seq<Byte> -> Hash, play: set<seq<Byte>>, s: State, spoiled: bool,
                                       events: seq<Event>)
    requires CollisionFree(H, play) && Inv(H, play, s, spoiled) && NeverResumesSpoiled(H, s, spoiled, events)
    requires forall i :: 0 <= i < |events| ==> Honest(H, play, events[i])
    ensures Inv(H, play, Run(H, s, events), SpoiledRun(H, s, spoiled, events))
    decreases |events|
  {
    if events != [] {
      StepKeepsInv(H, play, s, spoiled, events[0]);
      assert forall i :: 0 <= i < |events[1..]| ==> events[1..][i] == events[i + 1];
      hide Inv, Step, SpoiledAfter, Trusts, CollisionFree, Honest;
      RunKeepsInv(H, play, Step(H, s, events[0]), SpoiledAfter(H, s, spoiled, events[0]), events[1..]);
    }
  }

  lemma NothingKept(H: seq<Byte> -> Hash, play: set<seq<Byte>>, disk: seq<Byte>)
    ensures Inv(H, play, State(disk, None, None), false)
  {
  }

  // ----- runs in two parts -----

  lemma {:induction false} RunSplit(H: seq<Byte> -> Hash, s: State, spoiled: bool, a: seq<Event>, b: seq<Event>)
    ensures Run(H, s, a + b) == Run(H, Run(H, s, a), b)
    ensures SpoiledRun(H, s, spoiled, a + b) == SpoiledRun(H, Run(H, s, a), SpoiledRun(H, s, spoiled, a), b)
    ensures NeverResumesSpoiled(H, s, spoiled, a + b)
       <==> NeverResumesSpoiled(H, s, spoiled, a)
            && NeverResumesSpoiled(H, Run(H, s, a), SpoiledRun(H, s, spoiled, a), b)
    decreases |a|
  {
    hide Step, SpoiledAfter, Trusts;
    if a == [] {
      assert a + b == b;
    } else {
      assert (a + b)[0] == a[0] && (a + b)[1..] == a[1..] + b;
      RunSplit(H, Step(H, s, a[0]), SpoiledAfter(H, s, spoiled, a[0]), a[1..], b);
    }
  }

  lemma RunStep(H: seq<Byte> -> Hash, s: State, events: seq<Event>)
    requires events != []
    ensures Run(H, s, events) == Run(H, Step(H, s, events[0]), events[1..])
    ensures |events| == 1 ==> Run(H, s, events) == Step(H, s, events[0])
  {
    hide Step;
  }

  // ----- runs without cut entries -----

  /** The event does not cut a progress entry. */
  predicate Untorn(e: Event) { e.CrashInRecord? ==> e.written == 0 || e.written >= PROGRESS_ENTRY_LEN }

  predicate AlignedOnDisk(s: State) { s.sidecar.Some? ==> Aligned(s.sidecar.value.log) }

  lemma UntornStep(H: seq<Byte> -> Hash, s: State, e: Event)
    requires AlignedOnDisk(s) && Untorn(e)
    ensures AlignedOnDisk(Step(H, s, e)) && !SpoiledAfter(H, s, false, e)
  {
    hide Load, WriteAt, SetLen, Entry, Accepts, Echo;
  }

  /** Runs that never cut a progress entry never spoil a log. */
  lemma {:induction false} UntornRunsAreSafe(H: seq<Byte> -> Hash, s: State, events: seq<Event>)
    requires AlignedOnDisk(s) && forall i :: 0 <= i < |events| ==> Untorn(events[i])
    ensures NeverResumesSpoiled(H, s, false, events) && !SpoiledRun(H, s, false, events)
    decreases |events|
  {
    if events != [] {
      UntornStep(H, s, events[0]);
      assert forall i :: 0 <= i < |events[1..]| ==> events[1..][i] == events[i + 1];
      UntornRunsAreSafe(H, Step(H, s, events[0]), events[1..]);
    }
  }

  // ----- completion -----

  /** The indices 0 to n - 1: what remains when nothing has been delivered. */
  function Below(n: nat): set<nat> { Remaining(n, {}) }

  lemma {:induction false} BelowSize(n: nat)
    ensures |Below(n)| == n
  {
    if n > 0 {
      BelowSize(n - 1);
      assert Below(n) == Below(n - 1) + {n - 1};
    }
  }

  lemma SubsetSize(a: set<nat>, b: set<nat>)
    requires a <= b
    ensures |a| <= |b| && (|a| == |b| ==> a == b)
  {
    assert b == a + (b - a);
  }

  lemma AllHeldIsWhole(file: seq<Byte>, src: seq<Byte>)
    requires |file| == |src| && forall i :: 0 <= i < FragmentCount(src) ==> Holds(file, src, i)
    ensures file == src
  {
    forall k | 0 <= k < |src| ensures file[k] == src[k] {
      var i := k / FRAGMENT_LEN;
      var lo, c := i * FRAGMENT_LEN, Chunk(src, i);
      assert Holds(file, src, i);
      assert file[lo..lo + |c|][k - lo] == c[k - lo];
    }
  }

  /**
   Completion, exactly: in a running receiver with a true memory that was offered `src`, a `Complete` frame is
   answered with completion if and only if every index has been delivered, and then the destination equals `src`;
   otherwise it reports how many are missing.  The whole-file check never fails.
   */
  lemma CompletionExactly(H: seq<Byte> -> Hash, play: set<seq<Byte>>, s: State, src: seq<Byte>)
    requires Mem(H, play, s) && InPlay(play, src) && ActiveFor(H, s.active.value, src)
    ensures var n := FragmentCount(src);
            var r := Apply(H, s, Frame.Complete).1;
            && s.active.value.delivered <= Below(n)
            && (s.active.value.delivered == Below(n) ==> s.file == src && r == Ok(Completed))
            && (s.active.value.delivered != Below(n) ==> r == Ok(Incomplete(|Remaining(n, s.active.value.delivered)|)))
  {
    var n, d := FragmentCount(src), s.active.value.delivered;
    SameManifestHashes(H, src, 0);
    BelowSize(n);
    SubsetSize(d, Below(n));
    if d == Below(n) {
      forall i | 0 <= i < n ensures Holds(s.file, src, i) {
        assert i in d;
      }
      AllHeldIsWhole(s.file, src);
    }
  }

  /** Safety: in a run that never resumes a spoiled log, `Completed` means the destination is an offered file. */
  lemma CompletedMeansIdentical(H: seq<Byte> -> Hash, play: set<seq<Byte>>, disk: seq<Byte>, events: seq<Event>)
    requires CollisionFree(H, play) && NeverResumesSpoiled(H, State(disk, None, None), false, events)
    requires forall i :: 0 <= i < |events| ==> Honest(H, play, events[i])
    ensures var s := Run(H, State(disk, None, None), events);
            Apply(H, s, Frame.Complete).1 == Ok(Completed) ==>
              s.active.Some? && exists src :: InPlay(play, src) && ActiveFor(H, s.active.value, src) && s.file == src
  {
    NothingKept(H, play, disk);
    RunKeepsInv(H, play, State(disk, None, None), false, events);
    var s := Run(H, State(disk, None, None), events);
    if Apply(H, s, Frame.Complete).1 == Ok(Completed) {
      var src :| InPlay(play, src) && ActiveFor(H, s.active.value, src);
      CompletionExactly(H, play, s, src);
    }
  }

  /** Whatever runs, a running receiver works on an offered file. */
  ghost predicate Offered(H: seq<Byte> -> Hash, play: set<seq<Byte>>, s: State) {
    s.active.Some? ==> exists src :: InPlay(play, src) && ActiveFor(H, s.active.value, src)
  }

  lemma OfferedStep(H: seq<Byte> -> Hash, play: set<seq<Byte>>, s: State, e: Event)
    requires Offered(H, play, s) && Honest(H, play, e)
    ensures Offered(H, play, Step(H, s, e))
  {
    hide Load, WriteAt, SetLen;
    if e.Receive? && e.frame.Offer? {
      var src :| InPlay(play, src) && IsOfferOf(H, e.frame, src);
      assert ActiveFor(H, Step(H, s, e).active.value, src);
    } else if Step(H, s, e).active.Some? {
      var src :| InPlay(play, src) && ActiveFor(H, s.active.value, src);
      assert ActiveFor(H, Step(H, s, e).active.value, src);
    }
  }

  lemma {:induction false} RunsStayOffered(H: seq<Byte> -> Hash, play: set<seq<Byte>>, s: State, events: seq<Event>)
    requires Offered(H, play, s) && forall i :: 0 <= i < |events| ==> Honest(H, play, events[i])
    ensures Offered(H, play, Run(H, s, events))
    decreases |events|
  {
    if events != [] {
      OfferedStep(H, play, s, events[0]);
      assert forall i :: 0 <= i < |events[1..]| ==> events[1..][i] == events[i + 1];
      RunsStayOffered(H, play, Step(H, s, events[0]), events[1..]);
    }
  }

  /**
   The final check guards every run, misread logs included: `Completed` means the destination hashes like an offered
   file, so it is that file unless its contents collide with it.
   */
  lemma FinalCheckGuards(H: seq<Byte> -> Hash, play: set<seq<Byte>>, disk: seq<Byte>, events: seq<Event>)
    requires forall i :: 0 <= i < |events| ==> Honest(H, play, events[i])
    ensures var s := Run(H, State(disk, None, None), events);
            Apply(H, s, Frame.Complete).1 == Ok(Completed) ==>
              && s.active.Some?
              && exists src :: InPlay(play, src) && ActiveFor(H, s.active.value, src) && H(s.file) == H(src)
  {
    RunsStayOffered(H, play, State(disk, None, None), events);
  }

  // ----- the mutable receiver -----

  class FileReceiver {
    const hash: seq<Byte> -> Hash
    var file: seq<Byte>
    var sidecar: Option<Sidecar>
    var active: Option<Active>

    ghost function Value(): State
      reads this
    {
      State(file, sidecar, active)
    }

    /** A receiver over whatever an earlier process left on disk. */
    constructor (hash: seq<Byte> -> Hash, file: seq<Byte>, sidecar: Option<Sidecar>)
      ensures Value() == State(file, sidecar, None) && this.hash == hash
    {
      this.hash, this.file, this.sidecar, active := hash, file, sidecar, None;
    }

    method ApplyFrame(f: Frame) returns (r: Result<Progress, Error>)
      modifies this
      ensures (Value(), r) == Apply(hash, old(Value()), f)
    {
      match f {
        case Offer(_, total, hashes, whole) =>
          var m := Manifest(hashes, total);
          var side := OpenSidecar(sidecar, m);
          sidecar := Some(side);
          file := SetLen(file, total);
          var delivered := Replayed(side);
          active := Some(Active(m, delivered, whole));
          return Ok(Started(|Remaining(|hashes|, delivered)|));
        case Fragment(index, data) =>
          if active.None? {
            return Err(NoOffer);
          }
          var a := active.value;
          if index >= |a.manifest.hashes| {
            return Err(BadIndex);
          }
          if index !in Remaining(|a.manifest.hashes|, a.delivered) {
            return Ok(Duplicate);
          }
          if hash(data) != a.manifest.hashes[index] {
            return Err(HashMismatch(index));
          }
          file := WriteAt(file, index * FRAGMENT_LEN, data);
          var delivered := a.delivered + {index};
          sidecar := Appended(sidecar, Entry(index));
          active := Some(a.(delivered := delivered));
          return Ok(Written(|delivered|, |a.manifest.hashes|));
        case Complete =>
          if active.None? {
            return Err(NoOffer);
          }
          var a := active.value;
          if |a.delivered| != |a.manifest.hashes| {
            return Ok(Incomplete(|Remaining(|a.manifest.hashes|, a.delivered)|));
          }
          if hash(file) != a.wholeHash {
            return Err(WholeHashMismatch);
          }
          active := None;
          sidecar := None;
          return Ok(Completed);
      }
    }
  }
}
