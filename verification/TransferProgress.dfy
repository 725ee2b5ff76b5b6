/**
 Progress of file transfers: everything that arrives counts until the transfer completes, over any number of passes,
 restarts and torn writes, as long as no spoiled log is resumed; and the sender's own pass, over the wire.
 */
module TransferProgress {
  import opened Prelude
  import opened XferCodec
  import opened ResumeLog
  import opened FileTransfer

  /** Events of a transfer of `src`: its offers, any fragments, requests for completion and crashes. */
  ghost predicate Transferring(H: seq<Byte> -> Hash, play: set<seq<Byte>>, src: seq<Byte>, e: Event) {
    match e
    case Receive(f) => (f.Offer? ==> IsOfferOf(H, f, src)) && (f.Fragment? ==> f.data in play)
    case CrashInOffer(f, _) => f.Offer? && IsOfferOf(H, f, src)
    case CrashInFragment(_, data, _) => data in play
    case CrashInRecord(_, data, _) => data in play
    case Crash => true
  }

  /** Indices whose fragment came in while the receiver was running. */
  function Arrived(H: seq<Byte> -> Hash, src: seq<Byte>, s: State, events: seq<Event>): set<nat>
    decreases |events|
  {
    if events == [] then {}
    else
      var e := events[0];
      (if e.Receive? && e.frame.Fragment? && s.active.Some? && e.frame.index < FragmentCount(src)
          && e.frame == FragmentOf(src, e.frame.index)
       then {e.frame.index} else {})
      + Arrived(H, src, Step(H, s, e), events[1..])
  }

  /** In this state a `Complete` is answered with completion, and the destination is `src`. */
  predicate Completes(H: seq<Byte> -> Hash, s: State, src: seq<Byte>) {
    Apply(H, s, Frame.Complete).1 == Ok(Completed) && s.file == src
  }

  /** Some `Complete` along the way is answered with completion, with `src` in place at that moment. */
  predicate CompletesWithin(H: seq<Byte> -> Hash, s: State, events: seq<Event>, src: seq<Byte>)
    decreases |events|
  {
    events != [] &&
    ((events[0] == Receive(Frame.Complete) && Completes(H, s, src))
     || CompletesWithin(H, Step(H, s, events[0]), events[1..], src))
  }

  ghost predicate On(H: seq<Byte> -> Hash, s: State, src: seq<Byte>) {
    && s.sidecar.Some? && s.sidecar.value.manifest == ManifestOf(H, src)
    && (s.active.Some? ==> ActiveFor(H, s.active.value, src))
  }

  /** The fragments the disk knows of. */
  function Kept(s: State): set<nat>
    requires s.sidecar.Some?
  {
    Replayed(s.sidecar.value)
  }

  function InMemory(s: State): set<nat> { if s.active.Some? then s.active.value.delivered else {} }

  /** A running receiver remembers these fragments, and so does a log that is not spoiled. */
  ghost predicate Knows(s: State, spoiled: bool, known: set<nat>)
    requires s.sidecar.Some?
  {
    (s.active.Some? ==> known <= s.active.value.delivered) && (!spoiled ==> known <= Kept(s))
  }

  // ----- one event -----

  /** A request for completion that comes too early changes nothing. */
  lemma EarlyComplete(H: seq<Byte> -> Hash, play: set<seq<Byte>>, src: seq<Byte>, s: State, spoiled: bool)
    requires Inv(H, play, s, spoiled) && InPlay(play, src) && On(H, s, src) && !Completes(H, s, src)
    ensures Apply(H, s, Frame.Complete).0 == s
  {
    if s.active.Some? {
      CompletionExactly(H, play, s, src);
    }
  }

  /** The source's fragment, once received by a running receiver, is in its memory. */
  lemma FragmentRemembered(H: seq<Byte> -> Hash, src: seq<Byte>, s: State, f: Frame)
    requires f.Fragment? && s.active.Some? && ActiveFor(H, s.active.value, src)
    ensures var t := Apply(H, s, f).0;
            && t.active.Some? && ActiveFor(H, t.active.value, src)
            && s.active.value.delivered + Arrived(H, src, s, [Receive(f)]) <= t.active.value.delivered
  {
    hide Load, WriteAt, Chunk, Appended;
    SameManifestHashes(H, src, f.index);
    assert [Receive(f)][1..] == [];
  }

  lemma FragmentArrives(H: seq<Byte> -> Hash, play: set<seq<Byte>>, src: seq<Byte>, s: State, spoiled: bool, f: Frame,
                        known: set<nat>)
    requires Inv(H, play, s, spoiled) && On(H, s, src) && f.Fragment? && Knows(s, spoiled, known)
    requires Inv(H, play, Apply(H, s, f).0, SpoiledAfter(H, s, spoiled, Receive(f)))
    ensures var t := Apply(H, s, f).0;
            On(H, t, src) && Knows(t, SpoiledAfter(H, s, spoiled, Receive(f)), known + Arrived(H, src, s, [Receive(f)]))
  {
    hide Load, WriteAt, Faithful, Spoils;
    if s.active.Some? {
      FragmentRemembered(H, src, s, f);
      hide Arrived, SpoiledAfter;
      assert Apply(H, s, f).0.sidecar.Some?;
      assert Apply(H, s, f).0.sidecar.value.manifest == s.sidecar.value.manifest;
      hide Apply;
    } else {
      assert [Receive(f)][1..] == [];
      assert Apply(H, s, f).0 == s && !Accepts(H, s, f.index, f.data);
    }
  }

  lemma TransferStep(H: seq<Byte> -> Hash, play: set<seq<Byte>>, src: seq<Byte>, s: State, spoiled: bool, e: Event,
                     known: set<nat>)
    requires CollisionFree(H, play) && Inv(H, play, s, spoiled) && InPlay(play, src) && On(H, s, src)
    requires Transferring(H, play, src, e) && Trusts(s, spoiled, e) && Knows(s, spoiled, known)
    requires e == Receive(Frame.Complete) ==> !Completes(H, s, src)
    ensures var t, after := Step(H, s, e), SpoiledAfter(H, s, spoiled, e);
            Inv(H, play, t, after) && On(H, t, src) && Knows(t, after, known + Arrived(H, src, s, [e]))
  {
    hide Chunk, InPlay, CollisionFree, Load, WriteAt, SetLen, Faithful, Spoils;
    assert Honest(H, play, e);
    StepKeepsInv(H, play, s, spoiled, e);
    assert [e][1..] == [];
    assert Arrived(H, src, Step(H, s, e), []) == {};
    match e
    case Receive(f) =>
      if f.Fragment? {
        FragmentArrives(H, play, src, s, spoiled, f, known);
        hide Apply, FragmentOf, Inv;
      } else if f.Complete? {
        EarlyComplete(H, play, src, s, spoiled);
      }
    case CrashInRecord(index, data, written) => CrashInRecordStep(H, play, s, spoiled, index, data, written);
    case _ =>
  }

  /** Until the transfer completes, everything that arrives is remembered. */
  lemma {:induction false} DeliveredCoversArrivals(H: seq<Byte> -> Hash, play: set<seq<Byte>>, src: seq<Byte>, s: State,
                                                   spoiled: bool, events: seq<Event>, known: set<nat>)
    requires CollisionFree(H, play) && Inv(H, play, s, spoiled) && InPlay(play, src) && On(H, s, src)
    requires NeverResumesSpoiled(H, s, spoiled, events) && Knows(s, spoiled, known)
    requires forall i :: 0 <= i < |events| ==> Transferring(H, play, src, events[i])
    ensures var t, after := Run(H, s, events), SpoiledRun(H, s, spoiled, events);
            || CompletesWithin(H, s, events, src)
            || (&& Inv(H, play, t, after) && On(H, t, src)
                && Knows(t, after, known + Arrived(H, src, s, events)))
    decreases |events|
  {
    if events != [] && !CompletesWithin(H, s, events, src) {
      TransferStep(H, play, src, s, spoiled, events[0], known);
      assert forall i :: 0 <= i < |events[1..]| ==> events[1..][i] == events[i + 1];
      assert [events[0]][1..] == [];
      var more := Arrived(H, src, s, [events[0]]);
      assert Arrived(H, src, s, events) == more + Arrived(H, src, Step(H, s, events[0]), events[1..]);
      hide Inv, InPlay, CollisionFree, Apply, Completes, Knows, Arrived, SpoiledAfter, Trusts, Transferring, Step;
      DeliveredCoversArrivals(H, play, src, Step(H, s, events[0]), SpoiledAfter(H, s, spoiled, events[0]), events[1..],
                              known + more);
      assert known + more + Arrived(H, src, Step(H, s, events[0]), events[1..]) == known + Arrived(H, src, s, events);
    }
  }

  lemma AllKnownCompletes(H: seq<Byte> -> Hash, play: set<seq<Byte>>, src: seq<Byte>, s: State, spoiled: bool)
    requires Inv(H, play, s, spoiled) && InPlay(play, src) && On(H, s, src) && s.active.Some?
    requires Below(FragmentCount(src)) <= s.active.value.delivered
    ensures Completes(H, s, src)
  {
    CompletionExactly(H, play, s, src);
    hide Apply, InPlay, Remaining, Faithful;
  }

  // ----- whole runs -----

  /** An offer of `src` puts the receiver on it. */
  lemma OfferPutsOn(H: seq<Byte> -> Hash, s: State, offer: Frame, src: seq<Byte>)
    requires IsOfferOf(H, offer, src)
    ensures On(H, Apply(H, s, offer).0, src) && Apply(H, s, offer).0.active.Some?
  {
    hide Load, SetLen;
  }

  /** A receiver that runs for `src`: once memory and arrivals cover the file, the transfer has or will complete. */
  lemma ArrivalsComplete(H: seq<Byte> -> Hash, play: set<seq<Byte>>, src: seq<Byte>, s: State, spoiled: bool,
                         events: seq<Event>)
    requires CollisionFree(H, play) && Inv(H, play, s, spoiled) && InPlay(play, src) && On(H, s, src) && s.active.Some?
    requires NeverResumesSpoiled(H, s, spoiled, events)
    requires forall i :: 0 <= i < |events| ==> Transferring(H, play, src, events[i])
    requires Below(FragmentCount(src)) <= InMemory(s) + Arrived(H, src, s, events)
    ensures CompletesWithin(H, s, events, src)
            || (Run(H, s, events).active.Some? ==> Completes(H, Run(H, s, events), src))
  {
    hide Arrived, Remaining, Faithful, InPlay, CompletesWithin, Completes, CollisionFree, Transferring, Load;
    hide NeverResumesSpoiled, SpoiledRun, Run;
    DeliveredCoversArrivals(H, play, src, s, spoiled, events, InMemory(s));
    if !CompletesWithin(H, s, events, src) && Run(H, s, events).active.Some? {
      AllKnownCompletes(H, play, src, Run(H, s, events), SpoiledRun(H, s, spoiled, events));
    }
  }

  /** After any honest history an offer of `src` that resumes no spoiled log leaves a receiver running for `src`. */
  lemma AfterOffer(H: seq<Byte> -> Hash, play: set<seq<Byte>>, disk: seq<Byte>, history: seq<Event>, offer: Frame,
                   src: seq<Byte>)
    requires CollisionFree(H, play) && InPlay(play, src) && IsOfferOf(H, offer, src)
    requires NeverResumesSpoiled(H, State(disk, None, None), false, history + [Receive(offer)])
    requires forall i :: 0 <= i < |history| ==> Honest(H, play, history[i])
    ensures var s0, upTo := State(disk, None, None), history + [Receive(offer)];
            var s := Run(H, s0, upTo);
            Inv(H, play, s, SpoiledRun(H, s0, false, upTo)) && On(H, s, src) && s.active.Some?
  {
    var s0, upTo := State(disk, None, None), history + [Receive(offer)];
    assert Honest(H, play, Receive(offer));
    hide NeverResumesSpoiled, SpoiledRun, Inv, InPlay, Run, CollisionFree, Honest, Apply, IsOfferOf;
    NothingKept(H, play, disk);
    RunKeepsInv(H, play, s0, false, upTo);
    RunSplit(H, s0, false, history, [Receive(offer)]);
    RunStep(H, Run(H, s0, history), [Receive(offer)]);
    OfferPutsOn(H, Run(H, s0, history), offer, src);
  }

  /**
   Progress: after any honest history, torn records included, once `src` has been offered and what was replayed plus
   what has come in while the receiver was up covers the file — in any order, over any number of passes, with losses,
   repeats, forgeries, premature completions and crashes in between, no spoiled log being resumed — either a
   `Complete` on the way was answered with completion, or a running receiver answers the next one so; the
   destination is `src` at that moment.  The last resume may well be of a log that ends in a cut entry.
   */
  lemma CompletesOnceAllArrived(H: seq<Byte> -> Hash, play: set<seq<Byte>>, disk: seq<Byte>, history: seq<Event>,
                                offer: Frame, src: seq<Byte>, events: seq<Event>)
    requires CollisionFree(H, play) && InPlay(play, src) && IsOfferOf(H, offer, src)
    requires NeverResumesSpoiled(H, State(disk, None, None), false, history + [Receive(offer)] + events)
    requires forall i :: 0 <= i < |history| ==> Honest(H, play, history[i])
    requires forall i :: 0 <= i < |events| ==> Transferring(H, play, src, events[i])
    requires var s := Run(H, State(disk, None, None), history + [Receive(offer)]);
             Below(FragmentCount(src)) <= InMemory(s) + Arrived(H, src, s, events)
    ensures var s := Run(H, State(disk, None, None), history + [Receive(offer)]);
            var t := Run(H, s, events);
            CompletesWithin(H, s, events, src) || (t.active.Some? ==> Completes(H, t, src))
  {
    hide Arrived, Remaining, Chunk, CompletesWithin, NeverResumesSpoiled, SpoiledRun, Inv, InPlay, Completes, Run, On;
    hide CollisionFree, IsOfferOf, Honest, Transferring, InMemory;
    var s0, upTo := State(disk, None, None), history + [Receive(offer)];
    RunSplit(H, s0, false, upTo, events);
    AfterOffer(H, play, disk, history, offer, src);
    ArrivalsComplete(H, play, src, Run(H, s0, upTo), SpoiledRun(H, s0, false, upTo), events);
  }

  // ----- passes -----

  function Received(frames: seq<Frame>): seq<Event> {
    seq(|frames|, i requires 0 <= i < |frames| => Receive(frames[i]))
  }

  /** These frames are fragments of `src`. */
  ghost predicate OwnFragments(src: seq<Byte>, frames: seq<Frame>) {
    forall k :: 0 <= k < |frames| ==>
      frames[k].Fragment? && frames[k].index < FragmentCount(src) && frames[k] == FragmentOf(src, frames[k].index)
  }

  function Indices(frames: seq<Frame>): set<nat> {
    if frames == [] then {}
    else (if frames[0].Fragment? then {frames[0].index} else {}) + Indices(frames[1..])
  }

  lemma {:induction false} IndexAmong(frames: seq<Frame>, k: nat)
    requires k < |frames| && frames[k].Fragment?
    ensures frames[k].index in Indices(frames)
  {
    if k > 0 {
      IndexAmong(frames[1..], k - 1);
    }
  }

  /** Taking a fragment leaves the receiver up. */
  lemma StaysUp(H: seq<Byte> -> Hash, s: State, f: Frame)
    requires s.active.Some? && f.Fragment?
    ensures Apply(H, s, f).0.active.Some?
  {
    hide WriteAt, Load;
  }

  /** Fragments of `src` received in one session all arrive; nothing completes or is resumed on the way. */
  lemma {:induction false} SessionArrivals(H: seq<Byte> -> Hash, src: seq<Byte>, s: State, spoiled: bool,
                                           frames: seq<Frame>)
    requires s.active.Some? && OwnFragments(src, frames)
    ensures var events := Received(frames);
            && Arrived(H, src, s, events) == Indices(frames) && Run(H, s, events).active.Some?
            && !CompletesWithin(H, s, events, src) && NeverResumesSpoiled(H, s, spoiled, events)
    decreases |frames|
  {
    var events := Received(frames);
    if frames != [] {
      StaysUp(H, s, frames[0]);
      assert events[0] == Receive(frames[0]) && events[1..] == Received(frames[1..]);
      hide Apply, FragmentOf, SpoiledAfter, Received;
      SessionArrivals(H, src, Step(H, s, events[0]), SpoiledAfter(H, s, spoiled, events[0]), frames[1..]);
    }
  }

  lemma OwnFragmentsTransfer(H: seq<Byte> -> Hash, play: set<seq<Byte>>, src: seq<Byte>, frames: seq<Frame>)
    requires InPlay(play, src) && OwnFragments(src, frames)
    ensures forall i :: 0 <= i < |frames| ==> Transferring(H, play, src, Received(frames)[i])
  {
    forall i | 0 <= i < |frames| ensures Transferring(H, play, src, Received(frames)[i]) {
      assert Chunk(src, frames[i].index) in play;
    }
  }

  /** One session: once memory and the fragments received cover the file, the next `Complete` completes. */
  lemma SessionCompletes(H: seq<Byte> -> Hash, play: set<seq<Byte>>, src: seq<Byte>, s: State, spoiled: bool,
                         frames: seq<Frame>)
    requires CollisionFree(H, play) && Inv(H, play, s, spoiled) && InPlay(play, src) && On(H, s, src) && s.active.Some?
    requires OwnFragments(src, frames) && Below(FragmentCount(src)) <= InMemory(s) + Indices(frames)
    ensures Completes(H, Run(H, s, Received(frames)), src)
  {
    SessionArrivals(H, src, s, spoiled, frames);
    OwnFragmentsTransfer(H, play, src, frames);
    hide Inv, Arrived, Remaining, CompletesWithin, Completes, Transferring, NeverResumesSpoiled, Run, InPlay, InMemory;
    hide CollisionFree, Indices, OwnFragments;
    ArrivalsComplete(H, play, src, s, spoiled, Received(frames));
  }

  lemma AllFragments(src: seq<Byte>)
    ensures OwnFragments(src, Fragments(src)) && Below(FragmentCount(src)) <= Indices(Fragments(src))
  {
    forall i | i in Below(FragmentCount(src)) ensures i in Indices(Fragments(src)) {
      IndexAmong(Fragments(src), i);
    }
  }

  lemma PassShape(H: seq<Byte> -> Hash, name: seq<Byte>, src: seq<Byte>)
    ensures var pass := Received(SendFile(H, name, src));
            && |pass| == FragmentCount(src) + 2 && pass[|pass| - 1] == Receive(Frame.Complete)
            && pass[..|pass| - 1] == [Receive(OfferOf(H, name, src))] + Received(Fragments(src))
  {
    hide OfferOf, FragmentOf;
  }

  /**
   One undisturbed pass after any honest history, earlier lossy passes, crashes and a record cut at its end included,
   completes the transfer; only a log that is already spoiled must not be resumed.
   */
  lemma SendFileDelivers(H: seq<Byte> -> Hash, play: set<seq<Byte>>, disk: seq<Byte>, history: seq<Event>,
                         name: seq<Byte>, src: seq<Byte>)
    requires CollisionFree(H, play) && InPlay(play, src) && FragmentCount(src) <= MAX_FRAGMENTS
    requires NeverResumesSpoiled(H, State(disk, None, None), false, history + [Receive(OfferOf(H, name, src))])
    requires forall i :: 0 <= i < |history| ==> Honest(H, play, history[i])
    ensures var s := Run(H, State(disk, None, None), history);
            var pass := Received(SendFile(H, name, src));
            && |pass| == FragmentCount(src) + 2 && pass[|pass| - 1] == Receive(Frame.Complete)
            && Completes(H, Run(H, s, pass[..|pass| - 1]), src)
  {
    var offer, events := OfferOf(H, name, src), Received(Fragments(src));
    var s0, upTo := State(disk, None, None), history + [Receive(offer)];
    assert IsOfferOf(H, offer, src);
    hide Run, Apply, Remaining, Chunk, Completes, CollisionFree, InPlay, Honest, Inv, InMemory;
    hide NeverResumesSpoiled, SpoiledRun, Received, Fragments, SendFile, IsOfferOf, Indices, OwnFragments;
    AfterOffer(H, play, disk, history, offer, src);
    AllFragments(src);
    SessionCompletes(H, play, src, Run(H, s0, upTo), SpoiledRun(H, s0, false, upTo), Fragments(src));
    PassShape(H, name, src);
    RunSplit(H, s0, false, history, [Receive(offer)]);
    RunSplit(H, Run(H, s0, history), false, [Receive(offer)], events);
  }

  /** What a receiver makes of the datagrams that reach it: those that decode become frames, the rest are dropped. */
  function Understood(utf8: seq<Byte> -> bool, wire: seq<seq<Byte>>): seq<Frame> {
    if wire == [] then []
    else
      (match Decode(utf8, wire[0]) case Ok(f) => [f] case Err(_) => []) + Understood(utf8, wire[1..])
  }

  function Wire(frames: seq<Frame>): seq<seq<Byte>> {
    seq(|frames|, i requires 0 <= i < |frames| => Encode(frames[i]))
  }

  lemma FrameUnderstood(utf8: seq<Byte> -> bool, f: Frame)
    requires Typed(utf8, f) && Encodable(f)
    ensures Decode(utf8, Encode(f)) == Ok(f)
  {
    hide Decode, Encode, Typed;
    RoundTripExactly(utf8, f, []);
    assert Encode(f) + [] == Encode(f);
  }

  lemma {:induction false} WireUnderstood(utf8: seq<Byte> -> bool, frames: seq<Frame>)
    requires forall i :: 0 <= i < |frames| ==> Typed(utf8, frames[i]) && Encodable(frames[i])
    ensures Understood(utf8, Wire(frames)) == frames
  {
    hide Decode, Encode, Typed, Encodable;
    if frames != [] {
      FrameUnderstood(utf8, frames[0]);
      assert Wire(frames)[0] == Encode(frames[0]) && Wire(frames)[1..] == Wire(frames[1..]);
      WireUnderstood(utf8, frames[1..]);
      hide Wire;
      assert [frames[0]] + frames[1..] == frames;
    }
  }

  lemma FrameFits(H: seq<Byte> -> Hash, utf8: seq<Byte> -> bool, name: seq<Byte>, src: seq<Byte>, i: nat)
    requires forall b :: |H(b)| == HASH_LEN
    requires utf8(name) && |name| < 0x1_0000 && FragmentCount(src) <= MAX_FRAGMENTS
    requires i < |SendFile(H, name, src)|
    ensures Typed(utf8, SendFile(H, name, src)[i]) && Encodable(SendFile(H, name, src)[i])
  {
    var f := SendFile(H, name, src)[i];
    if i == 0 {
      OfferFits(H, utf8, name, src);
    } else if i <= FragmentCount(src) {
      assert f == FragmentOf(src, i - 1);
      Widths();
    } else {
      assert f == Frame.Complete;
    }
  }

  lemma OfferFits(H: seq<Byte> -> Hash, utf8: seq<Byte> -> bool, name: seq<Byte>, src: seq<Byte>)
    requires forall b :: |H(b)| == HASH_LEN
    requires utf8(name) && |name| < 0x1_0000 && FragmentCount(src) <= MAX_FRAGMENTS
    ensures Typed(utf8, OfferOf(H, name, src)) && Encodable(OfferOf(H, name, src))
  {
    Widths();
    assert Pow256(6) == 256 * Pow256(5);
    assert Pow256(8) == 256 * Pow256(7);
    assert |src| < Pow256(8);
    var hashes := ManifestOf(H, src).hashes;
    forall i | 0 <= i < |hashes| ensures |hashes[i]| == HASH_LEN {
      SameManifestHashes(H, src, i);
    }
  }

  /** A file of at most 2^20 fragments with a name below 64 KiB crosses the wire frame by frame. */
  lemma WireCarriesSendFile(H: seq<Byte> -> Hash, utf8: seq<Byte> -> bool, name: seq<Byte>, src: seq<Byte>)
    requires forall b :: |H(b)| == HASH_LEN
    requires utf8(name) && |name| < 0x1_0000 && FragmentCount(src) <= MAX_FRAGMENTS
    ensures Understood(utf8, Wire(SendFile(H, name, src))) == SendFile(H, name, src)
  {
    hide SendFile, Typed, Encodable, Understood, Wire;
    forall i | 0 <= i < |SendFile(H, name, src)|
      ensures Typed(utf8, SendFile(H, name, src)[i]) && Encodable(SendFile(H, name, src)[i])
    {
      FrameFits(H, utf8, name, src, i);
    }
    WireUnderstood(utf8, SendFile(H, name, src));
  }

  /**
   End to end: the sender's file encoded to datagrams, decoded by a receiver with any such history, applied frame by
   frame: the last frame is answered with completion and the destination is the file.  The hash has 32 bytes.
   */
  lemma FileCrossesTheWire(H: seq<Byte> -> Hash, utf8: seq<Byte> -> bool, play: set<seq<Byte>>, disk: seq<Byte>,
                           history: seq<Event>, name: seq<Byte>, src: seq<Byte>)
    requires (forall b :: |H(b)| == HASH_LEN) && CollisionFree(H, play) && InPlay(play, src)
    requires utf8(name) && |name| < 0x1_0000 && FragmentCount(src) <= MAX_FRAGMENTS
    requires NeverResumesSpoiled(H, State(disk, None, None), false, history + [Receive(OfferOf(H, name, src))])
    requires forall i :: 0 <= i < |history| ==> Honest(H, play, history[i])
    ensures var s := Run(H, State(disk, None, None), history);
            var events := Received(Understood(utf8, Wire(SendFile(H, name, src))));
            && |events| == FragmentCount(src) + 2 && events[|events| - 1] == Receive(Frame.Complete)
            && Completes(H, Run(H, s, events[..|events| - 1]), src)
  {
    WireCarriesSendFile(H, utf8, name, src);
    SendFileDelivers(H, play, disk, history, name, src);
    hide Understood, Wire, Run, Completes;
  }
}
