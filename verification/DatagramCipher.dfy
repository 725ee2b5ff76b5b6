/**
 The per-direction datagram cipher that carries every datagram after the handshake: a counter nonce
 per seal, key rotation that resets the counter, and a stateless open.
 */
module DatagramCipher {
  import opened Prelude
  import opened NoiseIk

  /** A received datagram: nonce and box, or too short to hold both. */
  datatype Payload = Payload(nonce: seq<Byte>, box: Term) | Runt(length: nat)

  /** A key and the number of datagrams it has sealed; only the low 64 bits of that number reach the nonce. */
  datatype Epoch = Epoch(key: Term, counter: nat)

  function SealedPayload(c: Epoch, plain: Term): Payload {
    Payload(NonceBytes(c.counter), Sealed(c.key, NonceBytes(c.counter), EMPTY, plain))
  }

  function OpenPayload(key: Term, p: Payload): Option<Term> {
    match p
    case Runt(_) => None
    case Payload(nonce, box) => Unseal(key, nonce, EMPTY, box)
  }

  /** The counter is a 64-bit number and starts over at its end, as an unchecked addition does. */
  class Cipher {
    var key: Term
    var counter: nat
    /** How many datagrams this key has sealed. */
    ghost var seals: nat

    ghost predicate Valid()
      reads this
    {
      counter == seals % COUNTER_LIMIT
    }

    ghost function Value(): Epoch
      reads this
    {
      Epoch(key, seals)
    }

    constructor (key: Term)
      ensures Valid() && Value() == Epoch(key, 0)
    {
      this.key, counter, seals := key, 0, 0;
    }

    method RotateKey(newKey: Term)
      modifies this
      ensures Valid() && Value() == Epoch(newKey, 0)
    {
      key, counter, seals := newKey, 0, 0;
    }

    method Seal(plain: Term) returns (p: Payload)
      requires Valid()
      modifies this
      ensures Valid() && p == SealedPayload(old(Value()), plain)
      ensures Value() == old(Value()).(counter := old(seals) + 1)
    {
      NonceWraps(seals);
      DivStep(seals, COUNTER_LIMIT);
      hide NonceBytes;
      var nonce := NonceBytes(counter);
      counter := if counter + 1 == COUNTER_LIMIT then 0 else counter + 1;
      seals := seals + 1;
      p := Payload(nonce, Sealed(key, nonce, EMPTY, plain));
    }
  }

  // ----- runs -----

  datatype Op = SealOp(plain: Term) | RotateOp(key: Term)

  /** What one seal put on the wire, with the key and plaintext it used. */
  datatype Sent = Sent(key: Term, plain: Term, payload: Payload)

  function Run(c: Epoch, ops: seq<Op>): seq<Sent>
    decreases |ops|
  {
    if ops == [] then []
    else
      match ops[0]
      case SealOp(plain) => [Sent(c.key, plain, SealedPayload(c, plain))] + Run(c.(counter := c.counter + 1), ops[1..])
      case RotateOp(key) => Run(Epoch(key, 0), ops[1..])
  }

  /** Every seal happens with the counter still in its 64 bits. */
  predicate CounterFits(c: Epoch, ops: seq<Op>)
    decreases |ops|
  {
    ops == [] ||
    match ops[0]
    case SealOp(_) => c.counter < COUNTER_LIMIT && CounterFits(c.(counter := c.counter + 1), ops[1..])
    case RotateOp(key) => CounterFits(Epoch(key, 0), ops[1..])
  }

  /** Rotations install keys that differ from the current key and from each other. */
  ghost predicate FreshKeys(key: Term, ops: seq<Op>) {
    && (forall i :: 0 <= i < |ops| && ops[i].RotateOp? ==> ops[i].key != key)
    && (forall i, j :: 0 <= i < j < |ops| && ops[i].RotateOp? && ops[j].RotateOp? ==> ops[i].key != ops[j].key)
  }

  ghost predicate InstalledLater(key: Term, ops: seq<Op>) {
    exists i :: 0 <= i < |ops| && ops[i].RotateOp? && ops[i].key == key
  }

  lemma {:induction false} SentKeys(c: Epoch, ops: seq<Op>, k: nat)
    requires k < |Run(c, ops)| && CounterFits(c, ops)
    ensures var sent := Run(c, ops)[k];
            && sent.payload.Payload?
            && ((sent.key == c.key
                 && exists n: nat :: c.counter <= n < COUNTER_LIMIT && sent.payload.nonce == NonceBytes(n))
                || InstalledLater(sent.key, ops))
    decreases |ops|
  {
    var rest := ops[1..];
    match ops[0]
    case SealOp(plain) =>
      if k == 0 {
        assert Run(c, ops)[k].payload.nonce == NonceBytes(c.counter);
      } else {
        SentKeys(c.(counter := c.counter + 1), rest, k - 1);
        LaterInTail(Run(c, ops)[k].key, ops);
      }
    case RotateOp(key) =>
      SentKeys(Epoch(key, 0), rest, k);
      LaterInTail(Run(c, ops)[k].key, ops);
      assert ops[0].RotateOp? && ops[0].key == key;
  }

  lemma LaterInTail(key: Term, ops: seq<Op>)
    requires ops != []
    ensures InstalledLater(key, ops[1..]) ==> InstalledLater(key, ops)
  {
  }

  lemma FreshKeysTail(key: Term, ops: seq<Op>)
    requires ops != [] && FreshKeys(key, ops)
    ensures FreshKeys(key, ops[1..])
    ensures ops[0].RotateOp? ==> FreshKeys(ops[0].key, ops[1..])
  {
  }

  /** Over any run of seals and rotations to fresh keys, no key is ever used twice with one nonce. */
  lemma {:induction false} KeyNoncePairsNeverRepeat(c: Epoch, ops: seq<Op>, i: nat, j: nat)
    requires CounterFits(c, ops) && FreshKeys(c.key, ops) && i < j < |Run(c, ops)|
    ensures var a, b := Run(c, ops)[i], Run(c, ops)[j];
            && a.payload.Payload? && b.payload.Payload?
            && (a.key, a.payload.nonce) != (b.key, b.payload.nonce)
    decreases |ops|
  {
    FreshKeysTail(c.key, ops);
    var sent := Run(c, ops);
    match ops[0]
    case SealOp(plain) =>
      var next := c.(counter := c.counter + 1);
      if i == 0 {
        SentKeys(next, ops[1..], j - 1);
        assert sent[j] == Run(next, ops[1..])[j - 1];
        if sent[j].key == c.key {
          assert !InstalledLater(c.key, ops[1..]);
          var n: nat :| next.counter <= n < COUNTER_LIMIT && sent[j].payload.nonce == NonceBytes(n);
          if NonceBytes(n) == NonceBytes(c.counter) {
            NonceBytesInjective(n, c.counter);
          }
        }
      } else {
        KeyNoncePairsNeverRepeat(next, ops[1..], i - 1, j - 1);
      }
    case RotateOp(key) => KeyNoncePairsNeverRepeat(Epoch(key, 0), ops[1..], i, j);
  }

  // ----- the exact condition -----

  /** Seals before the first rotation. */
  function FirstSeals(ops: seq<Op>): (n: nat)
    ensures n <= |ops| && (n < |ops| ==> ops[n].RotateOp?)
  {
    if ops == [] || ops[0].RotateOp? then 0 else 1 + FirstSeals(ops[1..])
  }

  /** The run from the first rotation on. */
  function LaterRun(ops: seq<Op>): seq<Sent> {
    var n := FirstSeals(ops);
    if n < |ops| then Run(Epoch(ops[n].key, 0), ops[n + 1..]) else []
  }

  /** A run is the first epoch's seals followed by the run from the rotation on. */
  lemma {:induction false} FirstEpoch(c: Epoch, ops: seq<Op>)
    ensures FirstSeals(ops) <= |Run(c, ops)| && Run(c, ops)[FirstSeals(ops)..] == LaterRun(ops)
    decreases |ops|
  {
    if ops != [] && ops[0].SealOp? {
      var next, n := c.(counter := c.counter + 1), FirstSeals(ops);
      hide SealedPayload;
      FirstEpoch(next, ops[1..]);
      assert Run(c, ops)[n..] == Run(next, ops[1..])[n - 1..];
      if n < |ops| {
        assert ops[1..][n..] == ops[n + 1..];
      }
    }
  }

  /** Those seals use the counter's values in order. */
  lemma {:induction false} FirstPairs(c: Epoch, ops: seq<Op>, k: nat)
    requires k < FirstSeals(ops)
    ensures k < |Run(c, ops)| && PairOf(Run(c, ops)[k]) == (c.key, NonceBytes(c.counter + k))
    decreases |ops|
  {
    hide NonceBytes;
    if k > 0 {
      FirstPairs(c.(counter := c.counter + 1), ops[1..], k - 1);
    }
  }

  /** The counter fits if the first epoch is short enough and the later ones are. */
  lemma {:induction false} FirstFits(c: Epoch, ops: seq<Op>)
    requires c.counter + FirstSeals(ops) <= COUNTER_LIMIT
    requires var n := FirstSeals(ops); n < |ops| ==> CounterFits(Epoch(ops[n].key, 0), ops[n + 1..])
    ensures CounterFits(c, ops)
    decreases |ops|
  {
    if ops != [] && ops[0].SealOp? {
      var n := FirstSeals(ops);
      assert n < |ops| ==> ops[1..][n..] == ops[n + 1..];
      FirstFits(c.(counter := c.counter + 1), ops[1..]);
    }
  }

  /** The key and nonce of a datagram. */
  function PairOf(sent: Sent): (Term, seq<Byte>) {
    (sent.key, match sent.payload case Payload(nonce, _) => nonce case Runt(_) => [])
  }

  ghost predicate SomePairRepeats(sent: seq<Sent>) {
    exists i, j :: 0 <= i < j < |sent| && PairOf(sent[i]) == PairOf(sent[j])
  }

  lemma RepeatsInSuffix(sent: seq<Sent>, n: nat)
    requires n <= |sent| && SomePairRepeats(sent[n..])
    ensures SomePairRepeats(sent)
  {
    var later := sent[n..];
    var i, j :| 0 <= i < j < |later| && PairOf(later[i]) == PairOf(later[j]);
    assert later[i] == sent[n + i] && later[j] == sent[n + j];
  }

  lemma {:induction false} OverflowRepeats(key: Term, ops: seq<Op>)
    requires !CounterFits(Epoch(key, 0), ops)
    ensures SomePairRepeats(Run(Epoch(key, 0), ops))
    decreases |ops|, 1
  {
    var c, n := Epoch(key, 0), FirstSeals(ops);
    hide NonceBytes, SealedPayload, CounterFits, Run;
    if n > COUNTER_LIMIT {
      FirstPairs(c, ops, 0);
      FirstPairs(c, ops, COUNTER_LIMIT);
      NonceWraps(COUNTER_LIMIT);
      assert COUNTER_LIMIT % COUNTER_LIMIT == 0;
    } else {
      if n == |ops| || CounterFits(Epoch(ops[n].key, 0), ops[n + 1..]) {
        FirstFits(c, ops);
      }
      LaterRepeats(c, ops);
    }
  }

  lemma {:induction false} LaterRepeats(c: Epoch, ops: seq<Op>)
    requires var n := FirstSeals(ops); n < |ops| && !CounterFits(Epoch(ops[n].key, 0), ops[n + 1..])
    ensures SomePairRepeats(Run(c, ops))
    decreases |ops|, 0
  {
    var n := FirstSeals(ops);
    OverflowRepeats(ops[n].key, ops[n + 1..]);
    FirstEpoch(c, ops);
    hide Run, CounterFits, PairOf, SomePairRepeats;
    RepeatsInSuffix(Run(c, ops), n);
  }

  /** With fresh keys, a pair of key and nonce repeats exactly when some key seals more than 2^64 datagrams. */
  lemma PairsRepeatExactly(key: Term, ops: seq<Op>)
    requires FreshKeys(key, ops)
    ensures SomePairRepeats(Run(Epoch(key, 0), ops)) <==> !CounterFits(Epoch(key, 0), ops)
  {
    var c := Epoch(key, 0);
    if !CounterFits(c, ops) {
      OverflowRepeats(key, ops);
    } else if i, j :| 0 <= i < j < |Run(c, ops)| && PairOf(Run(c, ops)[i]) == PairOf(Run(c, ops)[j]) {
      KeyNoncePairsNeverRepeat(c, ops, i, j);
    }
  }

  /** A receiver opens a sent datagram to its plaintext exactly when it holds the key that sealed it. */
  lemma {:induction false} OpensExactlyUnderItsKey(c: Epoch, ops: seq<Op>, k: nat, key: Term)
    requires k < |Run(c, ops)|
    ensures var sent := Run(c, ops)[k];
            OpenPayload(key, sent.payload) == if key == sent.key then Some(sent.plain) else None
    decreases |ops|
  {
    match ops[0]
    case SealOp(plain) =>
      if k > 0 {
        OpensExactlyUnderItsKey(c.(counter := c.counter + 1), ops[1..], k - 1, key);
      }
    case RotateOp(newKey) => OpensExactlyUnderItsKey(Epoch(newKey, 0), ops[1..], k, key);
  }

  // ----- epochs, and the two sides rotating alike -----

  /** What one seal meant: how many rotations came before it, how many seals since the last, and the plaintext. */
  datatype Meant = Meant(epoch: nat, number: nat, plain: Term)

  function MeaningsFrom(epoch: nat, number: nat, ops: seq<Op>): seq<Meant>
    decreases |ops|
  {
    if ops == [] then []
    else
      match ops[0]
      case SealOp(plain) => [Meant(epoch, number, plain)] + MeaningsFrom(epoch, number + 1, ops[1..])
      case RotateOp(_) => MeaningsFrom(epoch + 1, 0, ops[1..])
  }

  function Meanings(ops: seq<Op>): seq<Meant> { MeaningsFrom(0, 0, ops) }

  /** The keys in the order they are in use: epoch 0 has the first. */
  function Keys(key: Term, ops: seq<Op>): (keys: seq<Term>)
    ensures keys != [] && keys[0] == key
    decreases |ops|
  {
    if ops == [] then [key]
    else
      match ops[0]
      case SealOp(_) => Keys(key, ops[1..])
      case RotateOp(next) => [key] + Keys(next, ops[1..])
  }

  /** Every datagram of a run was sealed under the key of its epoch, numbered from zero after each rotation. */
  lemma {:induction false} SealedInEpoch(c: Epoch, epoch: nat, ops: seq<Op>, k: nat)
    requires k < |Run(c, ops)|
    ensures |MeaningsFrom(epoch, c.counter, ops)| == |Run(c, ops)|
    ensures var meant, sent := MeaningsFrom(epoch, c.counter, ops)[k], Run(c, ops)[k];
            && epoch <= meant.epoch < epoch + |Keys(c.key, ops)|
            && sent.plain == meant.plain && sent.key == Keys(c.key, ops)[meant.epoch - epoch]
            && sent.payload.Payload? && sent.payload.nonce == NonceBytes(meant.number)
    decreases |ops|
  {
    hide NonceBytes;
    SameLength(c, epoch, ops);
    match ops[0]
    case SealOp(_) =>
      if k > 0 {
        SealedInEpoch(c.(counter := c.counter + 1), epoch, ops[1..], k - 1);
      }
    case RotateOp(key) => SealedInEpoch(Epoch(key, 0), epoch + 1, ops[1..], k);
  }

  lemma {:induction false} SameLength(c: Epoch, epoch: nat, ops: seq<Op>)
    ensures |MeaningsFrom(epoch, c.counter, ops)| == |Run(c, ops)|
    decreases |ops|
  {
    if ops != [] {
      match ops[0]
      case SealOp(_) => SameLength(c.(counter := c.counter + 1), epoch, ops[1..]);
      case RotateOp(key) => SameLength(Epoch(key, 0), epoch + 1, ops[1..]);
    }
  }

  lemma {:induction false} KeysInstalled(key: Term, ops: seq<Op>, i: nat)
    requires 0 < i < |Keys(key, ops)|
    ensures InstalledLater(Keys(key, ops)[i], ops)
    decreases |ops|
  {
    match ops[0]
    case SealOp(_) =>
      KeysInstalled(key, ops[1..], i);
      LaterInTail(Keys(key, ops)[i], ops);
    case RotateOp(next) =>
      if i > 1 {
        KeysInstalled(next, ops[1..], i - 1);
        LaterInTail(Keys(key, ops)[i], ops);
      } else {
        assert ops[0].RotateOp? && ops[0].key == Keys(key, ops)[1];
      }
  }

  /** Fresh keys: different epochs have different keys. */
  lemma {:induction false} KeysDiffer(key: Term, ops: seq<Op>, i: nat, j: nat)
    requires FreshKeys(key, ops) && i < j < |Keys(key, ops)|
    ensures Keys(key, ops)[i] != Keys(key, ops)[j]
    decreases |ops|
  {
    if i == 0 {
      KeysInstalled(key, ops, j);
    } else {
      FreshKeysTail(key, ops);
      match ops[0]
      case SealOp(_) => KeysDiffer(key, ops[1..], i, j);
      case RotateOp(next) => KeysDiffer(next, ops[1..], i - 1, j - 1);
    }
  }

  function Wire(sent: seq<Sent>): seq<Payload> { seq(|sent|, i requires 0 <= i < |sent| => sent[i].payload) }

  /** One arrival: which datagram, and how often the receiver has rotated by then. */
  datatype Arrival = Arrival(datagram: nat, epoch: nat)

  ghost predicate Arrivable(key: Term, ops: seq<Op>, arrivals: seq<Arrival>) {
    forall i :: 0 <= i < |arrivals| ==>
      arrivals[i].datagram < |Meanings(ops)| && arrivals[i].epoch < |Keys(key, ops)|
  }

  /** The receiving side: each delivered datagram is opened on its own, under the key of the receiver's epoch. */
  function Received(keys: seq<Term>, wire: seq<Payload>, arrivals: seq<Arrival>): seq<Option<Term>>
    requires forall i :: 0 <= i < |arrivals| ==> arrivals[i].datagram < |wire| && arrivals[i].epoch < |keys|
  {
    seq(|arrivals|, i requires 0 <= i < |arrivals| => OpenPayload(keys[arrivals[i].epoch], wire[arrivals[i].datagram]))
  }

  /** What ought to come out: the plaintext when both sides are in the same epoch, nothing otherwise. */
  function Expected(ops: seq<Op>, arrivals: seq<Arrival>): seq<Option<Term>>
    requires forall i :: 0 <= i < |arrivals| ==> arrivals[i].datagram < |Meanings(ops)|
  {
    seq(|arrivals|, i requires 0 <= i < |arrivals| =>
      var meant := Meanings(ops)[arrivals[i].datagram];
      if meant.epoch == arrivals[i].epoch then Some(meant.plain) else None)
  }

  /** One direction works: what the sender seals with `send` the receiver gets who rotates through the same keys. */
  ghost predicate Delivers(send: Term, recv: Term, ops: seq<Op>, arrivals: seq<Arrival>)
    requires Arrivable(recv, ops, arrivals)
  {
    var sent := Run(Epoch(send, 0), ops);
    |sent| == |Meanings(ops)| && Received(Keys(recv, ops), Wire(sent), arrivals) == Expected(ops, arrivals)
  }

  lemma DirectionDelivers(key: Term, ops: seq<Op>, arrivals: seq<Arrival>)
    requires FreshKeys(key, ops) && Arrivable(key, ops, arrivals)
    ensures Delivers(key, key, ops, arrivals)
  {
    var c := Epoch(key, 0);
    var sent, keys := Run(c, ops), Keys(key, ops);
    SameLength(c, 0, ops);
    forall i | 0 <= i < |arrivals|
      ensures OpenPayload(keys[arrivals[i].epoch], sent[arrivals[i].datagram].payload) == Expected(ops, arrivals)[i]
    {
      var k, e := arrivals[i].datagram, arrivals[i].epoch;
      SealedInEpoch(c, 0, ops, k);
      OpensExactlyUnderItsKey(c, ops, k, keys[e]);
      var m := Meanings(ops)[k].epoch;
      if m < e {
        KeysDiffer(key, ops, m, e);
      } else if e < m {
        KeysDiffer(key, ops, e, m);
      }
    }
  }

  /**
   After any completed handshake each direction, on its own traffic and with its own rotations to fresh keys, works
   under any loss, duplication or reordering: an arrival opens to the plaintext sealed into it exactly when the
   receiver has rotated as often as the sender had when sealing it.
   */
  lemma SessionDelivers(s: Secret, e: Secret, r: Secret, re: Secret, code: seq<Byte>,
                        up: seq<Op>, upArrivals: seq<Arrival>, down: seq<Op>, downArrivals: seq<Arrival>)
    requires var (ist, m1) := InitiatorStart(s, e, Public(r), code);
             ResponderReceive(r, code, m1).Ok? ==>
               var (theirs, m2) := ResponderReply(ResponderReceive(r, code, m1).value, re);
               && FreshKeys(RecvKey(theirs), up) && Arrivable(RecvKey(theirs), up, upArrivals)
               && FreshKeys(SendKey(theirs), down) && Arrivable(SendKey(theirs), down, downArrivals)
    ensures var (ist, m1) := InitiatorStart(s, e, Public(r), code);
            ResponderReceive(r, code, m1).Ok? &&
            var (theirs, m2) := ResponderReply(ResponderReceive(r, code, m1).value, re);
            InitiatorFinish(ist, s, m2).Ok? &&
            var mine := InitiatorFinish(ist, s, m2).value;
            && Delivers(SendKey(mine), RecvKey(theirs), up, upArrivals)
            && RecvKey(mine) == SendKey(theirs) && Delivers(SendKey(theirs), RecvKey(mine), down, downArrivals)
  {
    HandshakeAgreement(s, e, r, re, code);
    var (ist, m1) := InitiatorStart(s, e, Public(r), code);
    var (theirs, m2) := ResponderReply(ResponderReceive(r, code, m1).value, re);
    hide InitiatorStart, ResponderReceive, ResponderReply, InitiatorFinish, FreshKeys, Delivers, Arrivable;
    DirectionDelivers(RecvKey(theirs), up, upArrivals);
    DirectionDelivers(SendKey(theirs), down, downArrivals);
  }
}
