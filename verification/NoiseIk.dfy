/**
 The Noise IK handshake (Noise Protocol Framework revision 34, sections 5.2 and 7.5), keyed by the
 session code as prologue.  Cryptography is symbolic: hashes, key derivations, Diffie-Hellman results
 and sealed boxes are terms of a free algebra, so two values are equal exactly when they were built
 the same way; only Diffie-Hellman has an equation, and its normal form is order-free.
 */
module NoiseIk {
  import opened Prelude

  type Secret = nat

  datatype Term =
    | Label(text: string)
    | Data(bytes: seq<Byte>)
    | Public(secret: Secret)
    | Shared(low: Secret, high: Secret)
    | Scaled(secret: Secret, point: Term)
    | Hash(prior: Term, data: Term)
    | Kdf(salt: Term, ikm: Term, second: bool)
    | Sealed(key: Term, nonce: seq<Byte>, ad: Term, plain: Term)

  const PROTOCOL_NAME: Term := Label("Noise_IK_25519_ChaChaPoly_SHA256")
  const EMPTY: Term := Data([])
  const MSG1_LEN: nat := 96
  const MSG2_LEN: nat := 48

  /** X25519 of a secret and a received point; two honest keys give the same result either way round. */
  function Dh(mine: Secret, theirs: Term): Term {
    match theirs
    case Public(other) => if mine <= other then Shared(mine, other) else Shared(other, mine)
    case _ => Scaled(mine, theirs)
  }

  lemma DhCommutes(a: Secret, b: Secret)
    ensures Dh(a, Public(b)) == Dh(b, Public(a))
  {
  }

  /** IETF nonce: four zero bytes, then the counter in eight little-endian bytes. */
  function NonceBytes(counter: nat): (n: seq<Byte>)
    ensures |n| == 12
  {
    [0, 0, 0, 0] + ToLe(counter, 8)
  }

  const COUNTER_LIMIT: nat := 0x1_0000_0000_0000_0000

  lemma CounterWidth()
    ensures Pow256(8) == COUNTER_LIMIT
  {
    assert Pow256(2) == 65536;
    assert Pow256(4) == 65536 * Pow256(2);
    assert Pow256(6) == 65536 * Pow256(4);
    assert Pow256(8) == 65536 * Pow256(6);
  }

  /** Four zero bytes, then the low 64 bits of the counter, least significant byte first. */
  lemma NonceLayout(n: nat)
    ensures NonceBytes(n)[..4] == [0, 0, 0, 0] && FromLe(NonceBytes(n)[4..]) == n % COUNTER_LIMIT
    ensures NonceBytes(n)[4] == n % 256
  {
    CounterWidth();
    LeRoundTrip(n, 8);
    assert NonceBytes(n)[4..] == ToLe(n, 8);
  }

  /** Beyond 64 bits the nonce starts over. */
  lemma NonceWraps(n: nat)
    ensures NonceBytes(n) == NonceBytes(n % COUNTER_LIMIT)
  {
    CounterWidth();
    LeWraps(n, 8);
  }

  /** Counters that fit 64 bits have different nonces. */
  lemma NonceBytesInjective(a: nat, b: nat)
    requires a < COUNTER_LIMIT && b < COUNTER_LIMIT && NonceBytes(a) == NonceBytes(b)
    ensures a == b
  {
    assert NonceBytes(a)[4..] == ToLe(a, 8);
    assert NonceBytes(b)[4..] == ToLe(b, 8);
    CounterWidth();
    LeExact(a, 8);
    LeExact(b, 8);
  }

  /** Opening succeeds exactly on a box sealed under the same key, nonce and associated data. */
  function Unseal(key: Term, nonce: seq<Byte>, ad: Term, box: Term): Option<Term> {
    if box.Sealed? && box.key == key && box.nonce == nonce && box.ad == ad then Some(box.plain) else None
  }

  // ----- symmetric state -----

  datatype Sym = Sym(h: Term, ck: Term, k: Option<Term>, n: nat)

  const FRESH_SYM: Sym := Sym(PROTOCOL_NAME, PROTOCOL_NAME, None, 0)

  function HashMixed(s: Sym, data: Term): Sym { s.(h := Hash(s.h, data)) }

  function KeyMixed(s: Sym, ikm: Term): Sym {
    Sym(s.h, Kdf(s.ck, ikm, false), Some(Kdf(s.ck, ikm, true)), 0)
  }

  function Seal(s: Sym, plain: Term): Term {
    if s.k.Some? then Sealed(s.k.value, NonceBytes(s.n), s.h, plain) else plain
  }

  /** Both directions count the nonce and hash the ciphertext. */
  function AfterBox(s: Sym, box: Term): Sym {
    HashMixed(if s.k.Some? then s.(n := s.n + 1) else s, box)
  }

  function Open(s: Sym, box: Term): Option<Term> {
    if s.k.Some? then Unseal(s.k.value, NonceBytes(s.n), s.h, box) else Some(box)
  }

  /** The boxes of several payloads in a row under one key. */
  function SealAll(s: Sym, plains: seq<Term>): (boxes: seq<Term>)
    ensures |boxes| == |plains|
    decreases |plains|
  {
    if plains == [] then [] else [Seal(s, plains[0])] + SealAll(AfterBox(s, Seal(s, plains[0])), plains[1..])
  }

  /** Boxes under one key are numbered in a row, and a state that has seen the same opens each in its turn. */
  lemma {:induction false} BoxesInARow(s: Sym, plains: seq<Term>, i: nat)
    requires s.k.Some? && i < |plains|
    ensures var box := SealAll(s, plains)[i];
            && box.Sealed? && box.key == s.k.value && box.nonce == NonceBytes(s.n + i) && box.plain == plains[i]
            && Open(AfterBoxes(s, SealAll(s, plains)[..i]), box) == Some(plains[i])
    decreases |plains|
  {
    hide NonceBytes;
    var boxes := SealAll(s, plains);
    if i > 0 {
      BoxesInARow(AfterBox(s, boxes[0]), plains[1..], i - 1);
      assert boxes[..i][1..] == boxes[1..][..i - 1];
    }
  }

  function AfterBoxes(s: Sym, boxes: seq<Term>): Sym
    decreases |boxes|
  {
    if boxes == [] then s else AfterBoxes(AfterBox(s, boxes[0]), boxes[1..])
  }

  function Split(s: Sym): (Term, Term) { (Kdf(s.ck, EMPTY, false), Kdf(s.ck, EMPTY, true)) }

  class SymmetricState {
    var h: Term
    var ck: Term
    var k: Option<Term>
    var n: nat

    ghost function Value(): Sym
      reads this
    {
      Sym(h, ck, k, n)
    }

    constructor ()
      ensures Value() == FRESH_SYM
    {
      h, ck, k, n := PROTOCOL_NAME, PROTOCOL_NAME, None, 0;
    }

    method MixHash(data: Term)
      modifies this
      ensures Value() == HashMixed(old(Value()), data)
    {
      h := Hash(h, data);
    }

    method MixKey(ikm: Term)
      modifies this
      ensures Value() == KeyMixed(old(Value()), ikm)
    {
      var okm := (Kdf(ck, ikm, false), Kdf(ck, ikm, true));
      ck := okm.0;
      k := Some(okm.1);
      n := 0;
    }

    method EncryptAndHash(plain: Term) returns (box: Term)
      modifies this
      ensures box == Seal(old(Value()), plain) && Value() == AfterBox(old(Value()), box)
    {
      if k.Some? {
        var nonce := NonceBytes(n);
        n := n + 1;
        box := Sealed(k.value, nonce, h, plain);
      } else {
        box := plain;
      }
      MixHash(box);
    }

    method DecryptAndHash(box: Term) returns (plain: Option<Term>)
      modifies this
      ensures plain == Open(old(Value()), box)
      ensures Value() == if plain.Some? then AfterBox(old(Value()), box) else old(Value()).(n := old(n) + 1)
    {
      if k.Some? {
        var nonce := NonceBytes(n);
        n := n + 1;
        plain := Unseal(k.value, nonce, h, box);
        if plain.None? {
          return;
        }
      } else {
        plain := Some(box);
      }
      MixHash(box);
    }
  }

  // ----- messages and results -----

  /** A received datagram: split at the fixed offsets when it has the right length. */
  datatype RawMessage1 = Message1(e: Term, encStatic: Term, encPayload: Term) | WrongLength1(got: nat)

  datatype RawMessage2 = Message2(e: Term, encPayload: Term) | WrongLength2(got: nat)

  datatype Error = DecryptionFailed | BadMessageLength(expected: nat, got: nat)

  datatype TrafficKeys = TrafficKeys(initiatorToResponder: Term, responderToInitiator: Term)

  datatype Outcome = Outcome(keys: TrafficKeys, transcript: Term, remoteStatic: Term, isInitiator: bool)

  function SendKey(o: Outcome): Term {
    if o.isInitiator then o.keys.initiatorToResponder else o.keys.responderToInitiator
  }

  function RecvKey(o: Outcome): Term {
    if o.isInitiator then o.keys.responderToInitiator else o.keys.initiatorToResponder
  }

  datatype InitiatorState = InitiatorState(sym: Sym, eSecret: Secret, remoteStatic: Term)

  datatype ResponderState = ResponderState(sym: Sym, initE: Term, initStatic: Term)

  function Finish(sym: Sym, remoteStatic: Term, isInitiator: bool): Outcome {
    var keys := Split(sym);
    Outcome(TrafficKeys(keys.0, keys.1), sym.h, remoteStatic, isInitiator)
  }

  // ----- the four handshake functions -----

  function Prologue(code: seq<Byte>, responderStatic: Term): Sym {
    HashMixed(HashMixed(FRESH_SYM, Data(code)), responderStatic)
  }

  function InitiatorStart(s: Secret, e: Secret, remoteStatic: Term, code: seq<Byte>): (InitiatorState, RawMessage1) {
    var st := KeyMixed(HashMixed(Prologue(code, remoteStatic), Public(e)), Dh(e, remoteStatic));
    var encStatic := Seal(st, Public(s));
    var st2 := KeyMixed(AfterBox(st, encStatic), Dh(s, remoteStatic));
    var encPayload := Seal(st2, EMPTY);
    (InitiatorState(AfterBox(st2, encPayload), e, remoteStatic), Message1(Public(e), encStatic, encPayload))
  }

  function ResponderReceive(r: Secret, code: seq<Byte>, m: RawMessage1): Result<ResponderState, Error> {
    match m
    case WrongLength1(got) => Err(BadMessageLength(MSG1_LEN, got))
    case Message1(e, encStatic, encPayload) =>
      var st := KeyMixed(HashMixed(Prologue(code, Public(r)), e), Dh(r, e));
      var initStatic := Open(st, encStatic);
      if initStatic.None? then Err(DecryptionFailed)
      else
        var st2 := KeyMixed(AfterBox(st, encStatic), Dh(r, initStatic.value));
        if Open(st2, encPayload).None? then Err(DecryptionFailed)
        else Ok(ResponderState(AfterBox(st2, encPayload), e, initStatic.value))
  }

  function ResponderReply(st: ResponderState, e: Secret): (Outcome, RawMessage2) {
    var sym := KeyMixed(KeyMixed(HashMixed(st.sym, Public(e)), Dh(e, st.initE)), Dh(e, st.initStatic));
    var encPayload := Seal(sym, EMPTY);
    (Finish(AfterBox(sym, encPayload), st.initStatic, false), Message2(Public(e), encPayload))
  }

  function InitiatorFinish(st: InitiatorState, s: Secret, m: RawMessage2): Result<Outcome, Error> {
    match m
    case WrongLength2(got) => Err(BadMessageLength(MSG2_LEN, got))
    case Message2(e, encPayload) =>
      var sym := KeyMixed(KeyMixed(HashMixed(st.sym, e), Dh(st.eSecret, e)), Dh(s, e));
      if Open(sym, encPayload).None? then Err(DecryptionFailed)
      else Ok(Finish(AfterBox(sym, encPayload), st.remoteStatic, true))
  }

  // ----- agreement -----

  /**
   An honest first message is accepted exactly when both sides hold the same session code and the
   initiator aimed at this responder's static key; the responder then learns who is calling.
   */
  lemma Message1AcceptedExactly(s: Secret, e: Secret, aimedAt: Term, code: seq<Byte>, r: Secret, theirCode: seq<Byte>)
    ensures var m := InitiatorStart(s, e, aimedAt, code).1;
            var got := ResponderReceive(r, theirCode, m);
            && (got.Ok? <==> code == theirCode && aimedAt == Public(r))
            && (got.Ok? ==> got.value.initStatic == Public(s) && got.value.initE == Public(e))
            && (got.Err? ==> got.error == DecryptionFailed)
  {
    var m := InitiatorStart(s, e, aimedAt, code).1;
    var st := KeyMixed(HashMixed(Prologue(theirCode, Public(r)), m.e), Dh(r, m.e));
    assert m.encStatic.ad == Hash(Hash(Hash(PROTOCOL_NAME, Data(code)), aimedAt), Public(e));
    assert st.h == Hash(Hash(Hash(PROTOCOL_NAME, Data(theirCode)), Public(r)), Public(e));
    if code == theirCode && aimedAt == Public(r) {
      DhCommutes(e, r);
      DhCommutes(s, r);
    }
  }

  /** After the honest reply both sides hold the same transcript hash and the same traffic keys. */
  lemma HandshakeAgreement(s: Secret, e: Secret, r: Secret, re: Secret, code: seq<Byte>)
    ensures var (ist, m1) := InitiatorStart(s, e, Public(r), code);
            var rst := ResponderReceive(r, code, m1);
            rst.Ok? &&
            var (theirs, m2) := ResponderReply(rst.value, re);
            var mine := InitiatorFinish(ist, s, m2);
            && mine.Ok?
            && mine.value.transcript == theirs.transcript
            && mine.value.keys == theirs.keys
            && mine.value.keys.initiatorToResponder != mine.value.keys.responderToInitiator
            && mine.value.remoteStatic == Public(r) && theirs.remoteStatic == Public(s)
            && mine.value.isInitiator && !theirs.isInitiator
            && SendKey(mine.value) == RecvKey(theirs) && SendKey(theirs) == RecvKey(mine.value)
  {
    Message1AcceptedExactly(s, e, Public(r), code, r, code);
    DhCommutes(e, r);
    DhCommutes(s, r);
    DhCommutes(e, re);
    DhCommutes(s, re);
  }

  /** The responder's transcript hash records its code, its key and the three fields it received. */
  lemma ResponderTranscript(r: Secret, code: seq<Byte>, m: RawMessage1)
    requires ResponderReceive(r, code, m).Ok?
    ensures m.Message1?
    ensures ResponderReceive(r, code, m).value.sym.h
         == Hash(Hash(Hash(Hash(Hash(PROTOCOL_NAME, Data(code)), Public(r)), m.e), m.encStatic), m.encPayload)
  {
  }

  /**
   Whatever first message a responder processed, if the initiator accepts that responder's reply then
   the responder processed exactly the initiator's message under the same code, and both sides agree.
   */
  lemma AcceptedReplyMeansAgreement(s: Secret, e: Secret, aimedAt: Term, code: seq<Byte>,
                                    r: Secret, theirCode: seq<Byte>, m: RawMessage1, re: Secret)
    requires ResponderReceive(r, theirCode, m).Ok?
    requires InitiatorFinish(InitiatorStart(s, e, aimedAt, code).0, s,
                             ResponderReply(ResponderReceive(r, theirCode, m).value, re).1).Ok?
    ensures m == InitiatorStart(s, e, aimedAt, code).1 && theirCode == code && aimedAt == Public(r)
    ensures var (theirs, m2) := ResponderReply(ResponderReceive(r, theirCode, m).value, re);
            var mine := InitiatorFinish(InitiatorStart(s, e, aimedAt, code).0, s, m2).value;
            && mine.keys == theirs.keys && mine.transcript == theirs.transcript
            && mine.remoteStatic == Public(r) && theirs.remoteStatic == Public(s)
  {
    ResponderTranscript(r, theirCode, m);
    var (ist, m1) := InitiatorStart(s, e, aimedAt, code);
    var rst := ResponderReceive(r, theirCode, m).value;
    var (_, m2) := ResponderReply(rst, re);
    assert m2.encPayload.ad == Hash(rst.sym.h, Public(re));
    assert Hash(rst.sym.h, Public(re)) == Hash(ist.sym.h, Public(re));
    assert ist.sym.h
        == Hash(Hash(Hash(Hash(Hash(PROTOCOL_NAME, Data(code)), aimedAt), Public(e)), m1.encStatic), m1.encPayload);
    Message1AcceptedExactly(s, e, aimedAt, code, r, theirCode);
    HandshakeAgreement(s, e, r, re, code);
  }

  /** Sixteen bytes hold a tag and no plaintext. */
  predicate TagOnly(box: Term) { box.Sealed? ==> box.plain == EMPTY }

  /** A reply that differs from the honest one in either field alone is refused. */
  lemma AlteredReplyRefused(s: Secret, e: Secret, r: Secret, re: Secret, code: seq<Byte>, altered: RawMessage2)
    requires altered.Message2? && TagOnly(altered.encPayload)
    requires var (ist, m1) := InitiatorStart(s, e, Public(r), code);
             ResponderReceive(r, code, m1).Ok? &&
             var m2 := ResponderReply(ResponderReceive(r, code, m1).value, re).1;
             altered != m2 && (altered.e == m2.e || altered.encPayload == m2.encPayload)
    ensures InitiatorFinish(InitiatorStart(s, e, Public(r), code).0, s, altered) == Err(DecryptionFailed)
  {
    var (ist, m1) := InitiatorStart(s, e, Public(r), code);
    HandshakeAgreement(s, e, r, re, code);
    var m2 := ResponderReply(ResponderReceive(r, code, m1).value, re).1;
    assert m2.encPayload == Sealed(m2.encPayload.key, NonceBytes(0), Hash(ist.sym.h, m2.e), EMPTY);
  }

  // ----- what the keys are made of -----

  /** `sub` is `t` or occurs in it. */
  predicate Mentions(t: Term, sub: Term) {
    t == sub ||
    match t
    case Scaled(_, point) => Mentions(point, sub)
    case Hash(prior, data) => Mentions(prior, sub) || Mentions(data, sub)
    case Kdf(salt, ikm, _) => Mentions(salt, sub) || Mentions(ikm, sub)
    case Sealed(key, _, ad, plain) => Mentions(key, sub) || Mentions(ad, sub) || Mentions(plain, sub)
    case _ => false
  }

  /** The chaining key after secrets have been mixed in, first one first. */
  function Chain(secrets: seq<Term>): Term {
    if secrets == [] then PROTOCOL_NAME
    else Kdf(Chain(secrets[..|secrets| - 1]), secrets[|secrets| - 1], false)
  }

  /** The cipher key the last of these secrets sets. */
  function CipherKey(secrets: seq<Term>): Term
    requires secrets != []
  {
    Kdf(Chain(secrets[..|secrets| - 1]), secrets[|secrets| - 1], true)
  }

  /**
   A responder that believes it is called by the holder of `s` has opened a box whose key is made of the secret
   shared between `s` and its own static key, and of the one shared with the ephemeral key.
   */
  lemma ResponderAuthenticates(r: Secret, code: seq<Byte>, m: RawMessage1, s: Secret)
    requires ResponderReceive(r, code, m).Ok? && ResponderReceive(r, code, m).value.initStatic == Public(s)
    ensures m.Message1? && m.encStatic.Sealed? && m.encPayload.Sealed?
    ensures Mentions(m.encStatic.key, Dh(r, m.e))
    ensures Mentions(m.encPayload.key, Dh(r, m.e)) && Mentions(m.encPayload.key, Dh(s, Public(r)))
  {
    DhCommutes(s, r);
  }

  /** An initiator that completes has opened a box whose key is made of both its secrets with the reply's ephemeral. */
  lemma InitiatorAuthenticates(st: InitiatorState, s: Secret, m: RawMessage2)
    requires InitiatorFinish(st, s, m).Ok?
    ensures m.Message2? && m.encPayload.Sealed? && Mentions(m.encPayload.key, st.sym.ck)
    ensures Mentions(m.encPayload.key, Dh(st.eSecret, m.e)) && Mentions(m.encPayload.key, Dh(s, m.e))
  {
  }

  lemma Chains(es: Term, ss: Term, ee: Term, se: Term)
    ensures Chain([es, ss]) == Kdf(Kdf(PROTOCOL_NAME, es, false), ss, false)
    ensures Chain([es, ss, ee, se]) == Kdf(Kdf(Chain([es, ss]), ee, false), se, false)
    ensures CipherKey([es]) == Kdf(PROTOCOL_NAME, es, true)
    ensures CipherKey([es, ss]) == Kdf(Kdf(PROTOCOL_NAME, es, false), ss, true)
    ensures CipherKey([es, ss, ee, se]) == Kdf(Kdf(Chain([es, ss]), ee, false), se, true)
  {
    assert [es, ss, ee, se][..3] == [es, ss, ee] && [es, ss, ee][..2] == [es, ss];
    assert [es, ss][..1] == [es] && [es][..0] == [];
    assert Chain([es]) == Kdf(PROTOCOL_NAME, es, false);
    assert Chain([es, ss, ee]) == Kdf(Chain([es, ss]), ee, false);
  }

  /**
   The key schedule of pattern IK: es keys the static key's box, ss the first payload, ee and se the second; the
   traffic keys are the two halves derived from all four in that order, the first from initiator to responder.
   */
  lemma KeySchedule(s: Secret, e: Secret, r: Secret, re: Secret, code: seq<Byte>)
    ensures var es, ss := Dh(e, Public(r)), Dh(s, Public(r));
            var ee, se := Dh(e, Public(re)), Dh(s, Public(re));
            var (ist, m1) := InitiatorStart(s, e, Public(r), code);
            var rst := ResponderReceive(r, code, m1);
            && m1.e == Public(e)
            && m1.encStatic == Sealed(CipherKey([es]), NonceBytes(0),
                                      Hash(Hash(Hash(PROTOCOL_NAME, Data(code)), Public(r)), Public(e)), Public(s))
            && m1.encPayload.Sealed? && m1.encPayload.plain == EMPTY
            && m1.encPayload.key == CipherKey([es, ss]) && m1.encPayload.nonce == NonceBytes(0)
            && rst.Ok?
            && var (theirs, m2) := ResponderReply(rst.value, re);
               var all := Chain([es, ss, ee, se]);
               && m2.e == Public(re) && m2.encPayload.Sealed? && m2.encPayload.plain == EMPTY
               && m2.encPayload.key == CipherKey([es, ss, ee, se]) && m2.encPayload.nonce == NonceBytes(0)
               && SendKey(theirs) == Kdf(all, EMPTY, true) && RecvKey(theirs) == Kdf(all, EMPTY, false)
               && theirs.keys == TrafficKeys(Kdf(all, EMPTY, false), Kdf(all, EMPTY, true)) && !theirs.isInitiator
  {
    Message1AcceptedExactly(s, e, Public(r), code, r, code);
    DhCommutes(e, r);
    DhCommutes(s, r);
    DhCommutes(e, re);
    DhCommutes(s, re);
    Chains(Dh(e, Public(r)), Dh(s, Public(r)), Dh(e, Public(re)), Dh(s, Public(re)));
    hide Chain, CipherKey, NonceBytes;
  }

  /** Messages of any other length than 96 and 48 bytes are refused with the length that was expected. */
  lemma WrongLengthsRefused(r: Secret, code: seq<Byte>, st: InitiatorState, s: Secret, got: nat)
    ensures ResponderReceive(r, code, WrongLength1(got)) == Err(BadMessageLength(96, got))
    ensures InitiatorFinish(st, s, WrongLength2(got)) == Err(BadMessageLength(48, got))
  {
  }

  // ----- the mutable endpoints -----

  class NoiseIkInitiator {
    const state: SymmetricState
    const eSecret: Secret
    const remoteStatic: Term

    constructor (state: SymmetricState, eSecret: Secret, remoteStatic: Term)
      ensures this.state == state && this.eSecret == eSecret && this.remoteStatic == remoteStatic
    {
      this.state, this.eSecret, this.remoteStatic := state, eSecret, remoteStatic;
    }

    ghost function Value(): InitiatorState
      reads state
    {
      InitiatorState(state.Value(), eSecret, remoteStatic)
    }

    static method New(localStatic: Secret, eSecret: Secret, remoteStatic: Term, code: seq<Byte>)
      returns (self: NoiseIkInitiator, msg: RawMessage1)
      ensures fresh(self) && fresh(self.state)
      ensures (self.Value(), msg) == InitiatorStart(localStatic, eSecret, remoteStatic, code)
    {
      var state := new SymmetricState();
      state.MixHash(Data(code));
      state.MixHash(remoteStatic);
      state.MixHash(Public(eSecret));
      state.MixKey(Dh(eSecret, remoteStatic));
      var encStatic := state.EncryptAndHash(Public(localStatic));
      state.MixKey(Dh(localStatic, remoteStatic));
      var encPayload := state.EncryptAndHash(EMPTY);
      self := new NoiseIkInitiator(state, eSecret, remoteStatic);
      msg := Message1(Public(eSecret), encStatic, encPayload);
    }

    method ReceiveMessage2(localStatic: Secret, msg: RawMessage2) returns (r: Result<Outcome, Error>)
      modifies state
      ensures r == InitiatorFinish(old(Value()), localStatic, msg)
    {
      if msg.WrongLength2? {
        return Err(BadMessageLength(MSG2_LEN, msg.got));
      }
      state.MixHash(msg.e);
      state.MixKey(Dh(eSecret, msg.e));
      state.MixKey(Dh(localStatic, msg.e));
      var payload := state.DecryptAndHash(msg.encPayload);
      if payload.None? {
        return Err(DecryptionFailed);
      }
      return Ok(Finish(Sym(state.h, state.ck, state.k, state.n), remoteStatic, true));
    }
  }

  class NoiseIkResponder {
    const state: SymmetricState
    const initE: Term
    const initStatic: Term

    constructor (state: SymmetricState, initE: Term, initStatic: Term)
      ensures this.state == state && this.initE == initE && this.initStatic == initStatic
    {
      this.state, this.initE, this.initStatic := state, initE, initStatic;
    }

    ghost function Value(): ResponderState
      reads state
    {
      ResponderState(state.Value(), initE, initStatic)
    }

    static method ReceiveMessage1(localStatic: Secret, code: seq<Byte>, msg: RawMessage1)
      returns (r: Result<NoiseIkResponder, Error>)
      ensures var spec := ResponderReceive(localStatic, code, msg);
              if r.Ok? then fresh(r.value.state) && spec == Ok(r.value.Value()) else spec == Err(r.error)
    {
      if msg.WrongLength1? {
        return Err(BadMessageLength(MSG1_LEN, msg.got));
      }
      var state := new SymmetricState();
      state.MixHash(Data(code));
      state.MixHash(Public(localStatic));
      state.MixHash(msg.e);
      state.MixKey(Dh(localStatic, msg.e));
      var initStatic := state.DecryptAndHash(msg.encStatic);
      if initStatic.None? {
        return Err(DecryptionFailed);
      }
      state.MixKey(Dh(localStatic, initStatic.value));
      var payload := state.DecryptAndHash(msg.encPayload);
      if payload.None? {
        return Err(DecryptionFailed);
      }
      var self := new NoiseIkResponder(state, msg.e, initStatic.value);
      return Ok(self);
    }

    method SendMessage2(eSecret: Secret) returns (outcome: Outcome, msg: RawMessage2)
      modifies state
      ensures (outcome, msg) == ResponderReply(old(Value()), eSecret)
    {
      state.MixHash(Public(eSecret));
      state.MixKey(Dh(eSecret, initE));
      state.MixKey(Dh(eSecret, initStatic));
      var encPayload := state.EncryptAndHash(EMPTY);
      outcome := Finish(Sym(state.h, state.ck, state.k, state.n), initStatic, false);
      msg := Message2(Public(eSecret), encPayload);
    }
  }
}
