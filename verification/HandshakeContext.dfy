/**
 * The first exchange of a secio handshake, at both ends. Each end sends its proposal and works out,
 * from what it receives, which algorithms to use. The hash function is a parameter.
 */
module HandshakeContext {
  import opened ByteStrings
  import opened Utf8
  import opened Molecule
  import opened HandshakeTables
  import opened Negotiation

  /** The texts an end offers, where it does not leave the default. */
  datatype Offer = Offer(agreements: Option<Bytes>, ciphers: Option<Bytes>, digests: Option<Bytes>) {
    function Agreements(): Bytes {
      if agreements.Some? then agreements.value else Join(Names(AgreementName, [EcdhP256, EcdhP384, X25519]))
    }

    function Ciphers(): Bytes {
      if ciphers.Some? then ciphers.value else Join(Names(CipherName, [Aes128Gcm, Aes256Gcm, ChaCha20Poly1305]))
    }

    function Digests(): Bytes {
      if digests.Some? then digests.value else Join(Names(DigestName, [Sha256, Sha512]))
    }
  }

  datatype Party = Party(key: Bytes, nonce: Bytes, offer: Offer)

  function Proposal(p: Party): (r: Propose) {
    Propose(p.nonce, EncodePublicKey(p.key), p.offer.Agreements(), p.offer.Ciphers(), p.offer.Digests())
  }

  /** What an end sends. */
  function WithLocal(p: Party): (b: Bytes) { EncodePropose(Proposal(p)) }

  datatype Chosen = Chosen(exchange: KeyAgreement, cipher: CipherType, hash: Digest)

  datatype HandshakeError = HandshakeParsingFailure | ConnectSelf | NoSupportIntersection

  /** Each end hashes the other's key with its own nonce, and its own key with the other's nonce. */
  function HashesOrdering(hash: Bytes -> Bytes, key: Bytes, nonce: Bytes, theirKey: Bytes, theirNonce: Bytes)
    : (o: Order)
  {
    Compare(hash(theirKey + nonce), hash(key + theirNonce))
  }

  function Choose(r: Order, ours: Offer, theirs: Propose): (c: Option<Chosen>) {
    var exchange := Select(KnownAgreement, r, ours.Agreements(), theirs.exchange);
    var cipher := Select(KnownCipher, r, ours.Ciphers(), theirs.ciphers);
    var digest := Select(KnownDigest, r, ours.Digests(), theirs.hashes);
    if exchange.Some? && cipher.Some? && digest.Some?
    then Some(Chosen(exchange.value, cipher.value, digest.value)) else None
  }

  /** What an end makes of the proposal and the key of the other. */
  function Consider(hash: Bytes -> Bytes, self: Party, propose: Propose, theirKey: Bytes)
    : (r: Result<(Order, Chosen), HandshakeError>)
  {
    if theirKey == self.key then Failure(ConnectSelf)
    else
      var r := HashesOrdering(hash, self.key, self.nonce, theirKey, propose.rand);
      match Choose(r, self.offer, propose)
      case None => Failure(NoSupportIntersection)
      case Some(chosen) => Success((r, chosen))
  }

  function WithRemote(hash: Bytes -> Bytes, self: Party, remote: Bytes): (r: Result<(Order, Chosen), HandshakeError>) {
    match DecodePropose(remote)
    case None => Failure(HandshakeParsingFailure)
    case Some(propose) =>
      match DecodePublicKey(propose.pubkey)
      case None => Failure(HandshakeParsingFailure)
      case Some(theirKey) => Consider(hash, self, propose, theirKey)
  }

  /** An end whose proposal can be sent. */
  predicate CanSend(p: Party) {
    IsText(Proposal(p)) && |WithLocal(p)| <= MAX_U32
  }

  /** The proposal of an end arrives as it was sent. */
  lemma Arrives(p: Party)
    requires CanSend(p)
    ensures DecodePropose(WithLocal(p)) == Some(Proposal(p))
    ensures DecodePublicKey(Proposal(p).pubkey) == Some(p.key)
  {
    ProposeRoundTrip(Proposal(p));
    var fields := ByteFields(ProposeData(Proposal(p)));
    ItemWithinTotal(fields, 1);
    assert |fields[1]| == NUMBER_SIZE + |EncodePublicKey(p.key)|;
    DecodePublicKeyIff(EncodePublicKey(p.key), p.key);
  }

  /** The choice alone, or the failure. */
  function Conclusion(r: Result<(Order, Chosen), HandshakeError>): (c: Result<Chosen, HandshakeError>) {
    match r
    case Failure(e) => Failure(e)
    case Success(x) => Success(x.1)
  }

  /** The two ends reach the same conclusion. */
  predicate SameOutcome(hash: Bytes -> Bytes, a: Party, b: Party) {
    Conclusion(WithRemote(hash, a, WithLocal(b))) == Conclusion(WithRemote(hash, b, WithLocal(a)))
  }

  lemma Concludes(hash: Bytes -> Bytes, self: Party, other: Party)
    requires CanSend(other)
    ensures WithRemote(hash, self, WithLocal(other)) == Consider(hash, self, Proposal(other), other.key)
  {
    hide CanSend, DecodePropose, DecodePublicKey, Consider, WithLocal, Proposal;
    Arrives(other);
  }

  /** The hashes an end compares are the other's, the other way round. */
  lemma OrderingsReverse(hash: Bytes -> Bytes, a: Party, b: Party)
    ensures HashesOrdering(hash, b.key, b.nonce, a.key, a.nonce)
         == Reverse(HashesOrdering(hash, a.key, a.nonce, b.key, b.nonce))
  {
    CompareReverses(hash(b.key + a.nonce), hash(a.key + b.nonce));
  }

  /** Which end is preferred: this one exactly if the hash of the other's key and its own nonce is the larger. */
  lemma OrderingIsLarger(hash: Bytes -> Bytes, key: Bytes, nonce: Bytes, theirKey: Bytes, theirNonce: Bytes)
    ensures var o := HashesOrdering(hash, key, nonce, theirKey, theirNonce);
      && (o == Greater <==> Larger(hash(theirKey + nonce), hash(key + theirNonce)))
      && (o == Less <==> Larger(hash(key + theirNonce), hash(theirKey + nonce)))
      && (o == Equal <==> hash(theirKey + nonce) == hash(key + theirNonce))
  {
    CompareIsLarger(hash(theirKey + nonce), hash(key + theirNonce));
  }

  /** Lists of algorithms, in order of preference. */
  datatype Lists = Lists(agreements: seq<KeyAgreement>, ciphers: seq<CipherType>, digests: seq<Digest>)

  function Printed(l: Lists): (o: Offer) {
    Offer(Some(Join(Names(AgreementName, l.agreements))), Some(Join(Names(CipherName, l.ciphers))),
          Some(Join(Names(DigestName, l.digests))))
  }

  /** Of each kind, the first algorithm of the preferred lists that the others have too. */
  function Common(preferred: Lists, other: Lists): (c: Option<Chosen>) {
    var exchange := FirstOf(preferred.agreements, other.agreements);
    var cipher := FirstOf(preferred.ciphers, other.ciphers);
    var digest := FirstOf(preferred.digests, other.digests);
    if exchange.Some? && cipher.Some? && digest.Some?
    then Some(Chosen(exchange.value, cipher.value, digest.value)) else None
  }

  lemma ChooseOnPrinted(r: Order, ours: Lists, theirs: Party, lists: Lists)
    requires theirs.offer == Printed(lists)
    ensures Choose(r, Printed(ours), Proposal(theirs))
         == if r == Greater then Common(ours, lists) else Common(lists, ours)
  {
    NamesGoTogether();
    SelectOnPrinted(AgreementName, KnownAgreement, r, ours.agreements, lists.agreements);
    SelectOnPrinted(CipherName, KnownCipher, r, ours.ciphers, lists.ciphers);
    SelectOnPrinted(DigestName, KnownDigest, r, ours.digests, lists.digests);
    hide Select, Join, Naming, AgreementName, CipherName, DigestName, EncodePublicKey, FirstOf;
  }

  /**
   * What an end makes of what the other sent, when both offer lists. It fails on its own key, and when
   * there is nothing in common; otherwise it takes its own preferences exactly if the hash of the
   * other's key and its own nonce is the larger one, and the other's if not.
   */
  lemma PreferenceByHash(hash: Bytes -> Bytes, self: Party, other: Party, ours: Lists, theirs: Lists)
    requires CanSend(other) && self.offer == Printed(ours) && other.offer == Printed(theirs)
    ensures var first := Larger(hash(other.key + self.nonce), hash(self.key + other.nonce));
      var chosen := if first then Common(ours, theirs) else Common(theirs, ours);
      var r := WithRemote(hash, self, WithLocal(other));
      && (r == Failure(ConnectSelf) <==> self.key == other.key)
      && (r == Failure(NoSupportIntersection) <==> self.key != other.key && chosen.None?)
      && (self.key != other.key && chosen.Some? ==> r.Success? && r.value.1 == chosen.value)
      && (r.Success? ==> (r.value.0 == Greater <==> first))
  {
    Concludes(hash, self, other);
    var o := HashesOrdering(hash, self.key, self.nonce, other.key, other.nonce);
    OrderingIsLarger(hash, self.key, self.nonce, other.key, other.nonce);
    ChooseOnPrinted(o, ours, other, theirs);
    hide CanSend, WithRemote, WithLocal, EncodePublicKey, HashesOrdering, Choose, Common, Larger, Printed;
  }

  /** Exactly what cannot be read as a proposal with a key in it fails as malformed. */
  lemma MalformedIff(hash: Bytes -> Bytes, self: Party, remote: Bytes)
    ensures WithRemote(hash, self, remote) == Failure(HandshakeParsingFailure) <==>
      (DecodePropose(remote).None? || DecodePublicKey(DecodePropose(remote).value.pubkey).None?)
  {
    hide DecodePropose, DecodePublicKey, Choose, HashesOrdering;
  }

  /** If the hashes differ, both ends choose the same three algorithms, or fail for the same reason. */
  lemma Agreement(hash: Bytes -> Bytes, a: Party, b: Party)
    requires CanSend(a) && CanSend(b)
    requires hash(b.key + a.nonce) != hash(a.key + b.nonce)
    ensures SameOutcome(hash, a, b)
  {
    hide CanSend, WithRemote, WithLocal, EncodePublicKey, Compare, Choose;
    Concludes(hash, a, b);
    Concludes(hash, b, a);
    OrderingsReverse(hash, a, b);
    OppositeSelect(HashesOrdering(hash, a.key, a.nonce, b.key, b.nonce), a, b);
  }

  lemma OppositeSelect(r: Order, a: Party, b: Party)
    requires r != Equal
    ensures Choose(r, a.offer, Proposal(b)) == Choose(Reverse(r), b.offer, Proposal(a))
  {
    hide EncodePublicKey, FirstCommon, Split;
  }

  // ------------------------------------------------------- when the hashes are equal

  /** Whatever the two ends offer, they reach the same conclusion. */
  ghost predicate AlwaysAgree(hash: Bytes -> Bytes, keyA: Bytes, nonceA: Bytes, keyB: Bytes, nonceB: Bytes) {
    forall x: Offer, y: Offer :: CanSend(Party(keyA, nonceA, x)) && CanSend(Party(keyB, nonceB, y)) ==>
      SameOutcome(hash, Party(keyA, nonceA, x), Party(keyB, nonceB, y))
  }

  /** Two offers that list the same agreements in opposite order. */
  const P256_FIRST := Offer(Some(Join(Names(AgreementName, [EcdhP256, EcdhP384]))), None, None)
  const P384_FIRST := Offer(Some(Join(Names(AgreementName, [EcdhP384, EcdhP256]))), None, None)

  /** With equal hashes each end prefers the other's offer, and the two come apart. */
  lemma TieComesApart(hash: Bytes -> Bytes, a: Party, b: Party)
    requires a.key != b.key && hash(b.key + a.nonce) == hash(a.key + b.nonce)
    requires a.offer == P256_FIRST && b.offer == P384_FIRST
    ensures Consider(hash, a, Proposal(b), b.key) == Success((Equal, Chosen(EcdhP384, Aes128Gcm, Sha256)))
    ensures Consider(hash, b, Proposal(a), a.key) == Success((Equal, Chosen(EcdhP256, Aes128Gcm, Sha256)))
  {
    NamesGoTogether();
    SelectOnPrinted(AgreementName, KnownAgreement, Equal, [EcdhP256, EcdhP384], [EcdhP384, EcdhP256]);
    SelectOnPrinted(AgreementName, KnownAgreement, Equal, [EcdhP384, EcdhP256], [EcdhP256, EcdhP384]);
    var ciphers, digests := [Aes128Gcm, Aes256Gcm, ChaCha20Poly1305], [Sha256, Sha512];
    SelectOnPrinted(CipherName, KnownCipher, Equal, ciphers, ciphers);
    SelectOnPrinted(DigestName, KnownDigest, Equal, digests, digests);
    hide Select, Join, Naming, AgreementName, CipherName, DigestName, EncodePublicKey;
  }

  /**
   * Such ends exist, whatever the hash: what the longer key adds, the other nonce starts with, and
   * both ends hash the same bytes twice.
   */
  lemma TieExists(hash: Bytes -> Bytes, key: Bytes, more: Bytes, nonce: Bytes)
    requires more != [] && |key| + |more| <= 0x1_0000 && |more| + |nonce| <= 0x1_0000
    ensures var a, b := Party(key, nonce, P256_FIRST), Party(key + more, more + nonce, P384_FIRST);
      CanSend(a) && CanSend(b) && !SameOutcome(hash, a, b)
  {
    var a, b := Party(key, nonce, P256_FIRST), Party(key + more, more + nonce, P384_FIRST);
    Assoc(key, more, nonce);
    SmallOfferCanSend(a);
    SmallOfferCanSend(b);
    assert a.key != b.key;
    TieComesApart(hash, a, b);
    ComeApart(hash, a, b);
  }

  /**
   * Ends with nonces of one length hash the same bytes only if their keys are the same. Every end
   * draws 16 bytes; of the nonce it receives it does not ask how long it is.
   */
  lemma TieNeedsCollision(keyA: Bytes, nonceA: Bytes, keyB: Bytes, nonceB: Bytes)
    requires |nonceA| == |nonceB|
    ensures keyB + nonceA == keyA + nonceB ==> keyA == keyB
  {
    if keyB + nonceA == keyA + nonceB {
      assert (keyB + nonceA)[..|keyB|] == keyB;
      assert (keyA + nonceB)[..|keyA|] == keyA;
    }
  }

  lemma {:induction false} AsciiIsUtf8(b: Bytes)
    requires forall i :: 0 <= i < |b| ==> b[i] < 0x80
    ensures IsUtf8(b)
  {
    if b != [] {
      AsciiIsUtf8(b[1..]);
    }
  }

  predicate IsShortAscii(b: Bytes) { |b| <= 20 && forall i :: 0 <= i < |b| ==> b[i] < 0x80 }

  lemma NamesAreShort()
    ensures forall k :: IsShortAscii(AgreementName(k))
    ensures forall c :: IsShortAscii(CipherName(c))
    ensures forall d :: IsShortAscii(DigestName(d))
  {
  }

  lemma {:induction false} JoinIsText(names: seq<Bytes>)
    requires forall i :: 0 <= i < |names| ==> IsShortAscii(names[i])
    ensures |Join(names)| <= 21 * |names| && (forall j :: 0 <= j < |Join(names)| ==> Join(names)[j] < 0x80)
  {
    if |names| > 1 {
      JoinIsText(names[1..]);
    }
  }

  lemma PrintedIsText<T>(name: T -> Bytes, ts: seq<T>)
    requires forall t: T :: t in ts ==> IsShortAscii(name(t))
    ensures |Join(Names(name, ts))| <= 21 * |ts| && IsUtf8(Join(Names(name, ts)))
  {
    JoinIsText(Names(name, ts));
    AsciiIsUtf8(Join(Names(name, ts)));
  }

  lemma SmallOfferCanSend(p: Party)
    requires |p.key| <= 0x1_0000 && |p.nonce| <= 0x1_0000
    requires p.offer == P256_FIRST || p.offer == P384_FIRST
    ensures CanSend(p)
  {
    NamesAreShort();
    PrintedIsText(AgreementName, [EcdhP256, EcdhP384]);
    PrintedIsText(AgreementName, [EcdhP384, EcdhP256]);
    PrintedIsText(CipherName, [Aes128Gcm, Aes256Gcm, ChaCha20Poly1305]);
    PrintedIsText(DigestName, [Sha256, Sha512]);
    hide Join, IsUtf8, IsShortAscii, Flatten, Pack, PackAll, Offsets;
    FlattenFive(ByteFields(ProposeData(Proposal(p))));
  }

  lemma FlattenFive(f: seq<Bytes>)
    requires |f| == 5
    ensures |Flatten(f)| == |f[0]| + |f[1]| + |f[2]| + |f[3]| + |f[4]|
  {
    assert f == [f[0]] + ([f[1]] + ([f[2]] + ([f[3]] + [f[4]])));
    FlattenAppend([f[0]], [f[1]] + ([f[2]] + ([f[3]] + [f[4]])));
    FlattenAppend([f[1]], [f[2]] + ([f[3]] + [f[4]]));
    FlattenAppend([f[2]], [f[3]] + [f[4]]);
    FlattenAppend([f[3]], [f[4]]);
    assert forall b: Bytes :: Flatten([b]) == b + Flatten<byte>([]);
  }

  /**
   * The ends agree on every pair of offers exactly when the hashes differ, or the keys are the same
   * and both refuse. (Keys and nonces are bounded so that the offers that come apart fit.)
   */
  lemma AgreementIff(hash: Bytes -> Bytes, keyA: Bytes, nonceA: Bytes, keyB: Bytes, nonceB: Bytes)
    requires |keyA| <= 0x1_0000 && |keyB| <= 0x1_0000 && |nonceA| <= 0x1_0000 && |nonceB| <= 0x1_0000
    ensures AlwaysAgree(hash, keyA, nonceA, keyB, nonceB)
      <==> keyA == keyB || hash(keyB + nonceA) != hash(keyA + nonceB)
  {
    hide CanSend, SameOutcome, WithRemote, Consider;
    if hash(keyB + nonceA) != hash(keyA + nonceB) {
      forall x: Offer, y: Offer | CanSend(Party(keyA, nonceA, x)) && CanSend(Party(keyB, nonceB, y))
        ensures SameOutcome(hash, Party(keyA, nonceA, x), Party(keyB, nonceB, y))
      {
        Agreement(hash, Party(keyA, nonceA, x), Party(keyB, nonceB, y));
      }
    } else if keyA == keyB {
      forall x: Offer, y: Offer | CanSend(Party(keyA, nonceA, x)) && CanSend(Party(keyB, nonceB, y))
        ensures SameOutcome(hash, Party(keyA, nonceA, x), Party(keyB, nonceB, y))
      {
        SelfRefused(hash, Party(keyA, nonceA, x), Party(keyB, nonceB, y));
      }
    } else {
      var a, b := Party(keyA, nonceA, P256_FIRST), Party(keyB, nonceB, P384_FIRST);
      SmallOfferCanSend(a);
      SmallOfferCanSend(b);
      TieComesApart(hash, a, b);
      assert !SameOutcome(hash, a, b) by { ComeApart(hash, a, b); }
    }
  }

  lemma SelfRefused(hash: Bytes -> Bytes, a: Party, b: Party)
    requires CanSend(a) && CanSend(b) && a.key == b.key
    ensures SameOutcome(hash, a, b)
  {
    hide CanSend, WithRemote, WithLocal;
    Concludes(hash, a, b);
    Concludes(hash, b, a);
  }

  lemma ComeApart(hash: Bytes -> Bytes, a: Party, b: Party)
    requires CanSend(a) && CanSend(b)
    requires Conclusion(Consider(hash, a, Proposal(b), b.key)) != Conclusion(Consider(hash, b, Proposal(a), a.key))
    ensures !SameOutcome(hash, a, b)
  {
    hide CanSend, WithRemote, WithLocal, Consider;
    Concludes(hash, a, b);
    Concludes(hash, b, a);
  }
}
