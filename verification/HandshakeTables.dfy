/**
 * The messages of the secio handshake: Propose and Exchange are tables of byte vectors, PublicKey a
 * union with one case. Readers run in compatible mode: fields after the known ones are let through.
 */
module HandshakeTables {
  import opened ByteStrings
  import opened Molecule
  import opened Utf8

  /** A table with at least the known fields; exactly those unless compatible. */
  predicate VerifyTable(slice: Bytes, fieldCount: nat, compatible: bool) {
    match Items(slice)
    case None => false
    case Some(fields) => fieldCount <= |fields| && (!compatible ==> |fields| == fieldCount)
  }

  /** A table whose first fields are byte vectors. */
  predicate VerifyByteTable(slice: Bytes, fieldCount: nat, compatible: bool) {
    && VerifyTable(slice, fieldCount, compatible)
    && forall i :: 0 <= i < fieldCount ==> VerifyBytes(Items(slice).value[i])
  }

  /** The bytes of one field, fetched without checks. */
  function FieldData(slice: Bytes, fieldCount: nat, i: nat): (data: Bytes)
    requires VerifyByteTable(slice, fieldCount, true) && i < fieldCount
    ensures data == RawData(Items(slice).value[i])
  {
    RawData(Item(slice, i))
  }

  /** The table of the given byte vectors, and whatever fields a later version adds. */
  function ByteFields(datas: seq<Bytes>): (fields: seq<Bytes>)
    ensures |fields| == |datas|
    ensures forall i :: 0 <= i < |datas| ==> fields[i] == LaidBytes(datas[i])
  {
    seq(|datas|, i requires 0 <= i < |datas| => LaidBytes(datas[i]))
  }

  lemma {:induction false} ItemWithinTotal(items: seq<Bytes>, i: nat)
    requires i < |items|
    ensures |items[i]| <= |Flatten(items)|
  {
    if i > 0 {
      ItemWithinTotal(items[1..], i - 1);
    }
  }

  /** The slice passes for a byte table, and its first fields hold the given bytes. */
  predicate HasData(slice: Bytes, datas: seq<Bytes>) {
    && VerifyByteTable(slice, |datas|, true)
    && forall i :: 0 <= i < |datas| ==> RawData(Items(slice).value[i]) == datas[i]
  }

  /** A byte table passes, with the given contents, exactly when it is laid out from them and more fields. */
  lemma ByteTableIff(slice: Bytes, datas: seq<Bytes>)
    ensures HasData(slice, datas)
      <==> exists extra: seq<Bytes> :: slice == Laid(ByteFields(datas) + extra) && Fits(ByteFields(datas) + extra)
  {
    hide Laid, Fits, LaidBytes, VerifyBytes, Items;
    if HasData(slice, datas) {
      TableIsLaid(slice, datas);
    }
    if extra: seq<Bytes> :| slice == Laid(ByteFields(datas) + extra) && Fits(ByteFields(datas) + extra) {
      LaidTablePasses(datas, extra);
    }
  }

  lemma TableIsLaid(slice: Bytes, datas: seq<Bytes>)
    requires HasData(slice, datas)
    ensures exists extra: seq<Bytes> :: slice == Laid(ByteFields(datas) + extra) && Fits(ByteFields(datas) + extra)
  {
    hide Laid, Fits, LaidBytes, VerifyBytes, Items, RawData;
    var fields := Items(slice).value;
    PassesIffLaid(slice, fields);
    forall i | 0 <= i < |datas|
      ensures fields[i] == LaidBytes(datas[i])
    {
      BytesPassIffLaid(fields[i], datas[i]);
    }
    var extra := fields[|datas|..];
    assert fields == ByteFields(datas) + extra;
  }

  lemma LaidTablePasses(datas: seq<Bytes>, extra: seq<Bytes>)
    requires Fits(ByteFields(datas) + extra)
    ensures HasData(Laid(ByteFields(datas) + extra), datas)
  {
    var fields := ByteFields(datas) + extra;
    var slice := Laid(fields);
    LaidPasses(fields);
    forall i | 0 <= i < |datas|
      ensures VerifyBytes(fields[i]) && RawData(fields[i]) == datas[i]
    {
      hide Laid, Items, Flatten, VerifyBytes, RawData;
      assert fields[i] == LaidBytes(datas[i]);
      ItemWithinTotal(fields, i);
      BytesPassIffLaid(fields[i], datas[i]);
    }
  }

  // -------------------------------------------------------------------- Propose

  /** The strings are kept as their bytes. */
  datatype Propose = Propose(rand: Bytes, pubkey: Bytes, exchange: Bytes, ciphers: Bytes, hashes: Bytes)

  predicate IsText(p: Propose) { IsUtf8(p.exchange) && IsUtf8(p.ciphers) && IsUtf8(p.hashes) }

  function ProposeData(p: Propose): (datas: seq<Bytes>) { [p.rand, p.pubkey, p.exchange, p.ciphers, p.hashes] }

  function EncodePropose(p: Propose): (b: Bytes) { Laid(ByteFields(ProposeData(p))) }

  function DecodePropose(data: Bytes): (r: Option<Propose>) {
    if !VerifyByteTable(data, 5, true) then None
    else
      var p := Propose(FieldData(data, 5, 0), FieldData(data, 5, 1), FieldData(data, 5, 2), FieldData(data, 5, 3),
                       FieldData(data, 5, 4));
      if IsText(p) then Some(p) else None
  }

  /**
   * Exactly the layouts of a proposal decode to it, fields after the known five included: so
   * decoding undoes encoding, and extra fields change nothing.
   */
  lemma DecodeProposeIff(data: Bytes, p: Propose)
    ensures DecodePropose(data) == Some(p) <==>
      IsText(p) &&
      exists extra: seq<Bytes> ::
        data == Laid(ByteFields(ProposeData(p)) + extra) && Fits(ByteFields(ProposeData(p)) + extra)
  {
    ByteTableIff(data, ProposeData(p));
    if VerifyByteTable(data, 5, true) {
      FiveFields(data, ProposeData(p));
    }
    hide VerifyByteTable, Items, Laid, Fits, IsText, RawData, HasData;
  }

  lemma FiveFields(slice: Bytes, d: seq<Bytes>)
    requires |d| == 5 && VerifyByteTable(slice, 5, true)
    ensures HasData(slice, d) <==>
      && FieldData(slice, 5, 0) == d[0] && FieldData(slice, 5, 1) == d[1] && FieldData(slice, 5, 2) == d[2]
      && FieldData(slice, 5, 3) == d[3] && FieldData(slice, 5, 4) == d[4]
  {
    hide VerifyBytes, Items, RawData;
    forall i | 0 <= i < 5
      ensures FieldData(slice, 5, i) == RawData(Items(slice).value[i])
    {
    }
    if && FieldData(slice, 5, 0) == d[0] && FieldData(slice, 5, 1) == d[1] && FieldData(slice, 5, 2) == d[2]
       && FieldData(slice, 5, 3) == d[3] && FieldData(slice, 5, 4) == d[4]
    {
      forall i | 0 <= i < 5
        ensures RawData(Items(slice).value[i]) == d[i]
      {
        assert i == 0 || i == 1 || i == 2 || i == 3 || i == 4;
      }
    }
  }

  lemma ProposeRoundTrip(p: Propose)
    requires IsText(p) && |EncodePropose(p)| <= MAX_U32
    ensures DecodePropose(EncodePropose(p)) == Some(p)
  {
    DecodeProposeIff(EncodePropose(p), p);
    assert ByteFields(ProposeData(p)) + [] == ByteFields(ProposeData(p));
  }

  // ------------------------------------------------------------------- Exchange

  datatype Exchange = Exchange(epubkey: Bytes, signature: Bytes)

  function EncodeExchange(e: Exchange): (b: Bytes) { Laid(ByteFields([e.epubkey, e.signature])) }

  function DecodeExchange(data: Bytes): (r: Option<Exchange>) {
    if !VerifyByteTable(data, 2, true) then None
    else Some(Exchange(FieldData(data, 2, 0), FieldData(data, 2, 1)))
  }

  lemma DecodeExchangeIff(data: Bytes, e: Exchange)
    ensures DecodeExchange(data) == Some(e) <==>
      exists extra: seq<Bytes> ::
        data == Laid(ByteFields([e.epubkey, e.signature]) + extra) && Fits(ByteFields([e.epubkey, e.signature]) + extra)
  {
    ByteTableIff(data, [e.epubkey, e.signature]);
    hide VerifyTable, VerifyBytes, Items, Laid, Fits, RawData;
    var d := [e.epubkey, e.signature];
    assert d[0] == e.epubkey && d[1] == e.signature;
  }

  lemma ExchangeRoundTrip(e: Exchange)
    requires |EncodeExchange(e)| <= MAX_U32
    ensures DecodeExchange(EncodeExchange(e)) == Some(e)
  {
    DecodeExchangeIff(EncodeExchange(e), e);
    assert ByteFields([e.epubkey, e.signature]) + [] == ByteFields([e.epubkey, e.signature]);
  }

  // ------------------------------------------------------------------ PublicKey

  /** A union: the number of the case, then the case. Secp256k1 is case 0. */
  function EncodePublicKey(key: Bytes): (b: Bytes) { Pack(0) + LaidBytes(key) }

  predicate VerifyPublicKey(slice: Bytes) {
    |slice| >= NUMBER_SIZE && Number(slice, 0) == 0 && VerifyBytes(slice[NUMBER_SIZE..])
  }

  function DecodePublicKey(data: Bytes): (r: Option<Bytes>) {
    if VerifyPublicKey(data) then Some(RawData(data[NUMBER_SIZE..])) else None
  }

  /** Exactly the encoding of a key that fits decodes to it. */
  lemma DecodePublicKeyIff(data: Bytes, key: Bytes)
    ensures DecodePublicKey(data) == Some(key) <==> data == EncodePublicKey(key) && |key| <= MAX_U32
  {
    if DecodePublicKey(data) == Some(key) {
      BytesPassIffLaid(data[NUMBER_SIZE..], key);
      assert data == data[0..NUMBER_SIZE] + data[NUMBER_SIZE..];
    }
    if data == EncodePublicKey(key) && |key| <= MAX_U32 {
      assert data[0..NUMBER_SIZE] == Pack(0) && data[NUMBER_SIZE..] == LaidBytes(key);
      NumberIs(data, 0, 0);
      BytesPassIffLaid(data[NUMBER_SIZE..], key);
    }
  }
}
