/** Unsigned varints: seven bits a byte, least significant first, in the shortest form. */
module MultiaddrVarint {
  import opened ByteStrings

  datatype VarintError = Insufficient | Overflow | NotMinimal

  function Encode(n: nat): (b: Bytes) {
    if n < 128 then [n] else [128 + n % 128] + Encode(n / 128)
  }

  /** Reads the bytes of a varint from the i-th on; more is how many may follow the next one. */
  function DecodeFrom(b: Bytes, first: bool, more: nat): (r: Result<(nat, Bytes), VarintError>)
    decreases |b|
  {
    if b == [] then Failure(Insufficient)
    else if b[0] < 128 then
      if b[0] == 0 && !first then Failure(NotMinimal) else Success((b[0], b[1..]))
    else if more == 0 then Failure(Overflow)
    else
      match DecodeFrom(b[1..], false, more - 1)
      case Failure(e) => Failure(e)
      case Success((n, rest)) => Success((b[0] - 128 + 128 * n, rest))
  }

  /** A number below the limit, from at most 1 + more bytes. */
  function Decode(b: Bytes, limit: nat, more: nat): (r: Result<(nat, Bytes), VarintError>)
    ensures r.Success? ==> r.value.0 < limit
  {
    match DecodeFrom(b, true, more)
    case Failure(e) => Failure(e)
    case Success((n, rest)) => if n < limit then Success((n, rest)) else Failure(Overflow)
  }

  const U32_LIMIT: nat := 0x1_0000_0000
  const U64_LIMIT: nat := 0x1_0000_0000_0000_0000

  function DecodeU32(b: Bytes): (r: Result<(nat, Bytes), VarintError>) { Decode(b, U32_LIMIT, 4) }

  function DecodeU64(b: Bytes): (r: Result<(nat, Bytes), VarintError>) { Decode(b, U64_LIMIT, 9) }

  /** What can be written in k bytes. */
  function Capacity(k: nat): (n: nat)
    ensures n > 0
  {
    if k == 0 then 1 else 128 * Capacity(k - 1)
  }

  lemma {:induction false} ReadsBackFrom(n: nat, rest: Bytes, first: bool, more: nat)
    requires n < Capacity(more + 1) && (first || n > 0)
    ensures DecodeFrom(Encode(n) + rest, first, more) == Success((n, rest))
    decreases n
  {
    var b := Encode(n) + rest;
    if n < 128 {
      assert b[0] == n && b[1..] == rest;
    } else {
      assert b[0] == 128 + n % 128 && b[1..] == Encode(n / 128) + rest;
      assert n / 128 < Capacity(more);
      assert more > 0;
      ReadsBackFrom(n / 128, rest, false, more - 1);
    }
  }

  /** Decoding undoes encoding, whatever follows. */
  lemma ReadsBack(n: nat, rest: Bytes)
    ensures n < U32_LIMIT ==> DecodeU32(Encode(n) + rest) == Success((n, rest))
    ensures n < U64_LIMIT ==> DecodeU64(Encode(n) + rest) == Success((n, rest))
  {
    Capacities();
    if n < U32_LIMIT {
      ReadsBackFrom(n, rest, true, 4);
    }
    if n < U64_LIMIT {
      ReadsBackFrom(n, rest, true, 9);
    }
  }

  lemma Capacities()
    ensures U32_LIMIT <= Capacity(5) && U64_LIMIT <= Capacity(10)
  {
    assert Capacity(3) == 128 * Capacity(2) == 128 * (128 * 128);
    assert Capacity(5) == 128 * Capacity(4) == 128 * (128 * Capacity(3));
    assert Capacity(7) == 128 * Capacity(6) == 128 * (128 * Capacity(5));
    assert Capacity(9) == 128 * Capacity(8) == 128 * (128 * Capacity(7));
  }

  lemma {:induction false} CanonicalFrom(b: Bytes, first: bool, more: nat)
    requires DecodeFrom(b, first, more).Success?
    ensures var (n, rest) := DecodeFrom(b, first, more).value;
      b == Encode(n) + rest && (first || n > 0)
    decreases |b|
  {
    if b[0] >= 128 {
      CanonicalFrom(b[1..], false, more - 1);
      var (m, rest) := DecodeFrom(b[1..], false, more - 1).value;
      var n := b[0] - 128 + 128 * m;
      assert n % 128 == b[0] - 128 && n / 128 == m && n >= 128;
      Assoc([b[0]], Encode(m), rest);
      assert b == [b[0]] + b[1..];
    }
  }

  /** Only the encoding of a number decodes to it. */
  lemma Canonical(b: Bytes, limit: nat, more: nat)
    requires Decode(b, limit, more).Success?
    ensures var (n, rest) := Decode(b, limit, more).value; b == Encode(n) + rest
  {
    CanonicalFrom(b, true, more);
  }
}
