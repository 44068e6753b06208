/** Multiaddresses: self-describing components, written one after the other. */
module Multiaddr {
  import opened ByteStrings
  import opened Utf8
  import Varint = MultiaddrVarint

  const DNS4: nat := 0x36
  const DNS6: nat := 0x37
  const IP4: nat := 0x04
  const IP6: nat := 0x29
  const P2P: nat := 0x01a5
  const TCP: nat := 0x06
  const TLS: nat := 0x01c0
  const WS: nat := 0x01dd
  const WSS: nat := 0x01de
  const MEMORY: nat := 0x0309
  const ONION3: nat := 0x01bd
  const QUICV1: nat := 0x01cd
  const UDP: nat := 0x0111

  const SHA256_CODE: nat := 0x12
  const SHA256_SIZE: nat := 32

  /** A component. Names are the bytes of a string; hashes are kept as they are. */
  datatype Protocol =
    | Dns4(name: Bytes)
    | Dns6(name: Bytes)
    | Ip4(octets: Bytes)
    | Ip6(segments: seq<u16>)
    | PeerHash(hash: Bytes)
    | Tcp(port: u16)
    | Tls(name: Bytes)
    | Ws
    | Wss
    | Memory(cell: u64)
    | Onion3(onion: Bytes, port: u16)
    | Udp(port: u16)
    | QuicV1

  datatype AddrError =
    DataLessThanLen | InvalidUvar(e: Varint.VarintError) | ParsingError | UnknownHash | UnknownProtocolId(id: nat)

  /** A multihash: the code of SHA-256, the length, and that many bytes. */
  function CheckP2p(data: Bytes): (r: Option<AddrError>) {
    match Varint.DecodeU64(data)
    case Failure(e) => Some(InvalidUvar(e))
    case Success((code, bytes)) =>
      if code != SHA256_CODE then Some(UnknownHash)
      else if |bytes| != SHA256_SIZE + 1 then Some(UnknownHash)
      else if bytes[0] != SHA256_SIZE then Some(UnknownHash)
      else None
  }

  /** Exactly one multihash passes for each 32 bytes. */
  lemma CheckP2pAccepts(data: Bytes)
    ensures CheckP2p(data).None? <==> |data| == 34 && data[0] == SHA256_CODE && data[1] == SHA256_SIZE
  {
    if CheckP2p(data).None? {
      Varint.Canonical(data, Varint.U64_LIMIT, 9);
      var bytes := Varint.DecodeU64(data).value.1;
      assert data == [SHA256_CODE] + bytes;
    }
    if |data| == 34 && data[0] == SHA256_CODE && data[1] == SHA256_SIZE {
      Varint.ReadsBack(SHA256_CODE, data[1..]);
      assert data == [SHA256_CODE] + data[1..];
    }
  }

  predicate IsName(s: Bytes) { IsUtf8(s) && |s| < Varint.U64_LIMIT }

  /** What the types of the components and the constructors that check promise. */
  predicate WellFormed(p: Protocol) {
    match p
    case Dns4(s) => IsName(s)
    case Dns6(s) => IsName(s)
    case Tls(s) => IsName(s)
    case Ip4(octets) => |octets| == 4
    case Ip6(segments) => |segments| == 8
    case PeerHash(hash) => CheckP2p(hash).None? && |hash| < Varint.U64_LIMIT
    case Onion3(onion, _) => |onion| == 35
    case _ => true
  }

  // ------------------------------------------------------------------ writing

  function Code(p: Protocol): (n: nat)
    ensures n < Varint.U32_LIMIT
  {
    match p
    case Dns4(_) => DNS4
    case Dns6(_) => DNS6
    case Ip4(_) => IP4
    case Ip6(_) => IP6
    case PeerHash(_) => P2P
    case Tcp(_) => TCP
    case Tls(_) => TLS
    case Ws => WS
    case Wss => WSS
    case Memory(_) => MEMORY
    case Onion3(_, _) => ONION3
    case Udp(_) => UDP
    case QuicV1 => QUICV1
  }

  /** A length, then the bytes. */
  function Prefixed(s: Bytes): (b: Bytes) { Varint.Encode(|s|) + s }

  function Segments(segments: seq<u16>): (b: Bytes)
    ensures |b| == 2 * |segments|
  {
    if segments == [] then [] else Be16(segments[0]) + Segments(segments[1..])
  }

  function Body(p: Protocol): (b: Bytes) {
    match p
    case Dns4(s) => Prefixed(s)
    case Dns6(s) => Prefixed(s)
    case Tls(s) => Prefixed(s)
    case PeerHash(hash) => Prefixed(hash)
    case Ip4(octets) => octets
    case Ip6(segments) => Segments(segments)
    case Tcp(port) => Be16(port)
    case Udp(port) => Be16(port)
    case Memory(cell) => Be64(cell)
    case Onion3(onion, port) => onion + Be16(port)
    case _ => []
  }

  function Encode(p: Protocol): (b: Bytes)
    ensures b != []
  {
    Varint.Encode(Code(p)) + Body(p)
  }

  method WriteToBytes(p: Protocol, w: ByteBuffer)
    modifies w
    ensures w.data == old(w.data) + Encode(p)
  {
    ghost var was := w.data;
    w.Put(Varint.Encode(Code(p)));
    match p {
      case Dns4(s) => WritePrefixed(s, w);
      case Dns6(s) => WritePrefixed(s, w);
      case Tls(s) => WritePrefixed(s, w);
      case PeerHash(hash) => WritePrefixed(hash, w);
      case Ip4(octets) => w.Put(octets);
      case Ip6(segments) => WriteSegments(segments, w);
      case Tcp(port) => w.Put(Be16(port));
      case Udp(port) => w.Put(Be16(port));
      case Memory(cell) => w.Put(Be64(cell));
      case Onion3(onion, port) =>
        w.Put(onion);
        w.Put(Be16(port));
      case _ =>
    }
    Assoc(was, Varint.Encode(Code(p)), Body(p));
    assert w.data == was + Varint.Encode(Code(p)) + Body(p);
  }

  method WritePrefixed(s: Bytes, w: ByteBuffer)
    modifies w
    ensures w.data == old(w.data) + Prefixed(s)
  {
    w.Put(Varint.Encode(|s|));
    w.Put(s);
  }

  method WriteSegments(segments: seq<u16>, w: ByteBuffer)
    modifies w
    ensures w.data == old(w.data) + Segments(segments)
  {
    ghost var was := w.data;
    assert segments[0..] == segments;
    for i := 0 to |segments|
      invariant w.data + Segments(segments[i..]) == was + Segments(segments)
    {
      assert segments[i..][0] == segments[i] && segments[i..][1..] == segments[i + 1..];
      Assoc(w.data, Be16(segments[i]), Segments(segments[i + 1..]));
      w.Put(Be16(segments[i]));
    }
    assert w.data + [] == w.data;
  }

  // ------------------------------------------------------------------ reading

  function SplitHeader(n: nat, input: Bytes): (r: Result<(Bytes, Bytes), AddrError>)
    ensures r.Success? <==> n <= |input|
    ensures r.Success? ==> input == r.value.0 + r.value.1 && |r.value.0| == n
  {
    if |input| < n then Failure(DataLessThanLen) else Success((input[..n], input[n..]))
  }

  function ReadPrefixed(input: Bytes): (r: Result<(Bytes, Bytes), AddrError>) {
    match Varint.DecodeU64(input)
    case Failure(e) => Failure(InvalidUvar(e))
    case Success((n, rest)) => SplitHeader(n, rest)
  }

  function ReadSegments(data: Bytes): (s: seq<u16>)
    requires |data| % 2 == 0
    ensures |s| == |data| / 2 && Segments(s) == data
  {
    if data == [] then []
    else
      assert data == data[..2] + data[2..];
      [UnBe16(data[..2])] + ReadSegments(data[2..])
  }

  function ReadName(make: Bytes -> Protocol, input: Bytes): (r: Result<(Protocol, Bytes), AddrError>) {
    match ReadPrefixed(input)
    case Failure(e) => Failure(e)
    case Success((s, rest)) => if IsUtf8(s) then Success((make(s), rest)) else Failure(ParsingError)
  }

  function ReadBody(id: nat, input: Bytes): (r: Result<(Protocol, Bytes), AddrError>) {
    if id == DNS4 then ReadName(s => Dns4(s), input)
    else if id == DNS6 then ReadName(s => Dns6(s), input)
    else if id == TLS then ReadName(s => Tls(s), input)
    else if id == P2P then
      match ReadPrefixed(input)
      case Failure(e) => Failure(e)
      case Success((hash, rest)) =>
        match CheckP2p(hash)
        case Some(e) => Failure(e)
        case None => Success((PeerHash(hash), rest))
    else if id == WS then Success((Ws, input))
    else if id == WSS then Success((Wss, input))
    else if id == QUICV1 then Success((QuicV1, input))
    else ReadFixed(id, input)
  }

  /** The components whose body has a fixed size. */
  function ReadFixed(id: nat, input: Bytes): (r: Result<(Protocol, Bytes), AddrError>) {
    var size :=
      if id == IP4 then 4
      else if id == IP6 then 16
      else if id == TCP || id == UDP then 2
      else if id == MEMORY then 8
      else if id == ONION3 then 37
      else 0;
    if size == 0 then Failure(UnknownProtocolId(id))
    else
      match SplitHeader(size, input)
      case Failure(e) => Failure(e)
      case Success((data, rest)) =>
        if id == IP4 then Success((Ip4(data), rest))
        else if id == IP6 then Success((Ip6(ReadSegments(data)), rest))
        else if id == TCP then Success((Tcp(UnBe16(data)), rest))
        else if id == UDP then Success((Udp(UnBe16(data)), rest))
        else if id == MEMORY then Success((Memory(UnBe64(data)), rest))
        else Success((Onion3(data[..35], UnBe16(data[35..])), rest))
  }

  function FromBytes(input: Bytes): (r: Result<(Protocol, Bytes), AddrError>) {
    match Varint.DecodeU32(input)
    case Failure(e) => Failure(InvalidUvar(e))
    case Success((id, rest)) => ReadBody(id, rest)
  }

  // ----------------------------------------------------- one component, both ways

  lemma ReadsBackPrefixed(s: Bytes, rest: Bytes)
    requires |s| < Varint.U64_LIMIT
    ensures ReadPrefixed(Prefixed(s) + rest) == Success((s, rest))
  {
    Assoc(Varint.Encode(|s|), s, rest);
    Varint.ReadsBack(|s|, s + rest);
    assert (s + rest)[..|s|] == s && (s + rest)[|s|..] == rest;
  }

  lemma CanonicalPrefixed(input: Bytes)
    requires ReadPrefixed(input).Success?
    ensures var (s, rest) := ReadPrefixed(input).value; input == Prefixed(s) + rest && |s| < Varint.U64_LIMIT
  {
    Varint.Canonical(input, Varint.U64_LIMIT, 9);
    var (n, tail) := Varint.DecodeU64(input).value;
    var (s, rest) := ReadPrefixed(input).value;
    Assoc(Varint.Encode(n), s, rest);
  }

  lemma {:induction false} SegmentsInjective(a: seq<u16>, b: seq<u16>)
    requires Segments(a) == Segments(b)
    ensures a == b
  {
    if a != [] && b != [] {
      assert Segments(a)[..2] == Be16(a[0]) && Segments(b)[..2] == Be16(b[0]);
      assert Segments(a)[2..] == Segments(a[1..]) && Segments(b)[2..] == Segments(b[1..]);
      SegmentsInjective(a[1..], b[1..]);
      assert a == [a[0]] + a[1..] && b == [b[0]] + b[1..];
    }
  }

  lemma ReadsBackFixed(p: Protocol, rest: Bytes)
    requires WellFormed(p) && (p.Ip4? || p.Ip6? || p.Tcp? || p.Udp? || p.Memory? || p.Onion3?)
    ensures ReadFixed(Code(p), Body(p) + rest) == Success((p, rest))
  {
    var b := Body(p);
    assert (b + rest)[..|b|] == b && (b + rest)[|b|..] == rest;
    match p
    case Ip6(segments) => SegmentsInjective(ReadSegments(b), segments);
    case Memory(cell) => UnBe64Inverts(cell);
    case Onion3(onion, port) => assert b[..35] == onion && b[35..] == Be16(port);
    case _ =>
  }

  lemma ReadsBackBody(p: Protocol, rest: Bytes)
    requires WellFormed(p)
    ensures ReadBody(Code(p), Body(p) + rest) == Success((p, rest))
  {
    match p
    case Dns4(s) => ReadsBackPrefixed(s, rest);
    case Dns6(s) => ReadsBackPrefixed(s, rest);
    case Tls(s) => ReadsBackPrefixed(s, rest);
    case PeerHash(hash) => ReadsBackPrefixed(hash, rest);
    case Ws => assert [] + rest == rest;
    case Wss => assert [] + rest == rest;
    case QuicV1 => assert [] + rest == rest;
    case _ => ReadsBackFixed(p, rest);
  }

  /** Reading undoes writing, and leaves what follows. */
  lemma ReadsBack(p: Protocol, rest: Bytes)
    requires WellFormed(p)
    ensures FromBytes(Encode(p) + rest) == Success((p, rest))
  {
    Assoc(Varint.Encode(Code(p)), Body(p), rest);
    Varint.ReadsBack(Code(p), Body(p) + rest);
    ReadsBackBody(p, rest);
  }

  lemma CanonicalBody(id: nat, input: Bytes)
    requires ReadBody(id, input).Success?
    ensures var (p, rest) := ReadBody(id, input).value;
      Code(p) == id && WellFormed(p) && input == Body(p) + rest
  {
    if id == DNS4 || id == DNS6 || id == TLS || id == P2P {
      CanonicalPrefixed(input);
    } else if id == WS || id == WSS || id == QUICV1 {
      assert [] + input == input;
    } else if id == ONION3 {
      var data := SplitHeader(37, input).value.0;
      assert data == data[..35] + data[35..];
    }
  }

  /** Only what was written for a well-formed component reads as one. */
  lemma Canonical(input: Bytes)
    requires FromBytes(input).Success?
    ensures var (p, rest) := FromBytes(input).value;
      WellFormed(p) && input == Encode(p) + rest && |rest| < |input|
  {
    Varint.Canonical(input, Varint.U32_LIMIT, 4);
    var (id, tail) := Varint.DecodeU32(input).value;
    CanonicalBody(id, tail);
    var (p, rest) := FromBytes(input).value;
    Assoc(Varint.Encode(id), Body(p), rest);
  }
}
