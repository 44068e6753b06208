/**
 * The frame decoder and encoder. The decoder is resumable: it sees the byte stream in whatever
 * pieces the socket hands over, and keeps the header of a Data frame whose body is still incomplete.
 * Parse is the plain reading of a whole byte string, with nothing retained; the decoder is proved
 * to agree with it under every division of the stream into chunks.
 */
module YamuxCodec {
  import opened ByteStrings
  import opened YamuxFrame

  // ----------------------------------------------------------------- the header

  function Bit(b: bool, weight: nat): (n: nat) { if b then weight else 0 }

  function LowBits(f: Flags): (n: nat)
    ensures n < 16
  {
    Bit(f.syn, 1) + Bit(f.ack, 2) + Bit(f.fin, 4) + Bit(f.rst, 8)
  }

  function FlagsNumber(f: Flags): (n: u16) {
    f.rest * 16 + LowBits(f)
  }

  function FlagsOfNumber(n: u16): (f: Flags)
    ensures FlagsNumber(f) == n
  {
    var low, rest := n % 16, n / 16;
    Flags(low % 2 == 1, low / 2 % 2 == 1, low / 4 % 2 == 1, low / 8 == 1, rest)
  }

  function TypeNumber(t: FrameType): (n: byte) {
    match t
    case Data => 0
    case WindowUpdate => 1
    case Ping => 2
    case GoAway => 3
  }

  function TypeOfNumber(n: byte): (t: Option<FrameType>)
    ensures t.Some? <==> n <= 3
    ensures t.Some? ==> TypeNumber(t.value) == n
  {
    match n
    case 0 => Some(Data)
    case 1 => Some(WindowUpdate)
    case 2 => Some(Ping)
    case 3 => Some(GoAway)
    case _ => None
  }

  datatype DecodeError = BadVersion(version: byte) | BadType(ty: byte) | TooLong(length: u32)

  function EncodeHeader(h: Header): (b: Bytes)
    ensures |b| == HEADER_SIZE
  {
    [h.version, TypeNumber(h.ty)] + (Be16(FlagsNumber(h.flags)) + (Be32(h.streamId) + Be32(h.length)))
  }

  /** A header the decoder accepts. */
  predicate Acceptable(h: Header, max: u32) {
    h.version == PROTOCOL_VERSION && (h.ty == Data ==> h.length <= max)
  }

  function DecodeHeader(b: Bytes, max: u32): (r: Result<Header, DecodeError>)
    requires |b| == HEADER_SIZE
    ensures r.Success? ==> Acceptable(r.value, max) && EncodeHeader(r.value) == b
  {
    if b[0] != PROTOCOL_VERSION then Failure(BadVersion(b[0]))
    else
      match TypeOfNumber(b[1])
      case None => Failure(BadType(b[1]))
      case Some(ty) =>
        var flags, id, length := FlagsOfNumber(UnBe16(b[2..4])), UnBe32(b[4..8]), UnBe32(b[8..12]);
        if ty == Data && length > max then Failure(TooLong(length))
        else
          assert b == [b[0], b[1]] + (b[2..4] + (b[4..8] + b[8..12]));
          Success(Header(b[0], ty, flags, id, length))
  }

  lemma FlagsInverts(f: Flags)
    ensures FlagsOfNumber(FlagsNumber(f)) == f
  {
    var n := FlagsNumber(f);
    assert n / 16 == f.rest && n % 16 == LowBits(f);
  }

  /** Whatever the encoder writes for an acceptable header, the decoder reads back. */
  lemma HeaderRoundTrip(h: Header, max: u32)
    requires Acceptable(h, max)
    ensures DecodeHeader(EncodeHeader(h), max) == Success(h)
  {
    var b := EncodeHeader(h);
    assert b[0] == h.version && b[1] == TypeNumber(h.ty);
    assert b[2..4] == Be16(FlagsNumber(h.flags));
    assert b[4..8] == Be32(h.streamId) && b[8..12] == Be32(h.length);
    FlagsInverts(h.flags);
    UnBe32Inverts(h.streamId);
    UnBe32Inverts(h.length);
  }

  /** The number a byte string spells, first byte most significant. */
  function Spells(b: Bytes): (n: nat) {
    if b == [] then 0 else Spells(b[..|b| - 1]) * 256 + b[|b| - 1]
  }

  lemma SpellsShort(b: Bytes)
    ensures |b| == 1 ==> Spells(b) == b[0]
    ensures |b| == 2 ==> Spells(b) == UnBe16(b)
  {
    if |b| == 1 {
      assert b[..0] == [];
    } else if |b| == 2 {
      SpellsShort(b[..1]);
    }
  }

  lemma Spells4(b: Bytes)
    requires |b| == 4
    ensures Spells(b) == UnBe32(b)
  {
    SpellsShort(b[..2]);
    assert b[..3][..2] == b[..2] && b[..3][2] == b[2];
    assert Spells(b[..3]) == Spells(b[..2]) * 256 + b[2];
    assert Spells(b) == Spells(b[..3]) * 256 + b[3];
    assert b[2..][0] == b[2] && b[2..][1] == b[3];
  }

  lemma FlagBits(f: Flags)
    ensures var n := FlagsNumber(f);
      && (n % 2 == 1 <==> f.syn) && (n / 2 % 2 == 1 <==> f.ack)
      && (n / 2 / 2 % 2 == 1 <==> f.fin) && (n / 2 / 2 / 2 % 2 == 1 <==> f.rst)
      && n / 2 / 2 / 2 / 2 == f.rest
  {
    var rest: nat := f.rest;
    var n4 := rest;
    var n3 := Bit(f.rst, 1) + 2 * n4;
    var n2 := Bit(f.fin, 1) + 2 * n3;
    var n1 := Bit(f.ack, 1) + 2 * n2;
    var n0 := Bit(f.syn, 1) + 2 * n1;
    assert n0 == FlagsNumber(f);
    Half(f.rst, n4);
    Half(f.fin, n3);
    Half(f.ack, n2);
    Half(f.syn, n1);
    hide FlagsNumber;
  }

  lemma Half(bit: bool, m: nat)
    ensures var n := Bit(bit, 1) + 2 * m; n / 2 == m && (n % 2 == 1 <==> bit)
  {
  }

  /**
   * A header on the wire: version, type, then flags, stream id and length as big-endian numbers of
   * two, four and four bytes; SYN, ACK, FIN and RST are the four lowest flag bits, in that order.
   */
  lemma HeaderOnWire(h: Header)
    ensures var b := EncodeHeader(h);
      var flags := Spells(b[2..4]);
      && b[0] == h.version && b[1] == TypeNumber(h.ty)
      && (flags % 2 == 1 <==> h.flags.syn) && (flags / 2 % 2 == 1 <==> h.flags.ack)
      && (flags / 2 / 2 % 2 == 1 <==> h.flags.fin) && (flags / 2 / 2 / 2 % 2 == 1 <==> h.flags.rst)
      && flags / 2 / 2 / 2 / 2 == h.flags.rest && Spells(b[4..8]) == h.streamId && Spells(b[8..12]) == h.length
  {
    var b := EncodeHeader(h);
    assert b[2..4] == Be16(FlagsNumber(h.flags));
    assert b[4..8] == Be32(h.streamId) && b[8..12] == Be32(h.length);
    assert b[0] == h.version && b[1] == TypeNumber(h.ty);
    hide EncodeHeader, FlagsNumber, Spells;
    SpellsShort(b[2..4]);
    FlagBits(h.flags);
    assert Spells(b[2..4]) == FlagsNumber(h.flags);
    hide Be32, UnBe32, Be16, UnBe16;
    Spells4(b[4..8]);
    Spells4(b[8..12]);
    UnBe32Inverts(h.streamId);
    UnBe32Inverts(h.length);
  }

  /** Exactly why a header is refused: its version first, then its type, then the length of a Data frame. */
  lemma HeaderRefusedIff(b: Bytes, max: u32)
    requires |b| == HEADER_SIZE
    ensures var r, length := DecodeHeader(b, max), Spells(b[8..12]);
      && (r == Failure(BadVersion(b[0])) <==> b[0] != 0)
      && (r == Failure(BadType(b[1])) <==> b[0] == 0 && b[1] > 3)
      && (r.Failure? && r.error.TooLong? <==> b[0] == 0 && b[1] == 0 && length > max)
      && (r.Failure? && r.error.TooLong? ==> r.error.length == length)
      && (r.Success? <==> b[0] == 0 && b[1] <= 3 && (b[1] == 0 ==> length <= max))
  {
    Spells4(b[8..12]);
    hide Spells;
  }

  // ------------------------------------------------------------ whole byte strings

  function BodyLength(h: Header): (n: nat) { if h.ty == Data then h.length else 0 }

  function BodyOf(h: Header, data: Bytes): (b: Option<Bytes>) { if h.ty == Data then Some(data) else None }

  /** What follows the frames: the start of another one, or something that is not a frame. */
  datatype Tail = Rest(bytes: Bytes) | Corrupt(error: DecodeError)

  function Parse(b: Bytes, max: u32): (r: (seq<Frame>, Tail))
    decreases |b|
  {
    if |b| < HEADER_SIZE then ([], Rest(b))
    else
      match DecodeHeader(b[..HEADER_SIZE], max)
      case Failure(e) => ([], Corrupt(e))
      case Success(h) =>
        var end := HEADER_SIZE + BodyLength(h);
        if |b| < end then ([], Rest(b))
        else
          var (fs, tail) := Parse(b[end..], max);
          ([Frame(h, BodyOf(h, b[HEADER_SIZE..end]))] + fs, tail)
  }

  /** Parsing can be resumed anywhere: what is left over is put in front of what comes next. */
  lemma {:induction false} ParseAppend(a: Bytes, b: Bytes, max: u32)
    ensures var (fs, tail) := Parse(a, max);
      Parse(a + b, max) ==
        match tail
        case Corrupt(_) => (fs, tail)
        case Rest(r) => var (gs, tail') := Parse(r + b, max); (fs + gs, tail')
    decreases |a|
  {
    hide DecodeHeader, EncodeHeader;
    var (fs, tail) := Parse(a, max);
    if tail == Rest(a) && fs == [] {
      var gs := Parse(a + b, max).0;
      assert [] + gs == gs;
    } else {
      assert (a + b)[..HEADER_SIZE] == a[..HEADER_SIZE];
      match DecodeHeader(a[..HEADER_SIZE], max)
      case Failure(_) =>
      case Success(h) =>
        var end := HEADER_SIZE + BodyLength(h);
        assert (a + b)[HEADER_SIZE..end] == a[HEADER_SIZE..end] && (a + b)[end..] == a[end..] + b;
        ParseAppend(a[end..], b, max);
        if Parse(a[end..], max).1.Rest? {
          var gs := Parse(Parse(a[end..], max).1.bytes + b, max).0;
          Assoc([fs[0]], fs[1..], gs);
        }
    }
  }

  function EncodeFrame(f: Frame): (b: Bytes) {
    EncodeHeader(f.header) + (if f.body.Some? then f.body.value else [])
  }

  function EncodeAll(fs: seq<Frame>): (b: Bytes) {
    if fs == [] then [] else EncodeFrame(fs[0]) + EncodeAll(fs[1..])
  }

  /** Frames a decoder with the given limit hands out. */
  predicate Decodable(f: Frame, max: u32) {
    f.WellFormed() && (f.Ty() == Data ==> f.Length() <= max)
  }

  /** Encoded frames read back as themselves, with nothing left over. */
  lemma {:induction false} RoundTrip(fs: seq<Frame>, max: u32)
    requires forall f :: f in fs ==> Decodable(f, max)
    ensures Parse(EncodeAll(fs), max) == (fs, Rest([]))
  {
    if fs != [] {
      var f, rest := fs[0], EncodeAll(fs[1..]);
      assert f in fs && Decodable(f, max);
      RoundTrip(fs[1..], max);
      hide EncodeHeader, Parse;
      var body: Bytes := if f.body.Some? then f.body.value else [];
      Assoc(EncodeHeader(f.header), body, rest);
      FirstFrame(f.header, body + rest, max);
      assert (body + rest)[..|body|] == body && (body + rest)[|body|..] == rest;
      assert [f] + fs[1..] == fs;
    }
  }

  /**
   * Nothing else reads as frames: what was read is the encoding of the frames handed out followed
   * by the remainder, and every frame handed out is within the limit.
   */
  lemma {:induction false} ParsedIsEncoded(b: Bytes, max: u32)
    ensures var (fs, tail) := Parse(b, max);
      && (forall f :: f in fs ==> Decodable(f, max))
      && EncodeAll(fs) <= b
      && (tail.Rest? ==> b == EncodeAll(fs) + tail.bytes)
    decreases |b|
  {
    hide DecodeHeader, EncodeHeader;
    var (fs, tail) := Parse(b, max);
    if fs != [] {
      var h := DecodeHeader(b[..HEADER_SIZE], max).value;
      var end := HEADER_SIZE + BodyLength(h);
      ParsedIsEncoded(b[end..], max);
      assert fs[1..] == Parse(b[end..], max).0;
      assert fs[0] == Frame(h, BodyOf(h, b[HEADER_SIZE..end]));
      hide Parse, Decodable, EncodeFrame;
      FirstIsFront(b, h, max);
      PutInFront(b, end, EncodeAll(fs[1..]), tail);
    }
  }

  lemma FirstIsFront(b: Bytes, h: Header, max: u32)
    requires |b| >= HEADER_SIZE + BodyLength(h) && DecodeHeader(b[..HEADER_SIZE], max) == Success(h)
    ensures var end := HEADER_SIZE + BodyLength(h);
      var f := Frame(h, BodyOf(h, b[HEADER_SIZE..end]));
      Decodable(f, max) && EncodeFrame(f) == b[..end]
  {
    var end := HEADER_SIZE + BodyLength(h);
    assert EncodeHeader(h) == b[..HEADER_SIZE];
    hide DecodeHeader, EncodeHeader;
    assert b[..end] == b[..HEADER_SIZE] + b[HEADER_SIZE..end];
  }

  lemma PutInFront(b: Bytes, end: nat, next: Bytes, tail: Tail)
    requires end <= |b| && next <= b[end..]
    ensures b[..end] + next <= b
    ensures tail.Rest? && b[end..] == next + tail.bytes ==> b == (b[..end] + next) + tail.bytes
  {
    assert b == b[..end] + b[end..];
    assert b[end..] == next + b[end..][|next|..];
  }

  // -------------------------------------------------------------------- the codec

  /** The bytes a decoder has been given and has not turned into a frame. */
  function Held(unused: Option<Header>, data: Bytes): (b: Bytes) {
    (if unused.Some? then EncodeHeader(unused.value) else []) + data
  }

  /** A retained header always belongs to a Data frame, within the limit, that has a body to wait for. */
  predicate Retainable(unused: Option<Header>, max: u32) {
    unused.Some? ==> Acceptable(unused.value, max) && unused.value.ty == Data && unused.value.length > 0
  }

  class FrameCodec {
    var unusedDataHeader: Option<Header>
    const maxFrameSize: u32

    constructor (size: u32)
      ensures Retainable(unusedDataHeader, maxFrameSize) && unusedDataHeader.None? && maxFrameSize == size
    {
      unusedDataHeader := None;
      maxFrameSize := size;
    }

    /**
     * One frame, if the buffer holds all of it. Nothing is lost while a frame is incomplete, a frame
     * handed out is exactly the first one of what was held, and an error is the one Parse reports.
     */
    method Decode(src: ByteBuffer) returns (r: Result<Option<Frame>, DecodeError>)
      requires Retainable(unusedDataHeader, maxFrameSize)
      modifies this, src
      ensures Retainable(unusedDataHeader, maxFrameSize)
      ensures var held, held' := old(Held(unusedDataHeader, src.data)), Held(unusedDataHeader, src.data);
        match r
        case Failure(e) => Parse(held, maxFrameSize) == ([], Corrupt(e))
        case Success(None) => held' == held && Parse(held, maxFrameSize) == ([], Rest(held))
        case Success(Some(f)) =>
          && |held'| < |held|
          && Parse(held, maxFrameSize) == ([f] + Parse(held', maxFrameSize).0, Parse(held', maxFrameSize).1)
    {
      ghost var held := Held(unusedDataHeader, src.data);
      if |src.data| == 0 {
        IncompleteParse(unusedDataHeader, src.data, maxFrameSize);
        return Success(None);
      }
      var header;
      if unusedDataHeader.Some? {
        header := unusedDataHeader.value;
        unusedDataHeader := None;
      } else if |src.data| >= HEADER_SIZE {
        assert held == src.data;
        var headerData := src.SplitTo(HEADER_SIZE);
        assert held[..HEADER_SIZE] == headerData;
        var decoded := DecodeHeader(headerData, maxFrameSize);
        if decoded.Failure? {
          return Failure(decoded.error);
        }
        header := decoded.value;
      } else {
        assert held == src.data;
        return Success(None);
      }
      assert held == EncodeHeader(header) + src.data;
      FirstFrame(header, src.data, maxFrameSize);
      var body := None;
      if header.ty == Data {
        if |src.data| < header.length {
          unusedDataHeader := Some(header);
          return Success(None);
        }
        ghost var before := src.data;
        var data := src.SplitTo(header.length);
        assert before[..header.length] == data && before[header.length..] == src.data;
        body := Some(data);
      } else {
        assert src.data[0..] == src.data;
      }
      assert Held(None, src.data) == src.data;
      return Success(Some(Frame(header, body)));
    }

    /**
     * What the framed transport does with a chunk from the socket: append it, then decode until no
     * whole frame is left. An error ends the stream.
     */
    method Feed(src: ByteBuffer, chunk: Bytes) returns (frames: seq<Frame>, error: Option<DecodeError>)
      requires Retainable(unusedDataHeader, maxFrameSize)
      modifies this, src
      ensures Retainable(unusedDataHeader, maxFrameSize)
      ensures var (fs, tail) := Parse(old(Held(unusedDataHeader, src.data)) + chunk, maxFrameSize);
        && frames == fs
        && match tail
           case Corrupt(e) => error == Some(e)
           case Rest(b) => error == None && Held(unusedDataHeader, src.data) == b
    {
      ghost var all := Held(unusedDataHeader, src.data) + chunk;
      src.Put(chunk);
      assert Held(unusedDataHeader, src.data) == all;
      frames, error := [], None;
      while true
        invariant Retainable(unusedDataHeader, maxFrameSize)
        invariant Parse(all, maxFrameSize).0 == frames + Parse(Held(unusedDataHeader, src.data), maxFrameSize).0
        invariant Parse(all, maxFrameSize).1 == Parse(Held(unusedDataHeader, src.data), maxFrameSize).1
        invariant error == None
        decreases |Held(unusedDataHeader, src.data)|
      {
        ghost var held := Held(unusedDataHeader, src.data);
        var r := Decode(src);
        if r.Failure? {
          return frames, Some(r.error);
        }
        if r.value.None? {
          return frames, None;
        }
        Assoc(frames, [r.value.value], Parse(Held(unusedDataHeader, src.data), maxFrameSize).0);
        frames := frames + [r.value.value];
      }
    }

    method Encode(item: Frame, dst: ByteBuffer)
      modifies dst
      ensures dst.data == old(dst.data) + EncodeFrame(item)
    {
      ghost var was := dst.data;
      var header := item.header;
      dst.Put([header.version]);
      dst.Put([TypeNumber(header.ty)]);
      dst.Put(Be16(FlagsNumber(header.flags)));
      dst.Put(Be32(header.streamId));
      dst.Put(Be32(header.length));
      assert dst.data == was + EncodeHeader(header);
      if item.body.Some? {
        dst.Put(item.body.value);
      }
    }
  }

  lemma IncompleteParse(unused: Option<Header>, data: Bytes, max: u32)
    requires Retainable(unused, max) && data == []
    ensures Parse(Held(unused, data), max) == ([], Rest(Held(unused, data)))
  {
    if unused.Some? {
      var b := Held(unused, data);
      assert b[..HEADER_SIZE] == EncodeHeader(unused.value);
      HeaderRoundTrip(unused.value, max);
    }
  }

  lemma FirstFrame(h: Header, data: Bytes, max: u32)
    requires Acceptable(h, max)
    ensures var n := BodyLength(h);
      Parse(EncodeHeader(h) + data, max) ==
        if |data| < n then ([], Rest(EncodeHeader(h) + data))
        else ([Frame(h, BodyOf(h, data[..n]))] + Parse(data[n..], max).0, Parse(data[n..], max).1)
  {
    var b, n := EncodeHeader(h) + data, BodyLength(h);
    assert b[..HEADER_SIZE] == EncodeHeader(h);
    HeaderRoundTrip(h, max);
    if n <= |data| {
      assert b[HEADER_SIZE..HEADER_SIZE + n] == data[..n] && b[HEADER_SIZE + n..] == data[n..];
    }
  }

  // ------------------------------------------------------------------ any chunking

  /** One more chunk: what was left over is put in front of it, and an error stays the last word. */
  lemma FedChunk(chunks: seq<Bytes>, i: nat, max: u32, frames: seq<Frame>, held: Bytes)
    requires i < |chunks| && Parse(Flatten(chunks[..i]), max) == (frames, Rest(held))
    ensures var (fs, tail) := Parse(held + chunks[i], max);
      && Parse(Flatten(chunks[..i + 1]), max) == (frames + fs, tail)
      && (tail.Corrupt? ==> Parse(Flatten(chunks), max) == (frames + fs, tail))
  {
    var done, next := chunks[..i], chunks[..i + 1];
    ParseAppend(Flatten(done), chunks[i], max);
    assert next == done + [chunks[i]];
    FlattenSnoc(done, chunks[i]);
    ParseAppend(Flatten(next), Flatten(chunks[i + 1..]), max);
    FlattenAppend(next, chunks[i + 1..]);
    assert chunks == next + chunks[i + 1..];
    hide Parse, Flatten;
  }

  /** A fresh decoder fed the chunks one after the other; an error ends the stream. */
  method DecodeStream(chunks: seq<Bytes>, max: u32) returns (frames: seq<Frame>, error: Option<DecodeError>)
    ensures var (fs, tail) := Parse(Flatten(chunks), max);
      frames == fs && error == if tail.Corrupt? then Some(tail.error) else None
  {
    var codec := new FrameCodec(max);
    var src := new ByteBuffer();
    frames, error := [], None;
    assert Flatten(chunks[..0]) == [] && Held(None, []) == [] && Parse([], max) == ([], Rest([]));
    hide Parse, Flatten, Held, Retainable;
    for i := 0 to |chunks|
      invariant fresh(codec) && fresh(src)
      invariant Retainable(codec.unusedDataHeader, max) && codec.maxFrameSize == max
      invariant error == None
      invariant Parse(Flatten(chunks[..i]), max) == (frames, Rest(Held(codec.unusedDataHeader, src.data)))
    {
      ghost var held := Held(codec.unusedDataHeader, src.data);
      var more, e := codec.Feed(src, chunks[i]);
      FedChunk(chunks, i, max, frames, held);
      frames, error := frames + more, e;
      if error.Some? {
        return;
      }
    }
    assert chunks[..|chunks|] == chunks;
  }
}
