/** Yamux frames: the twelve-byte header, its four flags, and the frame constructors. */
module YamuxFrame {
  import opened ByteStrings

  type StreamId = u32

  const PROTOCOL_VERSION: byte := 0
  const RESERVED_STREAM_ID: StreamId := 0
  const HEADER_SIZE: nat := 12

  /** Both sides assume this window before any update. */
  const INITIAL_STREAM_WINDOW: u32 := 256 * 1024

  datatype FrameType = Data | WindowUpdate | Ping | GoAway

  type u12 = x: int | 0 <= x < 0x1000

  /** The sixteen flag bits: the four that have a meaning, and the twelve that do not. */
  datatype Flags = Flags(syn: bool, ack: bool, fin: bool, rst: bool, rest: u12)

  const NoFlags := Flags(false, false, false, false, 0)
  const SynFlag := NoFlags.(syn := true)
  const AckFlag := NoFlags.(ack := true)
  const RstFlag := NoFlags.(rst := true)

  datatype Header = Header(version: byte, ty: FrameType, flags: Flags, streamId: StreamId, length: u32)

  datatype Frame = Frame(header: Header, body: Option<Bytes>) {
    function Ty(): FrameType { header.ty }
    function Id(): StreamId { header.streamId }
    function FlagsOf(): Flags { header.flags }
    function Length(): u32 { header.length }

    /** Frames that belong to a stream rather than to the session. */
    predicate OnStream() {
      Ty() == Data || Ty() == WindowUpdate
    }

    /** Exactly the frames the decoder can hand out: only Data has a body, of the announced length. */
    predicate WellFormed() {
      && header.version == PROTOCOL_VERSION
      && (header.ty == Data <==> body.Some?)
      && (body.Some? ==> |body.value| == header.length)
    }

    /** The application bytes carried; none unless this is a Data frame. */
    function Payload(): Bytes {
      if Ty() == Data && body.Some? then body.value else []
    }

    /** The send credit granted; none unless this is a WindowUpdate frame. */
    function Credit(): nat {
      if Ty() == WindowUpdate then Length() else 0
    }
  }

  datatype GoAwayCode = Normal | ProtocolError | InternalError

  function CodeNumber(c: GoAwayCode): (n: u32) {
    match c
    case Normal => 0
    case ProtocolError => 1
    case InternalError => 2
  }

  /** Unknown codes are read as ProtocolError. */
  function CodeOf(n: u32): (c: GoAwayCode)
    ensures n <= 2 <==> CodeNumber(c) == n
  {
    if n == 0 then Normal else if n == 1 then ProtocolError else if n == 2 then InternalError else ProtocolError
  }

  function NewData(flags: Flags, id: StreamId, body: Bytes): (f: Frame)
    requires |body| <= MAX_U32
    ensures f.WellFormed() && f.Payload() == body && f.Credit() == 0
  {
    Frame(Header(PROTOCOL_VERSION, Data, flags, id, |body|), Some(body))
  }

  function NewWindowUpdate(flags: Flags, id: StreamId, delta: u32): (f: Frame)
    ensures f.WellFormed() && f.Payload() == [] && f.Credit() == delta
  {
    Frame(Header(PROTOCOL_VERSION, WindowUpdate, flags, id, delta), None)
  }

  function NewPing(flags: Flags, pingId: u32): (f: Frame)
    ensures f.WellFormed() && !f.OnStream()
  {
    Frame(Header(PROTOCOL_VERSION, Ping, flags, RESERVED_STREAM_ID, pingId), None)
  }

  function NewGoAway(code: GoAwayCode): (f: Frame)
    ensures f.WellFormed() && !f.OnStream() && CodeOf(f.Length()) == code
  {
    Frame(Header(PROTOCOL_VERSION, GoAway, NoFlags, RESERVED_STREAM_ID, CodeNumber(code)), None)
  }

  /** All application bytes carried by a list of frames, in order. */
  function PayloadOf(fs: seq<Frame>): (r: Bytes) {
    if fs == [] then [] else fs[0].Payload() + PayloadOf(fs[1..])
  }

  /** All send credit granted by a list of frames. */
  function CreditOf(fs: seq<Frame>): (r: nat) {
    if fs == [] then 0 else fs[0].Credit() + CreditOf(fs[1..])
  }

  lemma {:induction false} PayloadOfAppend(a: seq<Frame>, b: seq<Frame>)
    ensures PayloadOf(a + b) == PayloadOf(a) + PayloadOf(b)
  {
    if a == [] {
      assert a + b == b;
    } else {
      var head, tail := a[0].Payload(), PayloadOf(a[1..]);
      assert PayloadOf(a + b) == head + (tail + PayloadOf(b)) by {
        PayloadOfAppend(a[1..], b);
        assert (a + b)[0] == a[0] && (a + b)[1..] == a[1..] + b;
      }
      assert PayloadOf(a) == head + tail;
    }
  }

  lemma {:induction false} CreditOfAppend(a: seq<Frame>, b: seq<Frame>)
    ensures CreditOf(a + b) == CreditOf(a) + CreditOf(b)
  {
    if a == [] {
      assert a + b == b;
    } else {
      CreditOfAppend(a[1..], b);
      assert (a + b)[1..] == a[1..] + b;
    }
  }

  lemma TotalsSnoc(a: seq<Frame>, f: Frame)
    ensures PayloadOf(a + [f]) == PayloadOf(a) + f.Payload()
    ensures CreditOf(a + [f]) == CreditOf(a) + f.Credit()
  {
    PayloadOfAppend(a, [f]);
    CreditOfAppend(a, [f]);
    assert PayloadOf([f]) == f.Payload() + PayloadOf([]);
    assert CreditOf([f]) == f.Credit() + CreditOf([]);
  }
}
