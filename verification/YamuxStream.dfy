/**
 * One end of a yamux stream, as a value. Every operation of the stream handle is a function from
 * the handle before to the handle after; whether the session still holds the two channel ends it
 * shares with the handle is the Link argument.
 *
 * Five fields record history instead of state: the events given to the session (sent), the frames
 * taken from the session and acted on (handled), the bytes handed to the reader (consumed), the
 * bytes writers were told were accepted (accepted), and whether a writer waits to be woken (parked).
 */
module YamuxStream {
  import opened ByteStrings
  import opened YamuxFrame

  datatype StreamState =
    Init | SynSent | SynReceived | Established | LocalClosing | RemoteClosing | Closed | Reset

  datatype StreamEvent = FrameEvent(frame: Frame) | ClosedEvent(id: StreamId) | GoAwayEvent

  datatype StreamError =
    UnexpectedFlag | RecvWindowExceeded | InvalidMsgType | SubStreamRemoteClosing | SessionShutdown

  /** inboxOpen: the session holds the sender of the frame channel; sessionOpen: it still receives events. */
  datatype Link = Link(inboxOpen: bool, sessionOpen: bool)

  datatype Handle = Handle(
    id: StreamId,
    state: StreamState,
    maxRecvWindow: u32,
    recvWindow: u32,
    sendWindow: u32,
    readBuf: seq<Bytes>,
    inbox: seq<Frame>,
    writeWaker: bool,
    readWaker: bool,
    dropped: bool,
    sent: seq<StreamEvent>,
    handled: seq<Frame>,
    consumed: Bytes,
    accepted: Bytes,
    parked: bool)

  function NewHandle(id: StreamId, state: StreamState, maxRecvWindow: u32): (h: Handle) {
    Handle(id, state, maxRecvWindow, INITIAL_STREAM_WINDOW, INITIAL_STREAM_WINDOW, [], [], false, false, false,
           [], [], [], [], false)
  }

  /** States in which frames are still taken from the session. */
  predicate Receiving(s: StreamState) {
    s != RemoteClosing && s != Closed && s != Reset
  }

  // ---------------------------------------------------------------- sending

  /** The event reaches the session only while the session exists; otherwise the send fails. */
  function Emit(h: Handle, e: StreamEvent, link: Link): (r: (Handle, bool))
    ensures r.1 == link.sessionOpen
    ensures r.0 == if link.sessionOpen then h.(sent := h.sent + [e]) else h
  {
    if link.sessionOpen then (h.(sent := h.sent + [e]), true) else (h, false)
  }

  /** The first frame of a stream carries SYN or ACK, and taking the flag moves the state on. */
  function TakeFlags(h: Handle): (r: (Handle, Flags))
    ensures r.0 == h.(state := r.0.state)
  {
    match h.state
    case Init => (h.(state := SynSent), SynFlag)
    case SynReceived => (h.(state := Established), AckFlag)
    case _ => (h, NoFlags)
  }

  /** What the peer may be granted: all that is neither unread nor granted already. */
  function Delta(h: Handle): (d: u32) {
    Wrap32(h.maxRecvWindow - Wrap32(|Flatten(h.readBuf)|) - h.recvWindow)
  }

  function Grant(h: Handle, flags: Flags, delta: u32, link: Link): (r: (Handle, bool))
    ensures r.0 == h.(recvWindow := r.0.recvWindow, sent := r.0.sent) && h.sent <= r.0.sent
  {
    Emit(h.(recvWindow := Wrap32(h.recvWindow + delta)), FrameEvent(NewWindowUpdate(flags, h.id, delta)), link)
  }

  function SendWindowUpdate(h: Handle, link: Link): (r: (Handle, bool))
    ensures r.0 == h.(state := r.0.state, recvWindow := r.0.recvWindow, sent := r.0.sent) && h.sent <= r.0.sent
  {
    var delta := Delta(h);
    var (h1, flags) := TakeFlags(h);
    if delta < h.maxRecvWindow / 2 && flags == NoFlags then (h1, true) else Grant(h1, flags, delta, link)
  }

  function SendData(h: Handle, data: Bytes, link: Link): (r: (Handle, bool))
    requires |data| <= MAX_U32
    ensures r.0.id == h.id && r.0.maxRecvWindow == h.maxRecvWindow && h.sent <= r.0.sent
  {
    var (h1, flags) := TakeFlags(h);
    Emit(h1, FrameEvent(NewData(flags, h.id, data)), link)
  }

  function SendClose(h: Handle, link: Link): (r: (Handle, bool))
    ensures r.0.id == h.id && r.0.maxRecvWindow == h.maxRecvWindow && h.sent <= r.0.sent
  {
    var (h1, flags) := TakeFlags(h);
    Emit(h1, FrameEvent(NewWindowUpdate(flags.(fin := true), h.id, 0)), link)
  }

  /** A protocol error: stop writing and ask the session to go away. */
  function SendGoAwayEvent(h: Handle, link: Link): (r: Handle) {
    Emit(h.(state := LocalClosing), GoAwayEvent, link).0
  }

  // -------------------------------------------------------------- receiving

  /** process_flags on the state alone: ACK, then FIN, then RST; nothing if the flags are unexpected. */
  function StateAfter(s: StreamState, flags: Flags): (r: Option<StreamState>)
    ensures r.None? <==> flags.fin && !Receiving(s)
    ensures r.Some? && s != Init && s != SynReceived ==> r.value != Init && r.value != SynReceived
  {
    var s1 := if flags.ack && s == SynSent then Established else s;
    if flags.fin && !Receiving(s1) then None
    else
      var s2 := if !flags.fin then s1 else if s1 == LocalClosing then Closed else RemoteClosing;
      Some(if flags.rst then Reset else s2)
  }

  function HandleWindowUpdate(h: Handle, f: Frame): (r: (Handle, Option<StreamError>)) {
    match StateAfter(h.state, f.FlagsOf())
    case None => (h, Some(UnexpectedFlag))
    case Some(s) =>
      if h.sendWindow + f.Length() > MAX_U32 then (h.(state := s), Some(InvalidMsgType))
      else
        (h.(state := s, sendWindow := h.sendWindow + f.Length(), writeWaker := false,
            parked := h.parked && !h.writeWaker), None)
  }

  function HandleData(h: Handle, f: Frame): (r: (Handle, Option<StreamError>)) {
    match StateAfter(h.state, f.FlagsOf())
    case None => (h, Some(UnexpectedFlag))
    case Some(s) =>
      if f.Length() > h.recvWindow then (h.(state := s), Some(RecvWindowExceeded))
      else
        var buf := if f.body.Some? && f.Length() > 0 then h.readBuf + [f.body.value] else h.readBuf;
        (h.(state := s, readBuf := buf, recvWindow := h.recvWindow - f.Length()), None)
  }

  function HandleFrame(h: Handle, f: Frame): (r: (Handle, Option<StreamError>))
    ensures r.0.id == h.id && r.0.inbox == h.inbox && r.0.sent == h.sent && r.0.consumed == h.consumed
    ensures r.0.dropped == h.dropped && r.0.maxRecvWindow == h.maxRecvWindow && r.0.accepted == h.accepted
    ensures r.0.handled == if r.1.None? then h.handled + [f] else h.handled
  {
    var (h1, e) := match f.Ty()
      case WindowUpdate => HandleWindowUpdate(h, f)
      case Data => HandleData(h, f)
      case _ => (h, Some(InvalidMsgType));
    (if e.None? then h1.(handled := h1.handled + [f]) else h1, e)
  }

  datatype RecvOutcome = Drained(any: bool) | Failed(error: StreamError)

  /** Takes frames from the session until none is left, the stream stops receiving, or a frame is refused. */
  function RecvFrames(h: Handle, link: Link): (r: (Handle, RecvOutcome))
    ensures r.0.id == h.id && r.0.sent == h.sent && r.0.consumed == h.consumed && r.0.dropped == h.dropped
    ensures r.0.maxRecvWindow == h.maxRecvWindow && r.0.accepted == h.accepted
    ensures Receiving(r.0.state) || IsProtocolError(r.1) ==> Receiving(h.state)
    decreases |h.inbox|
  {
    if h.state == RemoteClosing then (h, Failed(SubStreamRemoteClosing))
    else if h.state == Reset || h.state == Closed then (h, Failed(SessionShutdown))
    else if h.inbox == [] then
      if link.inboxOpen then (h, Drained(false))
      else (h.(state := RemoteClosing), Failed(SubStreamRemoteClosing))
    else
      var (h1, e) := HandleFrame(h.(inbox := h.inbox[1..]), h.inbox[0]);
      if e.Some? then (h1, Failed(e.value))
      else
        var (h2, o) := RecvFrames(h1, link);
        (h2, if o.Drained? then Drained(true) else o)
  }

  predicate IsProtocolError(o: RecvOutcome) {
    o.Failed? && (o.error == UnexpectedFlag || o.error == RecvWindowExceeded || o.error == InvalidMsgType)
  }

  // ------------------------------------------------------------ reading

  datatype SelfState = EndOfStream | ConnectionReset | Usable

  function CheckSelfState(h: Handle): (r: SelfState) {
    if h.readBuf != [] then Usable
    else if h.state == RemoteClosing || h.state == Closed then EndOfStream
    else if h.state == Reset then ConnectionReset
    else Usable
  }

  /** What one read of the given capacity copies out of the chunks, and the chunks it leaves. */
  function ReadChunks(chunks: seq<Bytes>, cap: nat): (r: (Bytes, seq<Bytes>)) {
    if chunks == [] || Min(cap, |chunks[0]|) == 0 then ([], chunks)
    else if |chunks[0]| <= cap then
      var (out, rest) := ReadChunks(chunks[1..], cap - |chunks[0]|);
      (chunks[0] + out, rest)
    else
      (chunks[0][..cap], [chunks[0][cap..]] + chunks[1..])
  }

  datatype ReadResult =
    ReadEof | ReadReset | ReadInvalidData | ReadPending | ReadBytes(bytes: Bytes) | ReadBrokenPipe(bytes: Bytes)

  /** The part of poll_read and poll_peek that runs before any byte is copied; a result here ends the poll. */
  function PrepareRead(h: Handle, link: Link): (r: (Handle, Option<ReadResult>))
    ensures r.0.id == h.id && r.0.maxRecvWindow == h.maxRecvWindow && h.sent <= r.0.sent
  {
    match CheckSelfState(h)
    case EndOfStream => (h, Some(ReadEof))
    case ConnectionReset => (h, Some(ReadReset))
    case Usable =>
      var (h1, o) := RecvFrames(h.(readWaker := true), link);
      if IsProtocolError(o) then (SendGoAwayEvent(h1, link), Some(ReadInvalidData))
      else
        match CheckSelfState(h1)
        case EndOfStream => (h1, Some(ReadEof))
        case ConnectionReset => (h1, Some(ReadReset))
        case Usable => (h1, if h1.readBuf == [] then Some(ReadPending) else None)
  }

  function PollRead(h: Handle, cap: nat, link: Link): (r: (Handle, ReadResult))
    ensures r.0.id == h.id && r.0.maxRecvWindow == h.maxRecvWindow && h.sent <= r.0.sent
  {
    var (h1, early) := PrepareRead(h, link);
    if early.Some? then (h1, early.value)
    else
      var (out, rest) := ReadChunks(h1.readBuf, cap);
      var h2 := h1.(readBuf := rest, consumed := h1.consumed + out);
      if !Receiving(h2.state) then (h2, ReadBytes(out))
      else
        var (h3, ok) := SendWindowUpdate(h2, link);
        (h3, if ok then ReadBytes(out) else ReadBrokenPipe(out))
  }

  /** What poll_peek copies: as much of the chunks as fits, stopping where ReadChunks would. */
  function PollPeek(h: Handle, cap: nat, link: Link): (r: (Handle, ReadResult))
    ensures r.0.id == h.id && r.0.maxRecvWindow == h.maxRecvWindow && h.sent <= r.0.sent
  {
    var (h1, early) := PrepareRead(h, link);
    if early.Some? then (h1, early.value) else (h1, ReadBytes(ReadChunks(h1.readBuf, cap).0))
  }

  // ------------------------------------------------------------ writing

  datatype WriteResult = WriteBrokenPipe | WritePending | Wrote(n: nat)

  /** recv_frames_wake: take frames, and wake the reader if there is now something for it to see. */
  function RecvFramesWake(h: Handle, link: Link): (r: (Handle, RecvOutcome))
    ensures r.0.id == h.id && r.0.maxRecvWindow == h.maxRecvWindow && h.sent <= r.0.sent
  {
    var (h1, o) := RecvFrames(h, link);
    var closed := h1.state == RemoteClosing && h.state != RemoteClosing;
    var grown := o == Drained(true) && |h1.readBuf| != |h.readBuf|;
    (if closed || grown then h1.(readWaker := false) else h1, o)
  }

  function PollWrite(h: Handle, buf: Bytes, link: Link): (r: (Handle, WriteResult))
    ensures r.0.id == h.id && r.0.maxRecvWindow == h.maxRecvWindow && h.sent <= r.0.sent
  {
    var (h0, o) := RecvFramesWake(h, link);
    var h1 := if IsProtocolError(o) then SendGoAwayEvent(h0, link) else h0;
    if h1.state == Reset || h1.state == LocalClosing || h1.state == Closed then (h1, WriteBrokenPipe)
    else if h1.sendWindow == 0 then (h1.(writeWaker := true, parked := true), WritePending)
    else
      var n := Min(h1.sendWindow, |buf|);
      var (h2, ok) := SendData(h1, buf[..n], link);
      if ok then (h2.(sendWindow := h2.sendWindow - n, accepted := h2.accepted + buf[..n]), Wrote(n))
      else (h2, WriteBrokenPipe)
  }

  // ------------------------------------------------------------ closing

  function Close(h: Handle, link: Link): (r: (Handle, bool))
    ensures r.0.id == h.id && r.0.maxRecvWindow == h.maxRecvWindow && h.sent <= r.0.sent
  {
    match h.state
    case RemoteClosing =>
      var (h1, ok) := SendClose(h.(state := Closed), link);
      if ok then Emit(h1, ClosedEvent(h.id), link) else (h1, false)
    case Reset => Emit(h.(state := Closed), ClosedEvent(h.id), link)
    case Closed => Emit(h.(state := Closed), ClosedEvent(h.id), link)
    case LocalClosing => Emit(h.(state := Closed), ClosedEvent(h.id), link)
    case _ => SendClose(h.(state := LocalClosing), link)
  }

  function DropHandle(h: Handle, link: Link): (r: Handle)
    ensures r.id == h.id && r.maxRecvWindow == h.maxRecvWindow && h.sent <= r.sent
  {
    var h0 := h.(dropped := true);
    if !link.sessionOpen || h.state == Closed then h0
    else if h.state == LocalClosing || h.state == Reset then Emit(h0, ClosedEvent(h.id), link).0
    else
      var (h1, flags) := TakeFlags(h0);
      var h2 := Emit(h1, FrameEvent(NewWindowUpdate(flags.(rst := true), h.id, 0)), link).0;
      Emit(h2, ClosedEvent(h.id), link).0
  }

  // --------------------------------------------------------- all operations

  /** What the owner of a handle can do with it. */
  datatype HandleOp = Read(cap: nat) | Peek(cap: nat) | Write(buf: Bytes) | Shutdown | Drop

  function Apply(h: Handle, op: HandleOp, link: Link): (r: Handle)
    ensures r.id == h.id && r.maxRecvWindow == h.maxRecvWindow && h.sent <= r.sent
  {
    match op
    case Read(cap) => PollRead(h, cap, link).0
    case Peek(cap) => PollPeek(h, cap, link).0
    case Write(buf) => PollWrite(h, buf, link).0
    case Shutdown => Close(h, link).0
    case Drop => DropHandle(h, link)
  }

  /** The handle create_stream returns: a new one that has announced its configured window. */
  function CreateHandle(id: StreamId, opener: bool, maxRecvWindow: u32): (h: Handle) {
    SendWindowUpdate(NewHandle(id, if opener then Init else SynReceived, maxRecvWindow), Link(true, true)).0
  }

  /** The session puts one frame into the handle's channel. */
  function Deliver(h: Handle, f: Frame): (r: Handle) {
    h.(inbox := h.inbox + [f])
  }
}
