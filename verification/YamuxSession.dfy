/**
 * One yamux session as a value, together with the receiving halves of the stream handles it has
 * created. Each function is one thing the session does while it is polled, or one thing its owner
 * does with it or with one of its streams. How much of the write queue the socket takes at the
 * moment, and whether a stream's channel has room, are arguments.
 */
module YamuxSession {
  import opened ByteStrings
  import opened YamuxFrame
  import opened YamuxStream

  datatype SessionType = Client | Server

  datatype Config = Config(acceptBacklog: nat, maxStreamCount: nat, maxStreamWindowSize: u32)

  /** A stream that was turned down: the frame that asked for it, and the answer. */
  datatype Refusal = Refusal(syn: Frame, reply: Frame)

  /**
   * The streams of a session. streams are the ids whose frame channel the session still holds;
   * handles are the other ends, in the hands of users or waiting to be accepted. gone says that the
   * session itself was dropped.
   */
  datatype Registry = Registry(
    ty: SessionType,
    config: Config,
    gone: bool,
    nextStreamId: u32,
    streams: set<StreamId>,
    handles: map<StreamId, Handle>,
    refused: map<StreamId, Refusal>)

  /**
   * pings are the numbers of the pings in flight, with the time they were sent at; taken and blocked
   * belong to a pass of distribute_to_substream that is under way.
   */
  datatype Session = Session(
    reg: Registry,
    eof: bool,
    remoteGoAway: bool,
    localGoAway: bool,
    pings: map<u32, nat>,
    pingId: u32,
    pendingStreams: seq<StreamId>,
    writePending: seq<Frame>,
    readPending: seq<Frame>,
    taken: seq<Frame>,
    blocked: set<StreamId>,
    events: seq<StreamEvent>)
  {
    predicate Dead() {
      (remoteGoAway && localGoAway) || eof
    }
  }

  function FirstStreamId(ty: SessionType): (id: StreamId) {
    match ty
    case Client => 1
    case Server => 2
  }

  function NewSession(ty: SessionType, config: Config): (s: Session) {
    Session(Registry(ty, config, false, FirstStreamId(ty), {}, map[], map[]),
            false, false, false, map[], 0, [], [], [], [], {}, [])
  }

  // ------------------------------------------------------------------ sending

  /** send_all when the socket takes up to k frames; a dead session pops one frame and gives up. */
  function SendAll(s: Session, k: nat): (r: (Session, seq<Frame>))
    ensures r.0 == s.(writePending := r.0.writePending)
    ensures !s.Dead() ==> r.1 + r.0.writePending == s.writePending
  {
    if s.writePending == [] then (s, [])
    else if s.Dead() then (s.(writePending := s.writePending[1..]), [])
    else
      var n := Min(k, |s.writePending|);
      (s.(writePending := s.writePending[n..]), s.writePending[..n])
  }

  function SendFrame(s: Session, f: Frame, k: nat): (r: (Session, seq<Frame>)) {
    SendAll(s.(writePending := s.writePending + [f]), k)
  }

  function SendGoAwayWithCode(s: Session, code: GoAwayCode, k: nat): (r: (Session, seq<Frame>)) {
    var (s1, out) := SendFrame(s.(writePending := []), NewGoAway(code), k);
    (s1.(localGoAway := true), out)
  }

  // ------------------------------------------------------------------ streams

  datatype SessionError = StreamsExhausted | DuplicateStream | SessionDead | RemoteWentAway

  /** Registers a stream, either of our own or with an id the peer chose, and announces its window. */
  function AddStream(s: Session, id: StreamId, opener: bool): (r: Result<Session, SessionError>) {
    if id in s.reg.streams then Failure(DuplicateStream)
    else
      var h := CreateHandle(id, opener, s.reg.config.maxStreamWindowSize);
      Success(s.(reg := s.reg.(streams := s.reg.streams + {id}, handles := s.reg.handles[id := h]),
                 events := s.events + h.sent))
  }

  function OpenStream(s: Session): (r: (Session, Option<SessionError>)) {
    if s.Dead() then (s, Some(SessionDead))
    else if s.remoteGoAway then (s, Some(RemoteWentAway))
    else if s.reg.nextStreamId + 2 > MAX_U32 then (s, Some(StreamsExhausted))
    else
      var s1 := s.(reg := s.reg.(nextStreamId := s.reg.nextStreamId + 2));
      match AddStream(s1, s.reg.nextStreamId, true)
      case Failure(e) => (s1, Some(e))
      case Success(s2) => (s2, None)
  }

  // ------------------------------------------------- distribute_to_substream

  function BeginPass(s: Session, more: seq<Frame>): (r: Session) {
    s.(taken := s.readPending + more, readPending := [], blocked := {})
  }

  /** Hands a frame to its stream; if the channel is full the frame and its successors wait. */
  function Route(s: Session, f: Frame, ready: bool): (r: Session)
    ensures r == s.(reg := r.reg, readPending := r.readPending, blocked := r.blocked)
    ensures r.reg == s.reg.(streams := r.reg.streams, handles := r.reg.handles)
  {
    var id, reg := f.Id(), s.reg;
    if id !in reg.streams then s
    else if id !in reg.handles || reg.handles[id].dropped then s.(reg := reg.(streams := reg.streams - {id}))
    else if ready || reg.handles[id].inbox == [] then
      s.(reg := reg.(handles := reg.handles[id := Deliver(reg.handles[id], f)]))
    else s.(readPending := s.readPending + [f], blocked := s.blocked + {id})
  }

  /** Records that a stream was turned down; what is already known of the id is kept. */
  function Refuse(reg: Registry, syn: Frame, reply: Frame): (r: Registry) {
    if syn.Id() in reg.handles || syn.Id() in reg.refused then reg
    else reg.(refused := reg.refused[syn.Id() := Refusal(syn, reply)])
  }

  /** The body of the loop, for a frame that opens a stream. */
  function DistributeSyn(s: Session, f: Frame, ready: bool, k: nat): (r: (Session, seq<Frame>))
    ensures r.0.reg.ty == s.reg.ty
  {
    if s.localGoAway then
      var reply := NewWindowUpdate(RstFlag, f.Id(), 0);
      var (s1, out) := SendFrame(s.(reg := Refuse(s.reg, f, reply)), reply, k);
      (s1.(taken := []), out)
    else if |s.reg.streams| < s.reg.config.maxStreamCount && |s.pendingStreams| < s.reg.config.acceptBacklog then
      match AddStream(s, f.Id(), false)
      case Failure(_) =>
        var (s1, out) := SendGoAwayWithCode(s, ProtocolError, k);
        (s1.(taken := []), out)
      case Success(s1) => (Route(s1.(pendingStreams := s.pendingStreams + [f.Id()]), f, ready), [])
    else
      var reply := NewWindowUpdate(AckFlag.(rst := true), f.Id(), 0);
      (Route(s.(reg := Refuse(s.reg, f, reply), writePending := s.writePending + [reply]), f, ready), [])
  }

  /** One round of the loop, for the next frame taken. */
  function DistributeNext(s: Session, ready: bool, k: nat): (r: (Session, seq<Frame>))
    requires s.taken != []
    ensures r.0.reg.ty == s.reg.ty
  {
    var f, s0 := s.taken[0], s.(taken := s.taken[1..]);
    if f.Id() in s.blocked then (s0.(readPending := s.readPending + [f]), [])
    else if f.FlagsOf().syn then DistributeSyn(s0, f, ready, k)
    else (Route(s0, f, ready), [])
  }

  // ---------------------------------------------------------------- receiving

  function HandleGoAway(s: Session, k: nat): (r: (Session, seq<Frame>)) {
    var s1 := s.(remoteGoAway := true, writePending := []);
    if s.localGoAway then (s1, []) else SendGoAwayWithCode(s1, Normal, k)
  }

  /** The pings in flight that are not settled by the answer to this one: those with larger numbers. */
  function Unsettled(pings: map<u32, nat>, id: u32): (m: map<u32, nat>) {
    map j | j in pings && j > id :: pings[j]
  }

  function HandlePing(s: Session, f: Frame, k: nat): (r: (Session, seq<Frame>)) {
    if f.FlagsOf().syn then SendFrame(s, NewPing(AckFlag, f.Length()), k)
    else if f.FlagsOf().ack then (s.(pings := Unsettled(s.pings, f.Length())), [])
    else (s, [])
  }

  function HandleFrameFromPeer(s: Session, f: Frame, k: nat): (r: (Session, seq<Frame>)) {
    match f.Ty()
    case Ping => HandlePing(s, f, k)
    case GoAway => HandleGoAway(s, k)
    case _ => (BeginPass(s, [f]), [])
  }

  function HandleEvent(s: Session, k: nat): (r: (Session, seq<Frame>))
    requires s.events != []
  {
    var s0 := s.(events := s.events[1..]);
    match s.events[0]
    case FrameEvent(f) => SendFrame(s0, f, k)
    case ClosedEvent(id) => (s0.(reg := s.reg.(streams := s.reg.streams - {id})), [])
    case GoAwayEvent => SendGoAwayWithCode(s0, ProtocolError, k)
  }

  /** 30 seconds, in nanoseconds. */
  const TIMEOUT: nat := 30_000_000_000

  /** A ping has been in flight for too long. */
  predicate Overdue(pings: map<u32, nat>, now: nat) {
    exists id :: id in pings && now - pings[id] > TIMEOUT
  }

  /**
   * The timer: a keepalive ping, or, after our own go-away, giving up on the answer. The last result
   * says whether a ping is overdue, which the owner of the session is told as an error.
   */
  function Tick(s: Session, now: nat, k: nat): (r: (Session, seq<Frame>, bool)) {
    if s.localGoAway then (s.(remoteGoAway := true), [], false)
    else if Overdue(s.pings, now) then (s, [], true)
    else
      var id := Wrap32(s.pingId + 1);
      var (s1, out) := SendFrame(s.(pingId := id, pings := s.pings[id := now]), NewPing(SynFlag, id), k);
      (s1, out, false)
  }

  /** The owner of a handle uses it; the events it emits join the queue to the session. */
  function UseHandle(s: Session, id: StreamId, op: HandleOp): (r: Session)
    requires id in s.reg.handles
  {
    var h := s.reg.handles[id];
    var h' := Apply(h, op, Link(id in s.reg.streams, !s.reg.gone));
    s.(reg := s.reg.(handles := s.reg.handles[id := h']), events := s.events + h'.sent[|h.sent|..])
  }

  // ----------------------------------------------------------------- all steps

  datatype Action =
    | Open
    | Accept
    | Receive(k: nat)
    | Distribute(ready: bool, k: nat)
    | Flush(k: nat)
    | Event(k: nat)
    | SayGoAway(k: nat)
    | Timer(now: nat, k: nat)
    | Eof
    | DropSession
    | Use(id: StreamId, op: HandleOp)

  /** What can happen now, given what the peer's frames on the wire are. */
  predicate Enabled(s: Session, incoming: seq<Frame>, a: Action) {
    match a
    case Use(id, _) => id in s.reg.handles && !s.reg.handles[id].dropped && id !in s.pendingStreams
    case Distribute(_, _) => !s.reg.gone && s.taken != [] && !s.Dead()
    case Receive(_) => !s.reg.gone && s.taken == [] && !s.Dead() && incoming != []
    case Flush(_) => !s.reg.gone && s.taken == [] && !s.Dead()
    case Event(_) => !s.reg.gone && s.taken == [] && s.events != []
    case Accept => !s.reg.gone && s.taken == [] && s.pendingStreams != []
    case _ => !s.reg.gone && s.taken == []
  }

  /** The session after the action, and the frames it put on the wire. */
  function Act(s: Session, incoming: seq<Frame>, a: Action): (r: (Session, seq<Frame>))
    requires Enabled(s, incoming, a)
  {
    match a
    case Open => (OpenStream(s).0, [])
    case Accept => (s.(pendingStreams := s.pendingStreams[1..]), [])
    case Receive(k) => HandleFrameFromPeer(s, incoming[0], k)
    case Distribute(ready, k) => DistributeNext(s, ready, k)
    case Flush(k) => var (s1, out) := SendAll(s, k); (BeginPass(s1, []), out)
    case Event(k) => HandleEvent(s, k)
    case SayGoAway(k) => SendGoAwayWithCode(s, Normal, k)
    case Timer(now, k) => var (s1, out, _) := Tick(s, now, k); (s1, out)
    case Eof => (s.(eof := true), [])
    case DropSession =>
      (s.(reg := s.reg.(gone := true, streams := {}), eof := true, events := [], writePending := []), [])
    case Use(id, op) => (UseHandle(s, id, op), [])
  }

  function Consumed(a: Action): (n: nat) { if a.Receive? then 1 else 0 }
}
