/**
 * Two sessions joined by two wires, and the invariant their every step keeps. A wire is the list of
 * frames one session has written and the other has not read yet.
 */
module YamuxNetwork {
  import opened ByteStrings
  import opened YamuxFrame
  import opened YamuxStream
  import opened YamuxStreamLaws
  import opened YamuxStreamTrace
  import opened YamuxTransport
  import opened YamuxSession

  datatype Network = Network(a: Session, b: Session, ab: seq<Frame>, ba: seq<Frame>)

  datatype Side = A | B

  /** One side acts, if it can. */
  function Step(n: Network, side: Side, act: Action): (r: Network) {
    match side
    case A =>
      if !Enabled(n.a, n.ba, act) then n
      else var (s, out) := Act(n.a, n.ba, act); Network(s, n.b, n.ab + out, n.ba[Consumed(act)..])
    case B =>
      if !Enabled(n.b, n.ab, act) then n
      else var (s, out) := Act(n.b, n.ab, act); Network(n.a, s, n.ab[Consumed(act)..], n.ba + out)
  }

  /** A run: any sequence of actions of the two sides, their users and their sockets. */
  function Run(n: Network, acts: seq<(Side, Action)>): (r: Network)
    decreases |acts|
  {
    if acts == [] then n else Run(Step(n, acts[0].0, acts[0].1), acts[1..])
  }

  function Start(client: Config, server: Config): (n: Network) {
    Network(NewSession(Client, client), NewSession(Server, server), [], [])
  }

  // ------------------------------------------------- one session, seen alone

  /** Ids of the parity of the session are its own to open. */
  predicate Mine(ty: SessionType, id: StreamId) {
    id % 2 == FirstStreamId(ty) % 2
  }

  /** Where a handle is kept: its id, the session it belongs to, and whether that holds its channel. */
  datatype Place = Place(id: StreamId, ty: SessionType, maxWindow: u32, next: u32, gone: bool, held: bool) {
    predicate Opener() { Mine(ty, id) }
  }

  function PlaceOf(reg: Registry, id: StreamId): (p: Place) {
    Place(id, reg.ty, reg.config.maxStreamWindowSize, reg.nextStreamId, reg.gone, id in reg.streams)
  }

  /** A handle obeys its laws, belongs where it is kept, and is held by the session until it closes. */
  ghost predicate HandleOk(h: Handle, p: Place) {
    match p
    case Place(id, ty, maxWindow, next, gone, held) =>
      && h.id == id && h.maxRecvWindow == maxWindow
      && Laws(h, Mine(ty, id), !gone) && Finished(h, !gone) && Orderly(h)
      && (if Mine(ty, id) then id < next else Arrived(h) != [])
      && (!gone && !h.dropped && h.state != Closed ==> held)
  }

  ghost predicate RefusalOk(reg: Registry, id: StreamId)
    requires id in reg.refused
  {
    var r := reg.refused[id];
    && !Mine(reg.ty, id) && id !in reg.handles
    && OnStreamOf(r.reply, id) && !r.reply.FlagsOf().syn && r.reply.FlagsOf().rst
    && r.reply.Payload() == [] && r.reply.Credit() == 0
  }

  ghost predicate RegistryOk(reg: Registry) {
    match reg
    case Registry(ty, config, gone, nextStreamId, streams, handles, refused) =>
      && INITIAL_STREAM_WINDOW <= config.maxStreamWindowSize
      && nextStreamId % 2 == FirstStreamId(ty) % 2
      && streams <= handles.Keys
      && (forall id :: id in handles ==> HandleOk(handles[id], PlaceOf(reg, id)))
      && (forall id :: id in refused ==> RefusalOk(reg, id))
  }

  ghost predicate EventOk(reg: Registry, e: StreamEvent) {
    match e
    case FrameEvent(f) => f.WellFormed() && f.OnStream()
    case ClosedEvent(id) => id in reg.handles && (reg.handles[id].state == Closed || reg.handles[id].dropped)
    case GoAwayEvent => false
  }

  ghost predicate EventsOk(reg: Registry, es: seq<StreamEvent>) {
    forall i :: 0 <= i < |es| ==> EventOk(reg, es[i])
  }

  /** A frame that may be on its way to the peer; no session ever reports a protocol error. */
  ghost predicate Sendable(f: Frame) {
    f.WellFormed() && (f.Ty() == GoAway ==> CodeOf(f.Length()) == Normal)
  }

  ghost predicate AllSendable(fs: seq<Frame>) {
    forall i :: 0 <= i < |fs| ==> Sendable(fs[i])
  }

  ghost predicate OnStreams(fs: seq<Frame>) {
    forall i :: 0 <= i < |fs| ==> fs[i].WellFormed() && fs[i].OnStream()
  }

  /** A frame that opens a stream is never left waiting, and is the last one of a pass. */
  ghost predicate PassOk(readPending: seq<Frame>, taken: seq<Frame>, blocked: set<StreamId>) {
    && OnStreams(readPending) && OnStreams(taken)
    && (forall i :: 0 <= i < |readPending| ==> !readPending[i].FlagsOf().syn)
    && (forall i :: 0 <= i < |taken| - 1 ==> !taken[i].FlagsOf().syn)
    && (taken != [] ==> forall i :: 0 <= i < |readPending| ==> readPending[i].Id() in blocked)
  }

  ghost predicate SessionOk(x: Session) {
    match x
    case Session(reg, _, remoteGoAway, localGoAway, _, _, _, writePending, readPending, taken, blocked, events) =>
      && RegistryOk(reg)
      && EventsOk(reg, events)
      && PassOk(readPending, taken, blocked)
      && AllSendable(writePending)
      && (remoteGoAway ==> localGoAway)
      && (taken != [] ==> !x.Dead())
      && blocked <= reg.handles.Keys
  }

  // ---------------------------------------------------- two sessions together

  /** Everything a session has emitted on a stream, oldest first. */
  function Sent(reg: Registry, id: StreamId): (fs: seq<Frame>) {
    if id in reg.handles then SentFrames(reg.handles[id])
    else if id in reg.refused then [reg.refused[id].reply]
    else []
  }

  /** Everything that has reached a stream of the session, oldest first. */
  function Front(reg: Registry, id: StreamId): (fs: seq<Frame>) {
    if id in reg.handles then Arrived(reg.handles[id])
    else if id in reg.refused then [reg.refused[id].syn]
    else []
  }

  /** Nothing has been heard of the stream yet. */
  predicate Fresh(reg: Registry, id: StreamId) {
    id !in reg.handles && id !in reg.refused
  }

  /** Frames of the stream can still reach it, or open it. */
  predicate Listening(x: Session, id: StreamId) {
    !x.Dead() && (id in x.reg.streams || Fresh(x.reg, id))
  }

  function TxOf(x: Session, id: StreamId): (tx: Tx) {
    Tx(Sent(x.reg, id), x.writePending + FramesOf(x.events), x.Dead())
  }

  function RxOf(x: Session, id: StreamId): (rx: Rx) {
    Rx(Front(x.reg, id), x.readPending + x.taken, Listening(x, id))
  }

  /** Both directions of one stream, seen from x: out is the wire from x to y, inc the wire back. */
  ghost predicate Joined(x: Session, out: seq<Frame>, y: Session, inc: seq<Frame>, id: StreamId) {
    Fifo(TxOf(x, id), out, RxOf(y, id), id) && Fifo(TxOf(y, id), inc, RxOf(x, id), id)
  }

  ghost predicate PairOk(x: Session, out: seq<Frame>, y: Session, inc: seq<Frame>) {
    && SessionOk(x) && SessionOk(y) && x.reg.ty != y.reg.ty
    && AllSendable(out) && AllSendable(inc)
    && forall id :: Joined(x, out, y, inc, id)
  }

  ghost predicate NetworkOk(n: Network) {
    PairOk(n.a, n.ab, n.b, n.ba)
  }
}
