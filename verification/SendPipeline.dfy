/**
 * The way of a message from the service to the network: the channel to its session, the session's
 * buffer for the protocol, the channel to the protocol stream, the stream's write buffers, and the
 * yamux stream. Every stage keeps high and normal priority apart and serves high first. A counter
 * shared by all stages says how many bytes are on the way.
 *
 * How much a channel or the socket takes at the moment, and whether it then fails, are arguments.
 */
module SendPipeline {
  import opened ByteStrings

  datatype Priority = High | Normal

  /** Two queues served high first. */
  datatype Lanes<T> = Lanes(high: seq<T>, normal: seq<T>) {
    function At(p: Priority): seq<T> { if p == High then high else normal }

    function Size(): nat { |high| + |normal| }

    /** Which queue is served next. */
    function First(): Priority { if high != [] then High else Normal }

    function Push(p: Priority, x: T): Lanes<T> {
      if p == High then Lanes(high + [x], normal) else Lanes(high, normal + [x])
    }

    /** The first n entries, in the order they are served. */
    function Taken(n: nat): Lanes<T>
      requires n <= Size()
    {
      if n <= |high| then Lanes(high[..n], []) else Lanes(high, normal[..n - |high|])
    }

    /** What the first n entries leave. */
    function Left(n: nat): Lanes<T>
      requires n <= Size()
    {
      if n <= |high| then Lanes(high[n..], normal) else Lanes([], normal[n - |high|..])
    }
  }

  function NoLanes<T>(): (l: Lanes<T>) { Lanes([], []) }

  /** Serving n entries takes a front part of each queue, and of the normal one only if the high one is empty. */
  lemma ServesInOrder<T>(l: Lanes<T>, n: nat)
    requires n <= l.Size()
    ensures forall p :: l.Taken(n).At(p) + l.Left(n).At(p) == l.At(p)
    ensures l.Taken(n).high + l.Taken(n).normal == (l.high + l.normal)[..n]
    ensures l.Taken(n).normal != [] ==> l.Left(n).high == []
  {
    if n <= |l.high| {
      assert l.high[..n] + l.high[n..] == l.high && [] + l.normal == l.normal;
      assert (l.high + l.normal)[..n] == l.high[..n] + [];
    } else {
      var k := n - |l.high|;
      assert l.normal[..k] + l.normal[k..] == l.normal && l.high + [] == l.high;
      assert (l.high + l.normal)[..n] == l.high + l.normal[..k];
    }
  }

  /** A frame passed on, and how many frames were left in the high queue when it was. */
  datatype Passed = Passed(p: Priority, frame: Bytes, waiting: nat)

  /** Passing on the first n frames of one queue, with so many in the high one if it is the other. */
  function Passing(p: Priority, lane: seq<Bytes>, n: nat, others: nat): (ps: seq<Passed>)
    requires n <= |lane|
  {
    seq(n, i requires 0 <= i < n => Passed(p, lane[i], if p == High then |lane| - 1 - i else others))
  }

  /** Passing on n frames: those of the high queue, then those of the normal one. */
  function Served(w: Lanes<Bytes>, n: nat): (ps: seq<Passed>)
    requires n <= w.Size()
  {
    var k := Min(n, |w.high|);
    Passing(High, w.high, k, |w.high|) + Passing(Normal, w.normal, n - k, |w.high| - k)
  }

  /**
   * Frame by frame, a drain serves the high queue as long as there is anything in it: each frame is
   * the first of its queue at that moment, and a normal one goes only when the high queue is empty.
   */
  lemma ServesOneByOne(w: Lanes<Bytes>, n: nat, j: nat)
    requires n <= w.Size() && j < n
    ensures |Served(w, n)| == n
    ensures var now, ps := w.Left(j), Served(w, n)[j];
      && ps.p == (if now.high != [] then High else Normal)
      && now.At(ps.p) != [] && ps.frame == now.At(ps.p)[0]
      && ps.waiting == |w.Left(j + 1).high|
      && (ps.p == Normal ==> now.high == [])
  {
  }

  /** The frames of one priority among those passed on. */
  function OfPriority(ps: seq<Passed>, p: Priority): (bs: seq<Bytes>) {
    if ps == [] then [] else (if ps[0].p == p then [ps[0].frame] else []) + OfPriority(ps[1..], p)
  }

  function ByPriority(ps: seq<Passed>): (l: Lanes<Bytes>) { Lanes(OfPriority(ps, High), OfPriority(ps, Normal)) }

  // ----------------------------------------------------------- one protocol stream

  datatype SendResult = SendOk | SendPending | Disconnected

  /**
   * PriorityBuffer::try_send: entries go to the channel until it is full, or broken, in which case
   * what is left is thrown away. The entries that went, by priority; what is left; the result.
   */
  function TrySend<T>(b: Lanes<T>, room: nat, broken: bool): (r: (Lanes<T>, Lanes<T>, SendResult)) {
    if b.Size() <= room then (b, NoLanes(), SendOk)
    else if broken then (b.Taken(room), NoLanes(), Disconnected)
    else (b.Taken(room), b.Left(room), SendPending)
  }

  /**
   * How a drain ends: the sink has no more room, or all is flushed; or the sink fails with a frame at
   * hand, which is lost; or it is the flush that fails, and the frame at hand has been put back.
   */
  datatype Ending = Waits | Loses | FlushFails

  /**
   * Substream::send_data: frames go to the sink until it has no more room. How many went; what is
   * left; whether all is well.
   */
  function SendData(w: Lanes<Bytes>, room: nat, ending: Ending): (r: (nat, Lanes<Bytes>, bool))
    ensures r.0 <= w.Size()
  {
    if w.Size() <= room then (w.Size(), NoLanes(), ending != FlushFails)
    else (room, w.Left(if ending == Loses then room + 1 else room), ending == Waits)
  }

  datatype Event = Data(bytes: Bytes) | CloseStream

  /**
   * A protocol stream: the session's buffer for it, the channel between them, its write buffers,
   * and, as history, the frames it has passed to yamux.
   */
  datatype Sub = Sub(proto: nat, buffer: Lanes<Event>, channel: Lanes<Event>, write: Lanes<Bytes>, dead: bool,
                     sent: seq<Passed>)

  function NewSub(proto: nat): (s: Sub) { Sub(proto, NoLanes(), NoLanes(), NoLanes(), false, []) }

  function Both<T>(a: Lanes<T>, b: Lanes<T>): (r: Lanes<T>) { Lanes(a.high + b.high, a.normal + b.normal) }

  /** The session tries to move its buffer into the channel. */
  function Distribute(s: Sub, room: nat, broken: bool): (s': Sub)
    ensures s'.proto == s.proto
  {
    var (moved, rest, _) := TrySend(s.buffer, room, broken);
    s.(buffer := rest, channel := Both(s.channel, moved))
  }

  /** The session puts an event behind those that wait, and tries. */
  function Offer(s: Sub, p: Priority, e: Event, room: nat, broken: bool): (s': Sub)
    ensures s'.proto == s.proto
  {
    Distribute(s.(buffer := s.buffer.Push(p, e)), room, broken)
  }

  /** The stream writes what it can; the number of bytes it wrote. */
  function Flush(s: Sub, room: nat, ending: Ending): (r: (Sub, nat))
    ensures r.0.proto == s.proto
  {
    var (n, rest, ok) := SendData(s.write, room, ending);
    (s.(write := rest, sent := s.sent + Served(s.write, n), dead := s.dead || !ok), LaneBytes(s.write.Taken(n)))
  }

  /** The stream takes the next event from the channel. */
  function Take(s: Sub, room: nat, ending: Ending): (r: (Sub, nat))
    ensures r.0.proto == s.proto
  {
    if s.channel.Size() == 0 then (s, 0)
    else
      var p := if s.channel.high != [] then High else Normal;
      var s1 := s.(channel := s.channel.Left(1));
      match s.channel.At(p)[0]
      case Data(bytes) => Flush(s1.(write := s.write.Push(p, bytes)), room, ending)
      case CloseStream => (s1.(write := s.write.(normal := []), dead := true), 0)
  }

  /** The session clears its buffer for the stream. */
  function ClearBuffer(s: Sub): (s': Sub)
    ensures s'.proto == s.proto
  {
    s.(buffer := NoLanes())
  }

  /** The stream is gone, and with it all that was on the way to it. */
  function End(s: Sub): (s': Sub)
    ensures s'.proto == s.proto
  {
    s.(buffer := NoLanes(), channel := NoLanes(), write := NoLanes(), dead := true)
  }

  // ---------------------------------------------------------------- one session

  datatype Message = Message(proto: nat, bytes: Bytes)

  const USIZE: nat := 0x1_0000_0000_0000_0000

  type usize = x: int | 0 <= x < USIZE

  /**
   * A session: the counter, the channel from the service, the streams, and which stream serves
   * which protocol. posted is history: every message handed over by the service.
   */
  datatype Peer = Peer(pending: usize, inbox: Lanes<Message>, subs: seq<Sub>, protoStreams: map<nat, nat>,
                       posted: Lanes<Message>)

  function NewPeer(): (s: Peer) { Peer(0, NoLanes(), [], map[], NoLanes()) }

  /** fetch_add and fetch_sub on a 64-bit counter. */
  function Increased(n: usize, size: nat): (r: usize) { (n + size) % USIZE }

  function Decreased(n: usize, size: nat): (r: usize) { (n - size) % USIZE }

  datatype Step =
    | Post(p: Priority, m: Message, arrives: bool)
    | OpenProtocol(proto: nat)
    | Forward(room: nat, broken: bool)
    | CloseProtocol(proto: nat, room: nat, broken: bool)
    | Retry(i: nat, room: nat, broken: bool)
    | Clear(i: nat)
    | TakeEvent(i: nat, room: nat, ending: Ending)
    | FlushStream(i: nat, room: nat, ending: Ending)
    | EndStream(i: nat)

  function WithSub(s: Peer, i: nat, sub: Sub): (s': Peer)
    requires i < |s.subs|
  {
    s.(subs := s.subs[i := sub])
  }

  /** The service counts the message and sends it; if the session is gone it is not sent. */
  function Posted(s: Peer, p: Priority, m: Message, arrives: bool): (s': Peer) {
    s.(pending := Increased(s.pending, |m.bytes|), posted := s.posted.Push(p, m),
       inbox := if arrives then s.inbox.Push(p, m) else s.inbox)
  }

  /** The session takes the next message; one for a protocol that is not open is let go. */
  function Forwarded(s: Peer, room: nat, broken: bool): (s': Peer) {
    if s.inbox.Size() == 0 then s
    else
      var p := if s.inbox.high != [] then High else Normal;
      var m, s1 := s.inbox.At(p)[0], s.(inbox := s.inbox.Left(1));
      if m.proto in s.protoStreams && s.protoStreams[m.proto] < |s.subs| then
        var i := s.protoStreams[m.proto];
        WithSub(s1, i, Offer(s.subs[i], p, Data(m.bytes), room, broken))
      else s1
  }

  function Unmapped(streams: map<nat, nat>, i: nat): (fewer: map<nat, nat>)
    ensures forall q :: q in fewer ==> q in streams && fewer[q] == streams[q] != i
  {
    map q | q in streams && streams[q] != i :: streams[q]
  }

  function Next(s: Peer, step: Step): (s': Peer) {
    match step
    case Post(p, m, arrives) => Posted(s, p, m, arrives)
    case OpenProtocol(proto) =>
      if proto in s.protoStreams then s
      else s.(subs := s.subs + [NewSub(proto)], protoStreams := s.protoStreams[proto := |s.subs|])
    case Forward(room, broken) => Forwarded(s, room, broken)
    case CloseProtocol(proto, room, broken) =>
      if proto in s.protoStreams && s.protoStreams[proto] < |s.subs| then
        var i := s.protoStreams[proto];
        WithSub(s, i, Offer(s.subs[i], High, CloseStream, room, broken))
      else s
    case Retry(i, room, broken) => if i < |s.subs| then WithSub(s, i, Distribute(s.subs[i], room, broken)) else s
    case Clear(i) => if i < |s.subs| then WithSub(s, i, ClearBuffer(s.subs[i])) else s
    case TakeEvent(i, room, ending) =>
      if i < |s.subs| && !s.subs[i].dead then
        var (sub, size) := Take(s.subs[i], room, ending);
        WithSub(s, i, sub).(pending := Decreased(s.pending, size))
      else s
    case FlushStream(i, room, ending) =>
      if i < |s.subs| && !s.subs[i].dead then
        var (sub, size) := Flush(s.subs[i], room, ending);
        WithSub(s, i, sub).(pending := Decreased(s.pending, size))
      else s
    case EndStream(i) =>
      if i < |s.subs| then
        WithSub(s, i, End(s.subs[i])).(protoStreams := Unmapped(s.protoStreams, i))
      else s
  }

  function Run(s: Peer, steps: seq<Step>): (s': Peer)
    decreases |steps|
  {
    if steps == [] then s else Run(Next(s, steps[0]), steps[1..])
  }

  // ------------------------------------------------------------------ counting

  function TotalBytes(bs: seq<Bytes>): (n: nat) { |Flatten(bs)| }

  function LaneBytes(l: Lanes<Bytes>): (n: nat) { TotalBytes(l.high) + TotalBytes(l.normal) }

  /** The payloads of a queue of events. */
  function Payloads(es: seq<Event>): (bs: seq<Bytes>) {
    if es == [] then [] else (if es[0].Data? then [es[0].bytes] else []) + Payloads(es[1..])
  }

  function EventBytes(l: Lanes<Event>): (n: nat) { TotalBytes(Payloads(l.high)) + TotalBytes(Payloads(l.normal)) }

  function MessageBytes(ms: seq<Message>): (n: nat) {
    if ms == [] then 0 else |ms[0].bytes| + MessageBytes(ms[1..])
  }

  function Bodies(l: Lanes<Message>): (n: nat) { MessageBytes(l.high) + MessageBytes(l.normal) }

  /** Bytes still queued for a stream, and bytes it has passed on. */
  function SubQueued(s: Sub): (n: nat) { EventBytes(s.buffer) + EventBytes(s.channel) + LaneBytes(s.write) }

  function SubSent(s: Sub): (n: nat) { LaneBytes(ByPriority(s.sent)) }

  function AllQueued(subs: seq<Sub>): (n: nat) { if subs == [] then 0 else SubQueued(subs[0]) + AllQueued(subs[1..]) }

  function AllSent(subs: seq<Sub>): (n: nat) { if subs == [] then 0 else SubSent(subs[0]) + AllSent(subs[1..]) }

  /** Bytes of the messages of a session that have not left. */
  function Queued(s: Peer): (n: nat) { Bodies(s.inbox) + AllQueued(s.subs) }

  /** Bytes posted to the session that its streams have not passed on. */
  function Outstanding(s: Peer): (n: int) { Bodies(s.posted) - AllSent(s.subs) }
}
