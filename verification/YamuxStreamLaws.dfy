/**
 * What every stream handle made by create_stream keeps, whatever the peer sends and whatever its
 * owner does with it: window bounds and window accounting, the read buffer as a byte queue, writer
 * wake-ups, and the grammar of the frames it emits.
 */
module YamuxStreamLaws {
  import opened ByteStrings
  import opened YamuxFrame
  import opened YamuxStream

  function FramesOf(es: seq<StreamEvent>): (fs: seq<Frame>) {
    if es == [] then []
    else (if es[0].FrameEvent? then [es[0].frame] else []) + FramesOf(es[1..])
  }

  lemma {:induction false} FramesOfAppend(a: seq<StreamEvent>, b: seq<StreamEvent>)
    ensures FramesOf(a + b) == FramesOf(a) + FramesOf(b)
  {
    if a == [] {
      assert a + b == b;
    } else {
      var head, tail := if a[0].FrameEvent? then [a[0].frame] else [], FramesOf(a[1..]);
      assert FramesOf(a + b) == head + (tail + FramesOf(b)) by {
        FramesOfAppend(a[1..], b);
        assert (a + b)[0] == a[0] && (a + b)[1..] == a[1..] + b;
      }
      assert FramesOf(a) == head + tail;
    }
  }

  lemma FramesOfSnoc(a: seq<StreamEvent>, e: StreamEvent)
    ensures FramesOf(a + [e]) == if e.FrameEvent? then FramesOf(a) + [e.frame] else FramesOf(a)
  {
    FramesOfAppend(a, [e]);
    assert FramesOf([e]) == (if e.FrameEvent? then [e.frame] else []) + FramesOf([]);
  }

  /** The frames the handle has emitted, oldest first. */
  function SentFrames(h: Handle): (fs: seq<Frame>) { FramesOf(h.sent) }

  /** Bytes received but not yet read. */
  function Unread(h: Handle): (b: Bytes) { Flatten(h.readBuf) }

  // ------------------------------------------------------------ the laws

  /** The receive window never exceeds the configured one, counting what is still unread. */
  ghost predicate Bounded(h: Handle) {
    && INITIAL_STREAM_WINDOW <= h.maxRecvWindow
    && |Unread(h)| + h.recvWindow <= h.maxRecvWindow
  }

  /**
   * Each window is the initial one, plus credit, minus data. While the session exists both are
   * exact; a window update that the session never took can only leave recvWindow larger.
   */
  ghost predicate Accounted(h: Handle, open: bool) {
    && h.sendWindow + |PayloadOf(SentFrames(h))| == INITIAL_STREAM_WINDOW + CreditOf(h.handled)
    && h.recvWindow + |PayloadOf(h.handled)| >= INITIAL_STREAM_WINDOW + CreditOf(SentFrames(h))
    && (open ==> h.recvWindow + |PayloadOf(h.handled)| == INITIAL_STREAM_WINDOW + CreditOf(SentFrames(h)))
  }

  /** The read buffer holds exactly the bytes received and not yet read, in non-empty chunks. */
  ghost predicate Queued(h: Handle) {
    && h.consumed + Unread(h) == PayloadOf(h.handled)
    && forall i :: 0 <= i < |h.readBuf| ==> h.readBuf[i] != []
  }

  /** Writers were told of exactly the bytes that were emitted. */
  ghost predicate Reported(h: Handle) {
    h.accepted == PayloadOf(SentFrames(h))
  }

  /** A writer that waits for window, and has not been woken, is registered and really has none. */
  ghost predicate WriterSafe(h: Handle) {
    && (h.writeWaker ==> h.sendWindow == 0)
    && (h.parked ==> h.writeWaker)
  }

  /** More than half of the window is always either granted to the peer or waiting to be read. */
  ghost predicate Headroom(h: Handle) {
    Receiving(h.state) ==> |Unread(h)| + h.recvWindow > h.maxRecvWindow / 2
  }

  ghost predicate Plain(f: Frame) { !f.FlagsOf().syn && !f.FlagsOf().ack }

  ghost predicate Opens(f: Frame, opener: bool) {
    f.FlagsOf().syn == opener && f.FlagsOf().ack == !opener
  }

  /** The first frame carries SYN (opener) or ACK (acceptor), and no later one carries either. */
  ghost predicate Opened(h: Handle, opener: bool) {
    var fs := SentFrames(h);
    && h.state != Init && h.state != SynReceived
    && fs != [] && Opens(fs[0], opener)
    && forall i :: 0 < i < |fs| ==> Plain(fs[i])
  }

  ghost predicate OnStreamOf(f: Frame, id: StreamId) {
    f.WellFormed() && f.OnStream() && f.Id() == id
  }

  /** Everything the handle emits or is given is a well-formed frame of its own stream. */
  ghost predicate Routed(h: Handle) {
    && (forall f :: f in h.inbox ==> OnStreamOf(f, h.id))
    && (forall f :: f in SentFrames(h) ==> OnStreamOf(f, h.id))
    && (forall e :: e in h.sent && e.ClosedEvent? ==> e.id == h.id)
  }

  /** The laws without Headroom, which only a finished operation restores. */
  ghost predicate Received(h: Handle, opener: bool, open: bool) {
    Bounded(h) && Accounted(h, open) && Queued(h) && Reported(h) && WriterSafe(h) && Opened(h, opener) && Routed(h)
  }

  ghost predicate Laws(h: Handle, opener: bool, open: bool) {
    Received(h, opener, open) && Headroom(h)
  }

  // -------------------------------------------------------- creation, delivery

  lemma CreateHandleLaws(id: StreamId, opener: bool, maxRecvWindow: u32)
    requires INITIAL_STREAM_WINDOW <= maxRecvWindow
    ensures var h := CreateHandle(id, opener, maxRecvWindow);
      && Laws(h, opener, true)
      && h.id == id && h.maxRecvWindow == maxRecvWindow
      && h.recvWindow == maxRecvWindow && h.sendWindow == INITIAL_STREAM_WINDOW
      && h.state == (if opener then SynSent else Established)
      && h.inbox == [] && h.handled == [] && h.consumed == [] && !h.dropped
      && |h.sent| == 1 && h.sent[0].FrameEvent? && !h.sent[0].frame.FlagsOf().fin
      && h.sent[0].frame.Ty() == WindowUpdate
      && SentFrames(h) == [h.sent[0].frame]
  {
    var h := CreateHandle(id, opener, maxRecvWindow);
    assert h.sent == [] + [h.sent[0]];
    FramesOfSnoc([], h.sent[0]);
    TotalsSnoc([], h.sent[0].frame);
    assert SentFrames(h) == [h.sent[0].frame];
  }

  lemma DeliverLaws(h: Handle, f: Frame, opener: bool, open: bool)
    requires Laws(h, opener, open) && OnStreamOf(f, h.id)
    ensures Laws(Deliver(h, f), opener, open)
  {
  }

  // ----------------------------------------------------------------- emitting

  /** An emitted frame that is plain and matches the credit bookkeeping keeps the laws. */
  lemma EmitFrameFacts(h: Handle, f: Frame, link: Link)
    ensures var h' := Emit(h, FrameEvent(f), link).0;
      && SentFrames(h') == (if link.sessionOpen then SentFrames(h) + [f] else SentFrames(h))
      && (link.sessionOpen ==>
            && PayloadOf(SentFrames(h')) == PayloadOf(SentFrames(h)) + f.Payload()
            && CreditOf(SentFrames(h')) == CreditOf(SentFrames(h)) + f.Credit())
  {
    FramesOfSnoc(h.sent, FrameEvent(f));
    TotalsSnoc(SentFrames(h), f);
  }

  lemma EmitOtherFacts(h: Handle, e: StreamEvent, link: Link)
    requires !e.FrameEvent?
    ensures SentFrames(Emit(h, e, link).0) == SentFrames(h)
  {
    FramesOfSnoc(h.sent, e);
  }

  /** A plain frame of the stream keeps what is said of the frames emitted. */
  lemma EmitTraceLaws(h: Handle, f: Frame, opener: bool, link: Link)
    requires Opened(h, opener) && Routed(h) && Plain(f) && OnStreamOf(f, h.id)
    ensures var h' := Emit(h, FrameEvent(f), link).0; Opened(h', opener) && Routed(h')
  {
    EmitFrameFacts(h, f, link);
    hide FramesOf, PayloadOf, CreditOf;
  }

  /** A frame without payload reports nothing to a writer. */
  lemma EmitReported(h: Handle, f: Frame, link: Link)
    requires Reported(h) && f.Payload() == []
    ensures Reported(Emit(h, FrameEvent(f), link).0)
  {
    EmitFrameFacts(h, f, link);
    hide FramesOf, PayloadOf, CreditOf;
  }

  /** Before a window update the unread bytes and the window fit, so the u32 arithmetic is exact. */
  lemma WindowUpdateFacts(h: Handle, link: Link)
    requires Bounded(h) && h.state != Init && h.state != SynReceived
    ensures var h' := SendWindowUpdate(h, link).0; var delta := h.maxRecvWindow - |Unread(h)| - h.recvWindow;
      if delta < h.maxRecvWindow / 2 then
        SendWindowUpdate(h, link) == (h, true)
      else
        && h'.recvWindow == h.recvWindow + delta
        && SendWindowUpdate(h, link)
           == Emit(h.(recvWindow := h.recvWindow + delta), FrameEvent(NewWindowUpdate(NoFlags, h.id, delta)), link)
  {
  }

  lemma GrantAccounted(h: Handle, delta: u32, was: bool, link: Link)
    requires Accounted(h, was) && (link.sessionOpen ==> was) && h.recvWindow + delta <= MAX_U32
    ensures var update := FrameEvent(NewWindowUpdate(NoFlags, h.id, delta));
      Accounted(Emit(h.(recvWindow := h.recvWindow + delta), update, link).0, link.sessionOpen)
  {
    EmitFrameFacts(h.(recvWindow := h.recvWindow + delta), NewWindowUpdate(NoFlags, h.id, delta), link);
    hide FramesOf, PayloadOf, CreditOf;
  }

  /** Granting the peer everything that is free is exactly what the emitted update says. */
  lemma GrantLaws(h: Handle, opener: bool, was: bool, link: Link)
    requires Received(h, opener, was) && (link.sessionOpen ==> was)
    requires h.recvWindow + |Unread(h)| <= h.maxRecvWindow
    ensures var delta := h.maxRecvWindow - |Unread(h)| - h.recvWindow;
      Laws(Emit(h.(recvWindow := h.recvWindow + delta), FrameEvent(NewWindowUpdate(NoFlags, h.id, delta)), link).0,
           opener, link.sessionOpen)
  {
    var delta := h.maxRecvWindow - |Unread(h)| - h.recvWindow;
    var g, f := h.(recvWindow := h.recvWindow + delta), NewWindowUpdate(NoFlags, h.id, delta);
    EmitTraceLaws(g, f, opener, link);
    EmitReported(g, f, link);
    GrantAccounted(h, delta, was, link);
    hide FramesOf, PayloadOf, CreditOf, Flatten, Opened, Routed, Accounted, Reported;
  }

  lemma WindowUpdateLaws(h: Handle, opener: bool, was: bool, link: Link)
    requires Received(h, opener, was) && (link.sessionOpen ==> was)
    ensures Laws(SendWindowUpdate(h, link).0, opener, link.sessionOpen)
  {
    WindowUpdateFacts(h, link);
    if h.maxRecvWindow - |Unread(h)| - h.recvWindow >= h.maxRecvWindow / 2 {
      GrantLaws(h, opener, was, link);
    }
  }

  // ---------------------------------------------------------------- receiving

  lemma HandleDataLaws(h: Handle, f: Frame, opener: bool, open: bool)
    requires Received(h, opener, open) && OnStreamOf(f, h.id) && Receiving(h.state) && f.Ty() == Data
    ensures var (h', e) := HandleFrame(h, f);
      && Received(h', opener, open)
      && |Unread(h')| + h'.recvWindow == |Unread(h)| + h.recvWindow
      && e == if f.Length() > h.recvWindow then Some(RecvWindowExceeded) else None
  {
    var (h', e) := HandleFrame(h, f);
    TotalsSnoc(h.handled, f);
    FlattenSnoc(h.readBuf, f.Payload());
    Assoc(h.consumed, Unread(h), f.Payload());
    hide Flatten, PayloadOf, CreditOf, FramesOf;
    if e.None? {
      assert Unread(h') == Unread(h) + f.Payload();
      assert Queued(h');
      hide Queued;
    }
  }

  lemma HandleWindowUpdateLaws(h: Handle, f: Frame, opener: bool, open: bool)
    requires Received(h, opener, open) && OnStreamOf(f, h.id) && Receiving(h.state) && f.Ty() == WindowUpdate
    ensures var (h', e) := HandleFrame(h, f);
      && Received(h', opener, open)
      && |Unread(h')| + h'.recvWindow == |Unread(h)| + h.recvWindow
      && e == if h.sendWindow + f.Length() > MAX_U32 then Some(InvalidMsgType) else None
  {
    TotalsSnoc(h.handled, f);
  }

  /**
   * Taking one frame while receiving: flags never surprise the handle, data moves from the window
   * to the read buffer, and credit is added to the send window. A refused frame changes no window.
   */
  lemma HandleFrameLaws(h: Handle, f: Frame, opener: bool, open: bool)
    requires Received(h, opener, open) && OnStreamOf(f, h.id) && Receiving(h.state)
    ensures var (h', e) := HandleFrame(h, f);
      && Received(h', opener, open)
      && |Unread(h')| + h'.recvWindow == |Unread(h)| + h.recvWindow
      && e != Some(UnexpectedFlag)
      && (e == Some(RecvWindowExceeded) <==> f.Ty() == Data && f.Length() > h.recvWindow)
      && (e == Some(InvalidMsgType) <==> f.Ty() == WindowUpdate && h.sendWindow + f.Length() > MAX_U32)
  {
    if f.Ty() == Data {
      HandleDataLaws(h, f, opener, open);
    } else {
      HandleWindowUpdateLaws(h, f, opener, open);
    }
  }

  lemma TakeLaws(h: Handle, opener: bool, open: bool)
    requires Received(h, opener, open) && h.inbox != []
    ensures Received(h.(inbox := h.inbox[1..]), opener, open) && OnStreamOf(h.inbox[0], h.id)
  {
  }

  lemma StoppedLaws(h: Handle, opener: bool, open: bool)
    requires Received(h, opener, open)
    ensures Received(h.(state := RemoteClosing), opener, open)
  {
  }

  /** The loop keeps what one frame keeps, and the flags of a frame never make it fail. */
  lemma {:induction false} RecvFramesLaws(h: Handle, opener: bool, open: bool, link: Link)
    requires Received(h, opener, open)
    ensures var (h', o) := RecvFrames(h, link);
      && Received(h', opener, open)
      && |Unread(h')| + h'.recvWindow == |Unread(h)| + h.recvWindow
      && o != Failed(UnexpectedFlag)
    decreases |h.inbox|
  {
    StoppedLaws(h, opener, open);
    hide Received, HandleFrame;
    if Receiving(h.state) && h.inbox != [] {
      var h0 := h.(inbox := h.inbox[1..]);
      TakeLaws(h, opener, open);
      HandleFrameLaws(h0, h.inbox[0], opener, open);
      var (h1, e) := HandleFrame(h0, h.inbox[0]);
      if e.None? {
        RecvFramesLaws(h1, opener, open, link);
      }
    }
  }

  lemma MoveHead<T>(a: seq<T>, b: seq<T>)
    requires b != []
    ensures (a + [b[0]]) + b[1..] == a + b
  {
  }

  /** Unless a frame is refused, frames only move from the channel to the handled list. */
  lemma {:induction false} RecvFramesMoves(h: Handle, link: Link)
    requires !IsProtocolError(RecvFrames(h, link).1)
    ensures RecvFrames(h, link).0.handled + RecvFrames(h, link).0.inbox == h.handled + h.inbox
    decreases |h.inbox|
  {
    if Receiving(h.state) && h.inbox != [] {
      var (h1, e) := HandleFrame(h.(inbox := h.inbox[1..]), h.inbox[0]);
      if e.None? {
        RecvFramesMoves(h1, link);
        MoveHead(h.handled, h.inbox);
      }
    }
  }

  // ------------------------------------------------------------------ reading

  /**
   * The chunk list is a byte queue: a read copies the longest prefix that fits and leaves the rest,
   * still in non-empty chunks.
   */
  lemma {:induction false} ReadChunksIsDequeue(chunks: seq<Bytes>, cap: nat)
    requires forall i :: 0 <= i < |chunks| ==> chunks[i] != []
    ensures var (out, rest) := ReadChunks(chunks, cap);
      && |out| == Min(cap, |Flatten(chunks)|)
      && out + Flatten(rest) == Flatten(chunks)
      && forall i :: 0 <= i < |rest| ==> rest[i] != []
  {
    if chunks == [] || cap == 0 {
    } else if |chunks[0]| <= cap {
      ReadChunksIsDequeue(chunks[1..], cap - |chunks[0]|);
      var (out, rest) := ReadChunks(chunks[1..], cap - |chunks[0]|);
      assert (chunks[0] + out) + Flatten(rest) == chunks[0] + (out + Flatten(rest));
    } else {
      var left := chunks[0][cap..];
      assert Flatten([left] + chunks[1..]) == left + Flatten(chunks[1..]);
      assert chunks[0] == chunks[0][..cap] + left;
    }
  }

  lemma SendGoAwayEventLaws(h: Handle, opener: bool, open: bool, link: Link)
    requires Received(h, opener, open) && |Unread(h)| + h.recvWindow > h.maxRecvWindow / 2
    ensures Laws(SendGoAwayEvent(h, link), opener, open)
  {
    var g := h.(state := LocalClosing);
    EmitOtherFacts(g, GoAwayEvent, link);
    assert Opened(SendGoAwayEvent(h, link), opener) && Routed(SendGoAwayEvent(h, link));
    hide FramesOf, PayloadOf, CreditOf, Flatten, Opened, Routed;
  }

  /** Registering the reader changes nothing the laws speak of. */
  lemma RegisterReaderLaws(h: Handle, opener: bool, open: bool)
    requires Laws(h, opener, open)
    ensures Laws(h.(readWaker := true), opener, open)
  {
  }

  lemma PrepareReadLaws(h: Handle, opener: bool, open: bool, link: Link)
    requires Laws(h, opener, open)
    ensures Laws(PrepareRead(h, link).0, opener, open)
  {
    if CheckSelfState(h).Usable? {
      var h0 := h.(readWaker := true);
      RegisterReaderLaws(h, opener, open);
      RecvFramesLaws(h0, opener, open, link);
      var (h1, o) := RecvFrames(h0, link);
      if IsProtocolError(o) {
        SendGoAwayEventLaws(h1, opener, open, link);
      }
    }
  }

  lemma ConsumeLaws(h: Handle, cap: nat, opener: bool, open: bool)
    requires Received(h, opener, open)
    ensures var (out, rest) := ReadChunks(h.readBuf, cap);
      Received(h.(readBuf := rest, consumed := h.consumed + out), opener, open)
  {
    ReadChunksIsDequeue(h.readBuf, cap);
    var (out, rest) := ReadChunks(h.readBuf, cap);
    assert (h.consumed + out) + Flatten(rest) == h.consumed + (out + Flatten(rest));
  }

  lemma PollReadLaws(h: Handle, cap: nat, opener: bool, was: bool, link: Link)
    requires Laws(h, opener, was) && (link.sessionOpen ==> was)
    ensures Laws(PollRead(h, cap, link).0, opener, link.sessionOpen)
  {
    PrepareReadLaws(h, opener, was, link);
    var (h1, early) := PrepareRead(h, link);
    if early.None? {
      ConsumeLaws(h1, cap, opener, was);
      var (out, rest) := ReadChunks(h1.readBuf, cap);
      var h2 := h1.(readBuf := rest, consumed := h1.consumed + out);
      if Receiving(h2.state) {
        WindowUpdateLaws(h2, opener, was, link);
      }
    }
  }

  // ------------------------------------------------------------------ writing

  lemma SendDataLaws(h: Handle, data: Bytes, opener: bool, open: bool, link: Link)
    requires Laws(h, opener, open) && h.sendWindow > 0 && |data| <= h.sendWindow
    ensures var (h', ok) := SendData(h, data, link);
      Laws(if ok then h'.(sendWindow := h'.sendWindow - |data|, accepted := h'.accepted + data) else h', opener, open)
  {
    EmitFrameFacts(h, NewData(NoFlags, h.id, data), link);
  }

  /** The handle as poll_write sees it after taking what the session has for it. */
  function AfterReceipt(h: Handle, link: Link): (r: Handle) {
    var (h0, o) := RecvFramesWake(h, link);
    if IsProtocolError(o) then SendGoAwayEvent(h0, link) else h0
  }

  lemma AfterReceiptLaws(h: Handle, opener: bool, open: bool, link: Link)
    requires Laws(h, opener, open)
    ensures Laws(AfterReceipt(h, link), opener, open)
  {
    RecvFramesLaws(h, opener, open, link);
    var (h', o) := RecvFramesWake(h, link);
    assert Received(h', opener, open);
    if IsProtocolError(o) {
      SendGoAwayEventLaws(h', opener, open, link);
    }
  }

  lemma ParkLaws(h: Handle, opener: bool, open: bool)
    requires Laws(h, opener, open) && h.sendWindow == 0
    ensures Laws(h.(writeWaker := true, parked := true), opener, open)
  {
  }

  lemma PollWriteLaws(h: Handle, buf: Bytes, opener: bool, open: bool, link: Link)
    requires Laws(h, opener, open)
    ensures Laws(PollWrite(h, buf, link).0, opener, open)
  {
    hide Laws, RecvFramesWake, SendGoAwayEvent, SendData;
    AfterReceiptLaws(h, opener, open, link);
    var h1 := AfterReceipt(h, link);
    if h1.state != Reset && h1.state != LocalClosing && h1.state != Closed {
      if h1.sendWindow == 0 {
        ParkLaws(h1, opener, open);
      } else {
        SendDataLaws(h1, buf[..Min(h1.sendWindow, |buf|)], opener, open, link);
      }
    }
  }

  // ------------------------------------------------------------------ closing

  /** Emitting a frame without credit or payload changes no account. */
  lemma EmitControlLaws(h: Handle, f: Frame, opener: bool, open: bool, link: Link)
    requires Laws(h, opener, open) && Plain(f) && OnStreamOf(f, h.id) && f.Payload() == [] && f.Credit() == 0
    ensures Laws(Emit(h, FrameEvent(f), link).0, opener, open)
  {
    EmitFrameFacts(h, f, link);
  }

  lemma EmitClosedLaws(h: Handle, opener: bool, open: bool, link: Link)
    requires Laws(h, opener, open)
    ensures Laws(Emit(h, ClosedEvent(h.id), link).0, opener, open)
  {
    EmitOtherFacts(h, ClosedEvent(h.id), link);
  }

  /** Moving to a closing state keeps the laws, as long as a stream that stopped receiving stays stopped. */
  lemma ClosingLaws(h: Handle, s: StreamState, opener: bool, open: bool)
    requires Laws(h, opener, open) && (s == Closed || (s == LocalClosing && Receiving(h.state)))
    ensures Laws(h.(state := s), opener, open)
  {
  }

  lemma SendCloseLaws(h: Handle, s: StreamState, opener: bool, open: bool, link: Link)
    requires Laws(h, opener, open) && (s == Closed || (s == LocalClosing && Receiving(h.state)))
    ensures Laws(SendClose(h.(state := s), link).0, opener, open)
  {
    ClosingLaws(h, s, opener, open);
    EmitControlLaws(h.(state := s), NewWindowUpdate(NoFlags.(fin := true), h.id, 0), opener, open, link);
  }

  lemma FinishLaws(h: Handle, opener: bool, open: bool, link: Link)
    requires Laws(h, opener, open)
    ensures Laws(Emit(h.(state := Closed), ClosedEvent(h.id), link).0, opener, open)
  {
    ClosingLaws(h, Closed, opener, open);
    EmitClosedLaws(h.(state := Closed), opener, open, link);
  }

  lemma CloseLaws(h: Handle, opener: bool, open: bool, link: Link)
    requires Laws(h, opener, open)
    ensures Laws(Close(h, link).0, opener, open)
  {
    if h.state == RemoteClosing {
      SendCloseLaws(h, Closed, opener, open, link);
      EmitClosedLaws(SendClose(h.(state := Closed), link).0, opener, open, link);
    } else if h.state == Reset || h.state == Closed || h.state == LocalClosing {
      FinishLaws(h, opener, open, link);
    } else {
      SendCloseLaws(h, LocalClosing, opener, open, link);
    }
  }

  lemma DroppedLaws(h: Handle, opener: bool, open: bool)
    requires Laws(h, opener, open)
    ensures Laws(h.(dropped := true), opener, open)
  {
  }

  /** Once the session is gone, less is asked. */
  lemma WeakenLaws(h: Handle, opener: bool, was: bool, open: bool)
    requires Laws(h, opener, was) && (open ==> was)
    ensures Laws(h, opener, open)
  {
  }

  lemma DropHandleLaws(h: Handle, opener: bool, open: bool, link: Link)
    requires Laws(h, opener, open)
    ensures Laws(DropHandle(h, link), opener, open)
  {
    var h0 := h.(dropped := true);
    assert h.state != Init && h.state != SynReceived;
    DroppedLaws(h, opener, open);
    hide Laws;
    if h.state == LocalClosing || h.state == Reset {
      EmitClosedLaws(h0, opener, open, link);
    } else {
      var rst := NewWindowUpdate(RstFlag, h.id, 0);
      EmitControlLaws(h0, rst, opener, open, link);
      EmitClosedLaws(Emit(h0, FrameEvent(rst), link).0, opener, open, link);
    }
  }

  /** Every operation of the owner keeps every law; a session that is gone stays gone. */
  lemma ApplyLaws(h: Handle, op: HandleOp, opener: bool, was: bool, link: Link)
    requires Laws(h, opener, was) && (link.sessionOpen ==> was)
    ensures Laws(Apply(h, op, link), opener, link.sessionOpen)
  {
    hide Laws, PollRead, PollWrite, PrepareRead, Close, DropHandle;
    match op {
      case Read(cap) => PollReadLaws(h, cap, opener, was, link);
      case Peek(cap) => PrepareReadLaws(h, opener, was, link);
      case Write(buf) => PollWriteLaws(h, buf, opener, was, link);
      case Shutdown => CloseLaws(h, opener, was, link);
      case Drop => DropHandleLaws(h, opener, was, link);
    }
    if !op.Read? {
      WeakenLaws(Apply(h, op, link), opener, was, link.sessionOpen);
    }
  }
}
