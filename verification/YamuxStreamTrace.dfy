/**
 * How one operation of a stream handle looks from the session: which frames it takes from its
 * channel, which events it adds, and in what order frames can ever appear among them.
 */
module YamuxStreamTrace {
  import opened ByteStrings
  import opened YamuxFrame
  import opened YamuxStream
  import opened YamuxStreamLaws

  // ------------------------------------------------- accepting what is queued

  /** What is queued for the handle fits into its windows. */
  ghost predicate Fits(h: Handle) {
    && |PayloadOf(h.inbox)| <= h.recvWindow
    && h.sendWindow + CreditOf(h.inbox) <= MAX_U32
  }

  /** The first frame of a queue that fits is taken, and what is left still fits. */
  lemma HandleFrameAccepts(h: Handle, f: Frame, rest: seq<Frame>)
    requires OnStreamOf(f, h.id) && Receiving(h.state)
    requires |f.Payload()| + |PayloadOf(rest)| <= h.recvWindow
    requires h.sendWindow + f.Credit() + CreditOf(rest) <= MAX_U32
    ensures var (h', e) := HandleFrame(h, f);
      e.None? && |PayloadOf(rest)| <= h'.recvWindow && h'.sendWindow + CreditOf(rest) <= MAX_U32
  {
  }

  /** A handle refuses nothing that fits. */
  lemma {:induction false} RecvFramesAccepts(h: Handle, link: Link)
    requires Routed(h) && Fits(h)
    ensures !IsProtocolError(RecvFrames(h, link).1)
    decreases |h.inbox|
  {
    if Receiving(h.state) && h.inbox != [] {
      var h0 := h.(inbox := h.inbox[1..]);
      assert OnStreamOf(h.inbox[0], h.id);
      HandleFrameAccepts(h0, h.inbox[0], h.inbox[1..]);
      RecvFramesAccepts(HandleFrame(h0, h.inbox[0]).0, link);
    }
  }

  // ----------------------------------------------- the step the session sees

  /** All frames ever put into the channel of the handle, oldest first. */
  function Arrived(h: Handle): (fs: seq<Frame>) { h.handled + h.inbox }

  /** Events that leave an endpoint in order: no protocol error, and "closed" only from a closed handle. */
  ghost predicate Orderly(h: Handle) {
    && GoAwayEvent !in h.sent
    && (ClosedEvent(h.id) in h.sent ==> h.state == Closed || h.dropped)
  }

  /** One operation on a handle that refuses nothing: the channel only shifts, and events only grow. */
  ghost predicate Steps(h: Handle, h': Handle) {
    && h'.id == h.id && h'.maxRecvWindow == h.maxRecvWindow
    && Arrived(h') == Arrived(h)
    && h.sent <= h'.sent
    && (h.dropped ==> h'.dropped)
    && (h.state == Closed ==> h'.state == Closed)
  }

  /** A handle that steps, and the events it has given away since, in order. */
  ghost predicate GoodStep(h: Handle, h': Handle) {
    Steps(h, h') && (Orderly(h) ==> Orderly(h'))
  }

  lemma EmitGood(h: Handle, g: Handle, f: Frame, link: Link)
    requires GoodStep(h, g)
    ensures GoodStep(h, Emit(g, FrameEvent(f), link).0)
  {
  }

  lemma EmitClosedGood(h: Handle, g: Handle, link: Link)
    requires GoodStep(h, g) && (g.state == Closed || g.dropped)
    ensures GoodStep(h, Emit(g, ClosedEvent(h.id), link).0)
  {
  }

  lemma RecvFramesGood(h: Handle, link: Link)
    requires !IsProtocolError(RecvFrames(h, link).1)
    ensures GoodStep(h, RecvFrames(h, link).0)
  {
    RecvFramesMoves(h, link);
  }

  lemma PrepareReadGood(h: Handle, opener: bool, open: bool, link: Link)
    requires Laws(h, opener, open) && Fits(h)
    ensures GoodStep(h, PrepareRead(h, link).0)
    ensures SentFrames(PrepareRead(h, link).0) == SentFrames(h)
  {
    var h0 := h.(readWaker := true);
    RecvFramesAccepts(h0, link);
    RecvFramesGood(h0, link);
  }

  lemma WindowUpdateGood(h: Handle, g: Handle, link: Link)
    requires GoodStep(h, g) && Bounded(g) && g.state != Init && g.state != SynReceived
    ensures GoodStep(h, SendWindowUpdate(g, link).0)
  {
    WindowUpdateFacts(g, link);
    var delta := g.maxRecvWindow - |Unread(g)| - g.recvWindow;
    if delta >= g.maxRecvWindow / 2 {
      EmitGood(h, g.(recvWindow := g.recvWindow + delta), NewWindowUpdate(NoFlags, g.id, delta), link);
    }
  }

  lemma PollReadGood(h: Handle, cap: nat, opener: bool, open: bool, link: Link)
    requires Laws(h, opener, open) && Fits(h)
    ensures GoodStep(h, PollRead(h, cap, link).0)
  {
    PrepareReadGood(h, opener, open, link);
    PrepareReadLaws(h, opener, open, link);
    var (h1, early) := PrepareRead(h, link);
    if early.None? {
      ConsumeLaws(h1, cap, opener, open);
      var (out, rest) := ReadChunks(h1.readBuf, cap);
      WindowUpdateGood(h, h1.(readBuf := rest, consumed := h1.consumed + out), link);
    }
  }

  lemma PollWriteGood(h: Handle, buf: Bytes, opener: bool, open: bool, link: Link)
    requires Laws(h, opener, open) && Fits(h)
    ensures GoodStep(h, PollWrite(h, buf, link).0)
  {
    RecvFramesAccepts(h, link);
    RecvFramesGood(h, link);
    var h1 := RecvFramesWake(h, link).0;
    assert GoodStep(h, h1);
    hide GoodStep, Laws, Fits, RecvFrames;
    var n := Min(h1.sendWindow, |buf|);
    var (h2, flags) := TakeFlags(h1);
    EmitGood(h, h2, NewData(flags, h.id, buf[..n]), link);
  }

  lemma StateGood(h: Handle, s: StreamState)
    requires h.state == Closed ==> s == Closed
    ensures GoodStep(h, h.(state := s))
  {
  }

  lemma CloseGood(h: Handle, link: Link)
    ensures GoodStep(h, Close(h, link).0)
  {
    StateGood(h, Closed);
    if h.state != Closed {
      StateGood(h, LocalClosing);
    }
    if h.state == Init || h.state == SynReceived {
      StateGood(h, TakeFlags(h.(state := LocalClosing)).0.state);
    }
    hide GoodStep;
    if h.state == RemoteClosing {
      var h0 := h.(state := Closed);
      EmitGood(h, h0, NewWindowUpdate(NoFlags.(fin := true), h.id, 0), link);
      EmitClosedGood(h, SendClose(h0, link).0, link);
    } else if h.state == Reset || h.state == Closed || h.state == LocalClosing {
      EmitClosedGood(h, h.(state := Closed), link);
    } else {
      EmitGood(h, h.(state := LocalClosing), NewWindowUpdate(NoFlags.(fin := true), h.id, 0), link);
    }
  }

  lemma DropHandleGood(h: Handle, link: Link)
    ensures GoodStep(h, DropHandle(h, link)) && DropHandle(h, link).dropped
  {
    var (h1, flags) := TakeFlags(h.(dropped := true));
    if h.state == LocalClosing || h.state == Reset {
      EmitClosedGood(h, h1, link);
    } else if h.state != Closed {
      var rst := NewWindowUpdate(flags.(rst := true), h.id, 0);
      EmitGood(h, h1, rst, link);
      EmitClosedGood(h, Emit(h1, FrameEvent(rst), link).0, link);
    }
  }

  /** Every operation of the owner is such a step, whenever everything queued fits. */
  lemma ApplyGood(h: Handle, op: HandleOp, opener: bool, open: bool, link: Link)
    requires Laws(h, opener, open) && Fits(h)
    ensures GoodStep(h, Apply(h, op, link))
  {
    hide GoodStep, Laws, Fits, PollRead, PollWrite, PrepareRead, Close, DropHandle;
    match op
    case Read(cap) => PollReadGood(h, cap, opener, open, link);
    case Peek(cap) => PrepareReadGood(h, opener, open, link);
    case Write(buf) => PollWriteGood(h, buf, opener, open, link);
    case Shutdown => CloseGood(h, link);
    case Drop => DropHandleGood(h, link);
  }

  // ------------------------------------------------------ the order of FIN

  predicate IsFin(f: Frame) { f.FlagsOf().fin }

  ghost predicate NoFin(fs: seq<Frame>) { forall i :: 0 <= i < |fs| ==> !IsFin(fs[i]) }

  /** At most one FIN, and no data after it. */
  ghost predicate FinGrammar(fs: seq<Frame>) {
    forall i, j :: 0 <= i < j < |fs| && IsFin(fs[i]) ==> !IsFin(fs[j]) && fs[j].Ty() != Data
  }

  predicate LocallyClosed(s: StreamState) { s == LocalClosing || s == Closed || s == Reset }

  /** The grammar, and the reason it goes on holding: after FIN the handle stays locally closed. */
  ghost predicate Finished(h: Handle, open: bool) {
    && FinGrammar(SentFrames(h))
    && (open && !NoFin(SentFrames(h)) ==> LocallyClosed(h.state))
  }

  /** The session keeps the channel of every handle that has not closed. */
  predicate Holds(h: Handle, link: Link) {
    link.sessionOpen && !link.inboxOpen ==> h.state == Closed
  }

  lemma EmitFinished(h: Handle, f: Frame, link: Link)
    requires Finished(h, link.sessionOpen)
    requires IsFin(f) || f.Ty() == Data ==> NoFin(SentFrames(h))
    requires IsFin(f) ==> LocallyClosed(h.state)
    ensures Finished(Emit(h, FrameEvent(f), link).0, link.sessionOpen)
  {
    EmitFrameFacts(h, f, link);
    FinGrammarSnoc(SentFrames(h), f);
    hide FramesOf, PayloadOf, CreditOf, FinGrammar, NoFin;
  }

  lemma FinGrammarSnoc(fs: seq<Frame>, f: Frame)
    requires FinGrammar(fs) && (IsFin(f) || f.Ty() == Data ==> NoFin(fs))
    ensures FinGrammar(fs + [f]) && (NoFin(fs + [f]) <==> NoFin(fs) && !IsFin(f))
  {
    var gs := fs + [f];
    assert gs[|fs|] == f && forall i :: 0 <= i < |fs| ==> gs[i] == fs[i];
  }

  lemma EmitOtherFinished(h: Handle, e: StreamEvent, link: Link)
    requires Finished(h, link.sessionOpen) && !e.FrameEvent?
    ensures Finished(Emit(h, e, link).0, link.sessionOpen)
  {
    EmitOtherFacts(h, e, link);
  }

  /** While the session holds the channel, a locally closed handle stays so whatever arrives. */
  lemma {:induction false} RecvFramesLocallyClosed(h: Handle, link: Link)
    requires LocallyClosed(h.state) && (link.inboxOpen || h.state == Closed)
    ensures LocallyClosed(RecvFrames(h, link).0.state)
    decreases |h.inbox|
  {
    if Receiving(h.state) && h.inbox != [] {
      var (h1, e) := HandleFrame(h.(inbox := h.inbox[1..]), h.inbox[0]);
      if e.None? {
        RecvFramesLocallyClosed(h1, link);
      }
    }
  }

  lemma RecvFramesFinished(h: Handle, link: Link)
    requires Finished(h, link.sessionOpen) && Holds(h, link)
    ensures Finished(RecvFrames(h, link).0, link.sessionOpen)
  {
    if LocallyClosed(h.state) && (link.inboxOpen || h.state == Closed) {
      RecvFramesLocallyClosed(h, link);
    }
  }

  lemma PrepareReadFinished(h: Handle, link: Link)
    requires Finished(h, link.sessionOpen) && Holds(h, link)
    ensures Finished(PrepareRead(h, link).0, link.sessionOpen)
  {
    var h0 := h.(readWaker := true);
    RecvFramesFinished(h0, link);
    EmitOtherFinished(RecvFrames(h0, link).0.(state := LocalClosing), GoAwayEvent, link);
  }

  lemma WindowUpdateFinished(h: Handle, link: Link)
    requires Bounded(h) && h.state != Init && h.state != SynReceived && Finished(h, link.sessionOpen)
    ensures Finished(SendWindowUpdate(h, link).0, link.sessionOpen)
  {
    WindowUpdateFacts(h, link);
    var delta := h.maxRecvWindow - |Unread(h)| - h.recvWindow;
    EmitFinished(h.(recvWindow := h.recvWindow + delta), NewWindowUpdate(NoFlags, h.id, delta), link);
  }

  lemma PollReadFinished(h: Handle, cap: nat, opener: bool, open: bool, link: Link)
    requires Laws(h, opener, open) && Finished(h, link.sessionOpen) && Holds(h, link)
    ensures Finished(PollRead(h, cap, link).0, link.sessionOpen)
  {
    PrepareReadFinished(h, link);
    PrepareReadLaws(h, opener, open, link);
    var (h2, early) := PrepareRead(h, link);
    if early.None? {
      ConsumeLaws(h2, cap, opener, open);
      var (out, rest) := ReadChunks(h2.readBuf, cap);
      WindowUpdateFinished(h2.(readBuf := rest, consumed := h2.consumed + out), link);
    }
  }

  lemma AfterReceiptFinished(h: Handle, link: Link)
    requires Finished(h, link.sessionOpen) && Holds(h, link)
    ensures Finished(AfterReceipt(h, link), link.sessionOpen)
  {
    RecvFramesFinished(h, link);
    EmitOtherFinished(RecvFramesWake(h, link).0.(state := LocalClosing), GoAwayEvent, link);
  }

  lemma PollWriteFinished(h: Handle, buf: Bytes, link: Link)
    requires Finished(h, link.sessionOpen) && Holds(h, link)
    ensures Finished(PollWrite(h, buf, link).0, link.sessionOpen)
  {
    AfterReceiptFinished(h, link);
    var h1 := AfterReceipt(h, link);
    if !LocallyClosed(h1.state) && h1.sendWindow != 0 && link.sessionOpen {
      var (h2, flags) := TakeFlags(h1);
      EmitFinished(h2, NewData(flags, h1.id, buf[..Min(h1.sendWindow, |buf|)]), link);
    }
  }

  lemma CloseFinished(h: Handle, link: Link)
    requires Finished(h, link.sessionOpen)
    ensures Finished(Close(h, link).0, link.sessionOpen)
  {
    if link.sessionOpen {
      var fin := NewWindowUpdate(NoFlags.(fin := true), h.id, 0);
      if h.state == RemoteClosing {
        EmitFinished(h.(state := Closed), fin, link);
        EmitOtherFinished(SendClose(h.(state := Closed), link).0, ClosedEvent(h.id), link);
      } else if LocallyClosed(h.state) {
        EmitOtherFinished(h.(state := Closed), ClosedEvent(h.id), link);
      } else {
        EmitFinished(h.(state := LocalClosing), fin, link);
      }
    }
  }

  lemma DropHandleFinished(h: Handle, link: Link)
    requires Finished(h, link.sessionOpen)
    ensures Finished(DropHandle(h, link), link.sessionOpen)
  {
    if link.sessionOpen && h.state != Closed {
      var (h1, flags) := TakeFlags(h.(dropped := true));
      var rst := NewWindowUpdate(flags.(rst := true), h.id, 0);
      EmitFinished(h1, rst, link);
      EmitOtherFinished(h1, ClosedEvent(h.id), link);
      EmitOtherFinished(Emit(h1, FrameEvent(rst), link).0, ClosedEvent(h.id), link);
    }
  }

  /** Every operation keeps the order of FIN while the session holds the channel. */
  lemma ApplyFinished(h: Handle, op: HandleOp, opener: bool, was: bool, link: Link)
    requires Laws(h, opener, was) && Finished(h, was) && (link.sessionOpen ==> was) && Holds(h, link)
    ensures Finished(Apply(h, op, link), link.sessionOpen)
  {
    match op
    case Read(cap) => PollReadFinished(h, cap, opener, was, link);
    case Peek(cap) => PrepareReadFinished(h, link);
    case Write(buf) => PollWriteFinished(h, buf, link);
    case Shutdown => CloseFinished(h, link);
    case Drop => DropHandleFinished(h, link);
  }

  // ------------------------------------------------ a handle against any peer

  /** What happens to a handle: the session gives it a frame, or its owner uses it. */
  datatype HandleInput = Given(frame: Frame) | Own(op: HandleOp, link: Link)

  function RunHandle(h: Handle, inputs: seq<HandleInput>): (r: Handle)
    decreases |inputs|
  {
    if inputs == [] then h
    else
      match inputs[0]
      case Given(f) => RunHandle(Deliver(h, f), inputs[1..])
      case Own(op, link) => RunHandle(Apply(h, op, link), inputs[1..])
  }

  /** Frames come decoded and routed by stream id; a session that is gone does not come back. */
  predicate Possible(id: StreamId, open: bool, inputs: seq<HandleInput>)
    decreases |inputs|
  {
    inputs == [] ||
    match inputs[0]
    case Given(f) => f.WellFormed() && f.OnStream() && f.Id() == id && Possible(id, open, inputs[1..])
    case Own(_, link) => (link.sessionOpen ==> open) && Possible(id, link.sessionOpen, inputs[1..])
  }

  function OpenAfter(open: bool, inputs: seq<HandleInput>): (r: bool)
    decreases |inputs|
  {
    if inputs == [] then open
    else OpenAfter(if inputs[0].Own? then inputs[0].link.sessionOpen else open, inputs[1..])
  }

  lemma {:induction false} RunHandleLaws(h: Handle, inputs: seq<HandleInput>, opener: bool, open: bool)
    requires Laws(h, opener, open) && Possible(h.id, open, inputs)
    ensures Laws(RunHandle(h, inputs), opener, OpenAfter(open, inputs))
    decreases |inputs|
  {
    if inputs != [] {
      match inputs[0]
      case Given(f) =>
        DeliverLaws(h, f, opener, open);
        RunHandleLaws(Deliver(h, f), inputs[1..], opener, open);
      case Own(op, link) =>
        ApplyLaws(h, op, opener, open, link);
        RunHandleLaws(Apply(h, op, link), inputs[1..], opener, link.sessionOpen);
    }
  }

  /**
   * Whatever the peer sends and the owner does, a handle made by create_stream buffers no more than
   * its configured window, its window arithmetic stays within u32, its buffer is the queue of bytes
   * received and not read, no writer waits without being registered, and the first frame it emits
   * is the only one with SYN or ACK.
   */
  lemma AnyPeer(id: StreamId, opener: bool, maxRecvWindow: u32, inputs: seq<HandleInput>)
    requires INITIAL_STREAM_WINDOW <= maxRecvWindow && Possible(id, true, inputs)
    ensures var h := RunHandle(CreateHandle(id, opener, maxRecvWindow), inputs);
      && Bounded(h) && Queued(h) && WriterSafe(h) && Headroom(h) && Opened(h, opener)
      && Accounted(h, OpenAfter(true, inputs))
  {
    CreateHandleLaws(id, opener, maxRecvWindow);
    RunHandleLaws(CreateHandle(id, opener, maxRecvWindow), inputs, opener, true);
  }

  /** Throughout the run, the session holds the channel of the handle until the handle has closed. */
  predicate HeldThroughout(h: Handle, inputs: seq<HandleInput>)
    decreases |inputs|
  {
    inputs == [] ||
    match inputs[0]
    case Given(f) => HeldThroughout(Deliver(h, f), inputs[1..])
    case Own(op, link) => Holds(h, link) && HeldThroughout(Apply(h, op, link), inputs[1..])
  }

  lemma {:induction false} RunHandleFinished(h: Handle, inputs: seq<HandleInput>, opener: bool, open: bool)
    requires Laws(h, opener, open) && Possible(h.id, open, inputs) && HeldThroughout(h, inputs) && Finished(h, open)
    ensures Finished(RunHandle(h, inputs), OpenAfter(open, inputs))
    decreases |inputs|
  {
    if inputs != [] {
      match inputs[0]
      case Given(f) =>
        DeliverLaws(h, f, opener, open);
        assert Finished(Deliver(h, f), open);
        hide Laws, Finished, Deliver, Apply;
        RunHandleFinished(Deliver(h, f), inputs[1..], opener, open);
      case Own(op, link) =>
        hide Laws, Finished, Apply;
        ApplyLaws(h, op, opener, open, link);
        ApplyFinished(h, op, opener, open, link);
        RunHandleFinished(Apply(h, op, link), inputs[1..], opener, link.sessionOpen);
    }
  }

  /** Whatever the peer sends, a handle whose channel the session holds sends one FIN at most, and no data after it. */
  lemma AnyPeerGrammar(id: StreamId, opener: bool, maxRecvWindow: u32, inputs: seq<HandleInput>)
    requires INITIAL_STREAM_WINDOW <= maxRecvWindow && Possible(id, true, inputs)
    requires HeldThroughout(CreateHandle(id, opener, maxRecvWindow), inputs)
    ensures FinGrammar(SentFrames(RunHandle(CreateHandle(id, opener, maxRecvWindow), inputs)))
  {
    CreateHandleLaws(id, opener, maxRecvWindow);
    hide CreateHandle, Laws, RunHandle, HeldThroughout, Possible;
    RunHandleFinished(CreateHandle(id, opener, maxRecvWindow), inputs, opener, true);
  }

  /** The first input of a run. */
  lemma RunCons(h: Handle, input: HandleInput, rest: seq<HandleInput>)
    ensures RunHandle(h, [input] + rest)
         == RunHandle(if input.Given? then Deliver(h, input.frame) else Apply(h, input.op, input.link), rest)
  {
    assert ([input] + rest)[1..] == rest;
    hide Apply;
  }

  /** A new handle that is closed has sent its announcement and a FIN, and waits for the peer's. */
  lemma ClosedAtOnce(id: StreamId, opener: bool, maxRecvWindow: u32, link: Link)
    requires INITIAL_STREAM_WINDOW <= maxRecvWindow && link.sessionOpen
    ensures var h0 := CreateHandle(id, opener, maxRecvWindow);
      var h := Apply(h0, Shutdown, link);
      && h == h0.(state := LocalClosing, sent := h.sent)
      && h.id == id && h.readBuf == [] && h.inbox == [] && !h.dropped
      && h0.sent <= h.sent && |h.sent| == 2 && ClosedEvent(id) !in h.sent
      && |SentFrames(h)| == 2 && IsFin(SentFrames(h)[1])
  {
    var h0 := CreateHandle(id, opener, maxRecvWindow);
    CreateHandleLaws(id, opener, maxRecvWindow);
    hide CreateHandle;
    EmitFrameFacts(h0.(state := LocalClosing), NewWindowUpdate(NoFlags.(fin := true), id, 0), link);
    hide FramesOf, PayloadOf, CreditOf, Accounted;
  }

  /**
   * Holding the channel matters: if the session lets go of it first, a new handle that is closed, and
   * then reads, takes itself for closed by the peer, and closing it again sends a second FIN.
   */
  lemma SecondFin(id: StreamId, opener: bool, maxRecvWindow: u32)
    requires INITIAL_STREAM_WINDOW <= maxRecvWindow
    ensures var held, let := Link(true, true), Link(false, true);
      !FinGrammar(SentFrames(RunHandle(CreateHandle(id, opener, maxRecvWindow),
                                       [Own(Shutdown, held), Own(Read(1), let), Own(Shutdown, let)])))
  {
    var held, let := Link(true, true), Link(false, true);
    var h0 := CreateHandle(id, opener, maxRecvWindow);
    ClosedAtOnce(id, opener, maxRecvWindow, held);
    hide CreateHandle;
    RunCons(h0, Own(Shutdown, held), [Own(Read(1), let), Own(Shutdown, let)]);
    var h := Apply(h0, Shutdown, held);
    RunTwo(h, Read(1), Shutdown, let);
    assert [Own(Shutdown, held)] + [Own(Read(1), let), Own(Shutdown, let)]
        == [Own(Shutdown, held), Own(Read(1), let), Own(Shutdown, let)];
    var h1 := Apply(h, Read(1), let);
    ReadStops(h, let);
    hide Apply, RunHandle, FramesOf;
    SecondClose(h1, let);
    var fs := SentFrames(Apply(h1, Shutdown, let));
    assert IsFin(fs[|fs| - 2]) && IsFin(fs[|fs| - 1]);
  }

  lemma ReadStops(h: Handle, link: Link)
    requires h.state == LocalClosing && h.readBuf == [] && h.inbox == [] && !link.inboxOpen
    ensures Apply(h, Read(1), link).state == RemoteClosing && Apply(h, Read(1), link).sent == h.sent
  {
  }

  lemma SecondClose(h: Handle, link: Link)
    requires h.state == RemoteClosing && link.sessionOpen
    ensures SentFrames(Apply(h, Shutdown, link)) == SentFrames(h) + [NewWindowUpdate(NoFlags.(fin := true), h.id, 0)]
  {
    var fin, h1 := NewWindowUpdate(NoFlags.(fin := true), h.id, 0), h.(state := Closed);
    EmitFrameFacts(h1, fin, link);
    EmitOtherFacts(Emit(h1, FrameEvent(fin), link).0, ClosedEvent(h.id), link);
    hide FramesOf, PayloadOf, CreditOf;
  }

  lemma RunTwo(h: Handle, first: HandleOp, second: HandleOp, link: Link)
    ensures RunHandle(h, [Own(first, link), Own(second, link)]) == Apply(Apply(h, first, link), second, link)
  {
    hide Apply;
    var inputs, h1 := [Own(first, link), Own(second, link)], Apply(h, first, link);
    assert inputs[1..] == [Own(second, link)] && inputs[1..][1..] == [];
    assert RunHandle(h, inputs) == RunHandle(h1, inputs[1..]);
    assert RunHandle(h1, inputs[1..]) == RunHandle(Apply(h1, second, link), inputs[1..][1..]);
  }
}
