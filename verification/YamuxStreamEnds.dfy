/** How a stream ends: who is told what when a handle is closed or dropped, and when a reader is woken. */
module YamuxStreamEnds {
  import opened ByteStrings
  import opened YamuxFrame
  import opened YamuxStream
  import opened YamuxStreamBytes
  import opened YamuxStreamLaws
  import opened YamuxStreamTrace

  /** The events an operation has added. */
  function Added(h: Handle, h': Handle): (es: seq<StreamEvent>)
    requires h.sent <= h'.sent
  {
    h'.sent[|h.sent|..]
  }

  /** What closing emits, state by state. */
  function OnClose(h: Handle): (es: seq<StreamEvent>) {
    var fin, closed := FrameEvent(NewWindowUpdate(NoFlags.(fin := true), h.id, 0)), ClosedEvent(h.id);
    if h.state == RemoteClosing then [fin, closed] else if LocallyClosed(h.state) then [closed] else [fin]
  }

  lemma CloseEmits(h: Handle, link: Link)
    requires link.sessionOpen
    ensures var next := if LocallyClosed(h.state) || h.state == RemoteClosing then Closed else LocalClosing;
      Close(h, link) == (h.(state := next, sent := h.sent + OnClose(h)), true)
  {
    var fin, closed := FrameEvent(NewWindowUpdate(NoFlags.(fin := true), h.id, 0)), ClosedEvent(h.id);
    assert (h.sent + [fin]) + [closed] == h.sent + [fin, closed];
  }

  lemma Suffix<T>(a: seq<T>, b: seq<T>)
    ensures (a + b)[|a|..] == b
  {
  }

  /** The frames among one or two events. */
  lemma FramesAmong(f: Frame, id: StreamId)
    ensures FramesOf([FrameEvent(f)]) == [f] && FramesOf([ClosedEvent(id)]) == []
    ensures FramesOf([FrameEvent(f), ClosedEvent(id)]) == [f]
  {
    assert FramesOf([FrameEvent(f)]) == [f] + FramesOf([]);
    assert FramesOf([ClosedEvent(id)]) == [] + FramesOf([]);
    FramesOfAppend([FrameEvent(f)], [ClosedEvent(id)]);
    assert [FrameEvent(f)] + [ClosedEvent(id)] == [FrameEvent(f), ClosedEvent(id)];
  }

  lemma CloseGone(h: Handle, link: Link)
    requires !link.sessionOpen
    ensures var next := if LocallyClosed(h.state) || h.state == RemoteClosing then Closed else LocalClosing;
      Close(h, link) == (h.(state := next), false)
  {
  }

  /**
   * Closing tells the peer exactly if it has not been told, and the session exactly if both sides are
   * done. Without a session the handle is closed all the same, nothing is sent, and it is an error.
   */
  lemma CloseTells(h: Handle, link: Link)
    ensures var (h', ok) := Close(h, link);
      var fs := FramesOf(Added(h, h'));
      && ok == link.sessionOpen
      && LocallyClosed(h'.state)
      && (h'.state == Closed <==> !Receiving(h.state) || h.state == LocalClosing)
      && (!ok ==> Added(h, h') == [])
      && (ok ==>
            && (if LocallyClosed(h.state) then fs == [] else |fs| == 1 && IsFin(fs[0]) && fs[0].Payload() == [])
            && (ClosedEvent(h.id) in Added(h, h') <==> h'.state == Closed))
  {
    if link.sessionOpen {
      FramesAmong(NewWindowUpdate(NoFlags.(fin := true), h.id, 0), h.id);
      CloseEmits(h, link);
      Suffix(h.sent, OnClose(h));
      hide Close, FramesOf;
      assert Added(h, Close(h, link).0) == OnClose(h);
    } else {
      CloseGone(h, link);
    }
  }

  /**
   * Dropping resets the stream exactly if this side has not ended it, and tells the session unless it
   * is closed. Without a session nothing is sent.
   */
  lemma DropTells(h: Handle, link: Link)
    ensures var h' := DropHandle(h, link);
      var fs := FramesOf(Added(h, h'));
      && (if !link.sessionOpen || LocallyClosed(h.state) then fs == []
          else |fs| == 1 && fs[0].FlagsOf().rst && fs[0].Payload() == [])
      && (ClosedEvent(h.id) in Added(h, h') <==> link.sessionOpen && h.state != Closed)
      && (!link.sessionOpen ==> Added(h, h') == [])
  {
    var h', rst := DropHandle(h, link), NewWindowUpdate(TakeFlags(h).1.(rst := true), h.id, 0);
    FramesAmong(rst, h.id);
    assert FramesOf([]) == [];
    hide FramesOf;
    if !link.sessionOpen || h.state == Closed {
      assert Added(h, h') == [];
    } else if h.state == LocalClosing || h.state == Reset {
      assert Added(h, h') == [ClosedEvent(h.id)];
    } else {
      assert Added(h, h') == [FrameEvent(rst), ClosedEvent(h.id)];
    }
  }

  /**
   * So the session has been told of the end of a dropped handle if and only if the handle was not
   * closed when it was dropped and the session was there, or the session had been told before.
   */
  lemma DropIsKnownIff(h: Handle, link: Link)
    ensures ClosedEvent(h.id) in DropHandle(h, link).sent
      <==> (link.sessionOpen && h.state != Closed) || ClosedEvent(h.id) in h.sent
  {
    DropTells(h, link);
    var h' := DropHandle(h, link);
    assert h'.sent == h.sent + Added(h, h');
  }

  /** What a peer that answers, and closes, sends: the announcement that opened the stream or accepted it, and FIN. */
  function FirstFrame(id: StreamId, opener: bool): (f: Frame) {
    NewWindowUpdate(if opener then AckFlag else SynFlag, id, 0)
  }

  function FinFrame(id: StreamId): (f: Frame) { NewWindowUpdate(NoFlags.(fin := true), id, 0) }

  /**
   * The exception is real: a new handle is closed here, then the peer opens or accepts the stream and
   * closes it too; the handle reads to the end, is dropped, and the session is never told.
   */
  lemma ClosedByBothIsNotTold(id: StreamId, opener: bool, maxRecvWindow: u32)
    requires INITIAL_STREAM_WINDOW <= maxRecvWindow
    ensures var link := Link(true, true);
      var h := RunHandle(CreateHandle(id, opener, maxRecvWindow),
                         [Own(Shutdown, link), Given(FirstFrame(id, opener)), Given(FinFrame(id)),
                          Own(Read(1), link), Own(Drop, link)]);
      h.dropped && h.state == Closed && ClosedEvent(id) !in h.sent
  {
    var link, h0 := Link(true, true), CreateHandle(id, opener, maxRecvWindow);
    var first, fin := FirstFrame(id, opener), FinFrame(id);
    BothClose(id, opener, maxRecvWindow);
    hide CreateHandle, Apply;
    var h := Apply(h0, Shutdown, link);
    var ends := [Own(Read(1), link), Own(Drop, link)];
    RunTwo(Deliver(Deliver(h, first), fin), Read(1), Drop, link);
    RunCons(Deliver(h, first), Given(fin), ends);
    RunCons(h, Given(first), [Given(fin)] + ends);
    RunCons(h0, Own(Shutdown, link), [Given(first)] + ([Given(fin)] + ends));
    assert [Own(Shutdown, link)] + ([Given(first)] + ([Given(fin)] + ends))
        == [Own(Shutdown, link), Given(first), Given(fin), Own(Read(1), link), Own(Drop, link)];
  }

  /** The handle after it closed, after the peer's frames came, after it read them, and after the drop. */
  lemma BothClose(id: StreamId, opener: bool, maxRecvWindow: u32)
    requires INITIAL_STREAM_WINDOW <= maxRecvWindow
    ensures var link := Link(true, true);
      var h := Apply(CreateHandle(id, opener, maxRecvWindow), Shutdown, link);
      var h1 := Apply(Deliver(Deliver(h, FirstFrame(id, opener)), FinFrame(id)), Read(1), link);
      var h2 := Apply(h1, Drop, link);
      && h.inbox == [] && !h.dropped && !h1.dropped
      && h2.dropped && h2.state == Closed && ClosedEvent(id) !in h2.sent
  {
    var link := Link(true, true);
    ClosedAtOnce(id, opener, maxRecvWindow, link);
    hide CreateHandle;
    var h := Apply(CreateHandle(id, opener, maxRecvWindow), Shutdown, link);
    var h1 := Deliver(Deliver(h, FirstFrame(id, opener)), FinFrame(id));
    assert h1.inbox == [FirstFrame(id, opener), FinFrame(id)];
    FinCloses(h1, opener, link);
    var h2 := Apply(h1, Read(1), link);
    assert DropHandle(h2, link) == h2.(dropped := true);
  }

  /** A handle that has closed, and then takes the peer's FIN, is closed and says nothing. */
  lemma FinCloses(h: Handle, opener: bool, link: Link)
    requires h.state == LocalClosing && h.inbox == [FirstFrame(h.id, opener), FinFrame(h.id)]
    requires link == Link(true, true)
    ensures var h' := Apply(h, Read(1), link); h'.state == Closed && h'.sent == h.sent && h'.dropped == h.dropped
  {
    var first, fin := FirstFrame(h.id, opener), FinFrame(h.id);
    var h0 := h.(readWaker := true);
    assert h0.inbox[1..] == [fin] && [fin][1..] == [];
    var (h1, e1) := HandleFrame(h0.(inbox := [fin]), first);
    assert h1.state == LocalClosing && e1.None?;
    var (h2, e2) := HandleFrame(h1.(inbox := []), fin);
    assert h2.state == Closed && e2.None?;
    assert RecvFrames(h2, link) == (h2, Failed(SessionShutdown));
    assert RecvFrames(h1, link) == (h2, Failed(SessionShutdown));
    assert RecvFrames(h0, link) == (h2, Failed(SessionShutdown));
  }

  // ---------------------------------------------------------------- waking readers

  lemma NothingReceived(h: Handle, link: Link)
    ensures RecvFrames(h, link).1 == Drained(false) || !Receiving(h.state) ==> RecvFrames(h, link).0 == h
  {
  }

  /**
   * When a writer takes the frames, a reader that waits is woken if there is something new for it,
   * unless the stream was reset or is closed, or a frame was refused; and only if there is.
   */
  lemma ReaderIsWoken(h: Handle, link: Link)
    ensures var (h', o) := RecvFramesWake(h, link);
      var news := |h'.readBuf| != |h.readBuf| || (h'.state == RemoteClosing && h.state != RemoteClosing);
      && (news && h'.state != Reset && h'.state != Closed && !IsProtocolError(o) ==> !h'.readWaker)
      && (h.readWaker && !h'.readWaker ==> news)
  {
    var (h1, o) := RecvFrames(h, link);
    NothingReceived(h, link);
    KeepsReader(h, link);
    OutcomeStates(h, link);
    hide RecvFrames;
  }

  /** The loop fails either on a refused frame or because the stream has stopped receiving. */
  lemma {:induction false} OutcomeStates(h: Handle, link: Link)
    ensures var (h', o) := RecvFrames(h, link);
      o.Failed? && !IsProtocolError(o) ==> !Receiving(h'.state)
    decreases |h.inbox|
  {
    if Receiving(h.state) && h.inbox != [] {
      var (h1, e) := HandleFrame(h.(inbox := h.inbox[1..]), h.inbox[0]);
      if e.None? {
        OutcomeStates(h1, link);
      }
    }
  }
}
