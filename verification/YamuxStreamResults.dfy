/**
 * What the results of reads and writes tell the owner of a handle: why a read returns no bytes, why a
 * write takes none, and who is registered to be woken. All of it holds whatever the peer sends.
 */
module YamuxStreamResults {
  import opened ByteStrings
  import opened YamuxFrame
  import opened YamuxStream
  import opened YamuxStreamLaws
  import opened YamuxStreamBytes
  import opened YamuxStreamTrace

  /**
   * The receive loop takes frames in order and leaves some in the channel only if it refused one or
   * the stream has stopped receiving.
   */
  lemma {:induction false} TakesAll(h: Handle, link: Link)
    ensures var (h', o) := RecvFrames(h, link);
      && (!IsProtocolError(o) ==> h'.handled + h'.inbox == h.handled + h.inbox)
      && (!IsProtocolError(o) && Receiving(h'.state) ==> h'.inbox == [])
    decreases |h.inbox|
  {
    if Receiving(h.state) && h.inbox != [] {
      var h0 := h.(inbox := h.inbox[1..]);
      var (h1, e) := HandleFrame(h0, h.inbox[0]);
      if e.None? {
        TakesAll(h1, link);
        assert h.inbox == [h.inbox[0]] + h.inbox[1..];
        Assoc(h.handled, [h.inbox[0]], h.inbox[1..]);
      }
    }
  }

  // ------------------------------------------------------------ one write, one read

  /**
   * The result of a write, by what the handle is once it has taken the frames there are. Broken pipe:
   * a frame was refused, this side has ended the stream or it was reset, or the session is gone.
   * Pending: there is no window, and the writer is registered. Otherwise as much as fits is written.
   */
  lemma WriteResults(h: Handle, buf: Bytes, link: Link)
    ensures var (h1, o) := RecvFrames(h, link);
      var (h', r) := PollWrite(h, buf, link);
      var over := IsProtocolError(o) || LocallyClosed(h1.state);
      && (r == WriteBrokenPipe <==> over || (h1.sendWindow > 0 && !link.sessionOpen))
      && (r == WritePending <==> !over && h1.sendWindow == 0)
      && (r == WritePending ==> h'.writeWaker && h'.parked && h'.sendWindow == 0 && h'.sent == h.sent)
      && (r.Wrote? ==> r.n == Min(h1.sendWindow, |buf|))
      && (IsProtocolError(o) && link.sessionOpen ==> h'.sent == h.sent + [GoAwayEvent] && h'.state == LocalClosing)
  {
    hide RecvFrames;
  }

  /**
   * The result of a read or a peek, by what the handle is once it has taken the frames there are. With
   * nothing to read, a reset stream is reported as reset, one that the peer or both sides have ended
   * as its end, and otherwise the reader has to wait.
   */
  predicate Tells(h1: Handle, o: RecvOutcome, r: ReadResult) {
    var refused := IsProtocolError(o);
    && (r == ReadInvalidData <==> refused)
    && (r == ReadReset <==> !refused && h1.readBuf == [] && h1.state == Reset)
    && (r == ReadEof <==> !refused && h1.readBuf == [] && (h1.state == RemoteClosing || h1.state == Closed))
    && (r == ReadPending <==> !refused && h1.readBuf == [] && Receiving(h1.state))
    && (r.ReadBytes? || r.ReadBrokenPipe? <==> !refused && h1.readBuf != [])
  }

  /** How a handle comes out of the part of a read that takes frames. */
  lemma PrepareResults(h: Handle, link: Link)
    ensures var (h1, o) := RecvFrames(h.(readWaker := true), link);
      var (h', early) := PrepareRead(h, link);
      && Tells(h1, o, if early.Some? then early.value else ReadBytes([]))
      && (early.Some? ==> !early.value.ReadBytes? && !early.value.ReadBrokenPipe?)
      && h'.readBuf == h1.readBuf && h'.handled == h1.handled && h'.inbox == h1.inbox
      && (early == Some(ReadPending) ==> h'.readWaker)
      && h'.state == (if IsProtocolError(o) then LocalClosing else h1.state)
      && h'.sent == (if IsProtocolError(o) && link.sessionOpen then h.sent + [GoAwayEvent] else h.sent)
  {
    NotReceiving(h, link);
    KeepsReader(h.(readWaker := true), link);
    hide RecvFrames;
  }

  /** A handle that has stopped receiving takes nothing. */
  lemma NotReceiving(h: Handle, link: Link)
    ensures !Receiving(h.state) ==>
      && RecvFrames(h.(readWaker := true), link).0 == h.(readWaker := true)
      && !IsProtocolError(RecvFrames(h.(readWaker := true), link).1)
  {
  }

  /**
   * The results of reads and peeks. One that has to wait is registered; a refused frame makes the
   * session go away; and only a read that has bytes to return, and cannot grant the peer their room
   * because the session is gone, reports a broken pipe.
   */
  lemma ReadResults(h: Handle, cap: nat, link: Link)
    ensures var (h1, o) := RecvFrames(h.(readWaker := true), link);
      var (h', r) := PollRead(h, cap, link);
      var (g, p) := PollPeek(h, cap, link);
      && Tells(h1, o, r) && Tells(h1, o, p) && !p.ReadBrokenPipe?
      && (r.ReadBrokenPipe? ==> !link.sessionOpen && Receiving(h'.state))
      && (r == ReadPending ==> h'.readWaker && h'.readBuf == [] && Receiving(h'.state))
      && (p == ReadPending ==> g.readWaker && g.readBuf == [] && Receiving(g.state))
      && (IsProtocolError(o) && link.sessionOpen ==> GoAwayEvent in h'.sent && GoAwayEvent in g.sent)
  {
    PrepareResults(h, link);
    hide PrepareRead, RecvFrames, ReadChunks;
  }

  /**
   * A read with bytes to return reports a broken pipe exactly if the session is gone and there is room
   * worth granting to the peer: half of the configured window, counting what is left unread.
   */
  lemma BrokenPipeIff(h: Handle, cap: nat, opener: bool, open: bool, link: Link)
    requires Laws(h, opener, open) && PrepareRead(h, link).1.None?
    ensures var h1 := PrepareRead(h, link).0;
      var (h', r) := PollRead(h, cap, link);
      r.ReadBrokenPipe? <==>
        && !link.sessionOpen && Receiving(h1.state)
        && h.maxRecvWindow - |Unread(h')| - h1.recvWindow >= h.maxRecvWindow / 2
  {
    PrepareReadLaws(h, opener, open, link);
    hide PrepareRead;
    var h1 := PrepareRead(h, link).0;
    var (out, rest) := ReadChunks(h1.readBuf, cap);
    ReadChunksIsDequeue(h1.readBuf, cap);
    hide ReadChunks, Accounted, Queued, Reported, WriterSafe, Routed;
    var h2 := h1.(readBuf := rest, consumed := h1.consumed + out);
    WindowUpdateFacts(h2, link);
    hide SendWindowUpdate;
  }

  // ------------------------------------------------------------ the end of a stream

  predicate IsEnd(f: Frame) { f.FlagsOf().fin && !f.FlagsOf().rst }

  /** The peer has ended the stream, or reset it, in a frame this handle has taken, counting from the n-th. */
  ghost predicate GotEnd(h: Handle, n: nat) { exists i :: n <= i < |h.handled| && IsEnd(h.handled[i]) }

  ghost predicate GotReset(h: Handle, n: nat) { exists i :: n <= i < |h.handled| && h.handled[i].FlagsOf().rst }

  /**
   * The state tells what happened to the stream since the n-th frame, and no more than that happened:
   * closed says that the owner has closed it since, cut that the channel was found to have ended.
   */
  ghost predicate Ended(h: Handle, n: nat, closed: bool, cut: bool) {
    && (h.state == Reset ==> GotReset(h, n))
    && (h.state == RemoteClosing ==> GotEnd(h, n) || cut)
    && (h.state == Closed ==> GotEnd(h, n) || closed)
    && Lasting(h, n, closed)
  }

  /** What the peer has ended stays ended, and what it has reset stays reset until the owner closes it. */
  ghost predicate Lasting(h: Handle, n: nat, closed: bool) {
    && (GotEnd(h, n) ==> h.state == RemoteClosing || h.state == Closed)
    && (GotReset(h, n) ==> h.state == Reset || (h.state == Closed && closed))
  }

  /** One frame more. */
  lemma TakesFrame(h: Handle, f: Frame, n: nat, closed: bool, cut: bool)
    requires Receiving(h.state) && n <= |h.handled|
    ensures var (h1, e) := HandleFrame(h, f);
      && (e.None? && Lasting(h, n, closed) ==> Lasting(h1, n, closed))
      && (e.None? && Ended(h, n, closed, cut) ==> Ended(h1, n, closed, cut))
      && (e.Some? && Lasting(h, n, closed) ==> !GotEnd(h1, n) && !GotReset(h1, n))
  {
    var (h1, e) := HandleFrame(h, f);
    if e.None? {
      assert h1.handled[|h.handled|] == f;
      assert forall i :: n <= i < |h.handled| ==> h1.handled[i] == h.handled[i];
    }
  }

  lemma {:induction false} RecvEnded(h: Handle, link: Link, n: nat, closed: bool, cut: bool)
    requires n <= |h.handled| && (!link.inboxOpen ==> cut)
    ensures var (h', o) := RecvFrames(h, link);
      && h.handled <= h'.handled
      && (!IsProtocolError(o) && Lasting(h, n, closed) ==> Lasting(h', n, closed))
      && (!IsProtocolError(o) && Ended(h, n, closed, cut) ==> Ended(h', n, closed, cut))
      && (IsProtocolError(o) && Lasting(h, n, closed) ==> !GotEnd(h', n) && !GotReset(h', n))
    decreases |h.inbox|
  {
    if Receiving(h.state) && h.inbox != [] {
      var h0 := h.(inbox := h.inbox[1..]);
      TakesFrame(h0, h.inbox[0], n, closed, cut);
      var (h1, e) := HandleFrame(h0, h.inbox[0]);
      if e.None? {
        RecvEnded(h1, link, n, closed, cut);
      }
    }
  }

  /** A step that takes no frame, and neither ends the stream nor reopens it. */
  lemma SameEnded(h: Handle, h': Handle, n: nat, closed: bool, cut: bool)
    requires h'.handled == h.handled && (h'.state == h.state || (Receiving(h.state) && Receiving(h'.state)))
    ensures Lasting(h, n, closed) ==> Lasting(h', n, closed)
    ensures Ended(h, n, closed, cut) ==> Ended(h', n, closed, cut)
  {
  }

  /** A refused frame leaves the stream closed on this side only. */
  lemma RefusedEnded(h: Handle, n: nat, closed: bool, cut: bool)
    requires !GotEnd(h, n) && !GotReset(h, n) && h.state == LocalClosing
    ensures Lasting(h, n, closed) && Ended(h, n, closed, cut)
  {
  }

  lemma PrepareEnded(h: Handle, link: Link, n: nat, closed: bool, cut: bool)
    requires n <= |h.handled| && (!link.inboxOpen ==> cut) && Lasting(h, n, closed)
    ensures var h' := PrepareRead(h, link).0;
      && h.handled <= h'.handled && Lasting(h', n, closed)
      && (Ended(h, n, closed, cut) ==> Ended(h', n, closed, cut))
  {
    var h0 := h.(readWaker := true);
    PrepareResults(h, link);
    RecvEnded(h0, link, n, closed, cut);
    var (h1, o) := RecvFrames(h0, link);
    var h' := PrepareRead(h, link).0;
    hide PrepareRead, RecvFrames;
    SameEnded(h, h0, n, closed, cut);
    if IsProtocolError(o) {
      assert GotEnd(h', n) == GotEnd(h1, n) && GotReset(h', n) == GotReset(h1, n);
      RefusedEnded(h', n, closed, cut);
    } else {
      SameEnded(h1, h', n, closed, cut);
    }
  }

  /** All a write does to what a stream has been told, it does by taking frames. */
  lemma WriteTakes(h: Handle, buf: Bytes, link: Link)
    ensures var (h1, o) := RecvFrames(h, link);
      var h' := PollWrite(h, buf, link).0;
      && h'.handled == h1.handled
      && (IsProtocolError(o) ==> h'.state == LocalClosing)
      && (!IsProtocolError(o) ==> h'.state == h1.state || (Receiving(h1.state) && Receiving(h'.state)))
  {
    ReceiptTakes(h, link);
    var h2 := AfterReceipt(h, link);
    SendDataTakes(h2, buf[..Min(h2.sendWindow, |buf|)], link);
    hide RecvFrames, SendData, RecvFramesWake, SendGoAwayEvent, IsProtocolError;
  }

  lemma SendDataTakes(h: Handle, data: Bytes, link: Link)
    requires |data| <= MAX_U32
    ensures var h' := SendData(h, data, link).0;
      h'.handled == h.handled && (h'.state == h.state || (Receiving(h.state) && Receiving(h'.state)))
  {
  }

  lemma ReceiptTakes(h: Handle, link: Link)
    ensures var (h1, o) := RecvFrames(h, link);
      var h2 := AfterReceipt(h, link);
      h2.handled == h1.handled && h2.state == if IsProtocolError(o) then LocalClosing else h1.state
  {
    hide RecvFrames;
  }

  lemma WriteEnded(h: Handle, buf: Bytes, link: Link, n: nat, closed: bool, cut: bool)
    requires n <= |h.handled| && (!link.inboxOpen ==> cut) && Lasting(h, n, closed)
    ensures var h' := PollWrite(h, buf, link).0;
      && h.handled <= h'.handled && Lasting(h', n, closed)
      && (Ended(h, n, closed, cut) ==> Ended(h', n, closed, cut))
  {
    RecvEnded(h, link, n, closed, cut);
    WriteTakes(h, buf, link);
    hide RecvFrames, PollWrite;
    var (h1, o) := RecvFrames(h, link);
    var h' := PollWrite(h, buf, link).0;
    if IsProtocolError(o) {
      assert GotEnd(h', n) == GotEnd(h1, n) && GotReset(h', n) == GotReset(h1, n);
      RefusedEnded(h', n, closed, cut);
    } else {
      SameEnded(h1, h', n, closed, cut);
    }
  }

  lemma CloseEnded(h: Handle, link: Link, n: nat, closed: bool, cut: bool)
    requires Lasting(h, n, closed)
    ensures var h' := Close(h, link).0;
      && h'.handled == h.handled && Lasting(h', n, true)
      && (Ended(h, n, closed, cut) ==> Ended(h', n, true, cut))
  {
    var h' := Close(h, link).0;
    assert h'.handled == h.handled;
    assert h'.state == if Receiving(h.state) && h.state != LocalClosing then LocalClosing else Closed;
    hide Close;
    assert GotEnd(h', n) == GotEnd(h, n) && GotReset(h', n) == GotReset(h, n);
  }

  /** Every operation of the owner; only a close closes. */
  lemma ApplyEnded(h: Handle, op: HandleOp, link: Link, n: nat, closed: bool, cut: bool)
    requires n <= |h.handled| && (!link.inboxOpen ==> cut) && Lasting(h, n, closed)
    ensures var h' := Apply(h, op, link);
      && h.handled <= h'.handled && Lasting(h', n, closed || op.Shutdown?)
      && (Ended(h, n, closed, cut) ==> Ended(h', n, closed || op.Shutdown?, cut))
  {
    hide Lasting, Ended, PrepareRead, PollRead, PollWrite, Close, DropHandle, ReadChunks;
    match op {
      case Read(cap) =>
        PrepareEnded(h, link, n, closed, cut);
        ReadTakes(h, cap, link);
        SameEnded(PrepareRead(h, link).0, PollRead(h, cap, link).0, n, closed, cut);
      case Peek(cap) => PrepareEnded(h, link, n, closed, cut);
      case Write(buf) => WriteEnded(h, buf, link, n, closed, cut);
      case Shutdown => CloseEnded(h, link, n, closed, cut);
      case Drop =>
        DropTakesNothing(h, link);
        SameEnded(h, DropHandle(h, link), n, closed, cut);
    }
  }

  lemma ReadTakes(h: Handle, cap: nat, link: Link)
    ensures var h1, h' := PrepareRead(h, link).0, PollRead(h, cap, link).0;
      h'.handled == h1.handled && (h'.state == h1.state || (Receiving(h1.state) && Receiving(h'.state)))
  {
    hide PrepareRead, ReadChunks;
  }

  lemma DropTakesNothing(h: Handle, link: Link)
    ensures var h' := DropHandle(h, link);
      h'.handled == h.handled && (h'.state == h.state || (Receiving(h.state) && Receiving(h'.state)))
  {
  }

  /** The owner closes the handle, or finds that the channel has ended, at some point of the run. */
  predicate Closes(inputs: seq<HandleInput>) {
    exists i :: 0 <= i < |inputs| && inputs[i].Own? && inputs[i].op.Shutdown?
  }

  predicate Cuts(inputs: seq<HandleInput>) {
    exists i :: 0 <= i < |inputs| && inputs[i].Own? && !inputs[i].link.inboxOpen
  }

  lemma {:induction false} RunEnded(h: Handle, inputs: seq<HandleInput>, n: nat, closed: bool, cut: bool)
    requires n <= |h.handled| && (Cuts(inputs) ==> cut) && Lasting(h, n, closed)
    ensures var h' := RunHandle(h, inputs);
      && h.handled <= h'.handled && Lasting(h', n, closed || Closes(inputs))
      && (Ended(h, n, closed, cut) ==> Ended(h', n, closed || Closes(inputs), cut))
    decreases |inputs|
  {
    if inputs != [] {
      var rest := inputs[1..];
      TailOfRun(inputs);
      match inputs[0]
      case Given(f) =>
        SameEnded(h, Deliver(h, f), n, closed, cut);
        hide Lasting, Ended, Closes, Cuts;
        RunEnded(Deliver(h, f), rest, n, closed, cut);
      case Own(op, link) =>
        hide Lasting, Ended, Closes, Cuts, Apply;
        ApplyEnded(h, op, link, n, closed, cut);
        RunEnded(Apply(h, op, link), rest, n, closed || op.Shutdown?, cut);
    }
  }

  lemma TailOfRun(inputs: seq<HandleInput>)
    requires inputs != []
    ensures Closes(inputs) <==> (inputs[0].Own? && inputs[0].op.Shutdown?) || Closes(inputs[1..])
    ensures Cuts(inputs) <==> (inputs[0].Own? && !inputs[0].link.inboxOpen) || Cuts(inputs[1..])
  {
    var rest := inputs[1..];
    assert forall i :: 0 <= i < |rest| ==> rest[i] == inputs[i + 1];
    if Closes(inputs) {
      var i :| 0 <= i < |inputs| && inputs[i].Own? && inputs[i].op.Shutdown?;
      assert i > 0 ==> rest[i - 1] == inputs[i];
    }
    if Cuts(inputs) {
      var i :| 0 <= i < |inputs| && inputs[i].Own? && !inputs[i].link.inboxOpen;
      assert i > 0 ==> rest[i - 1] == inputs[i];
    }
  }

  /** A poll found the end, and why. */
  ghost predicate ToldTruly(h': Handle, r: ReadResult, closed: bool, cut: bool) {
    && (r == ReadReset ==> GotReset(h', 0) && h'.readBuf == [])
    && (r == ReadEof ==> (GotEnd(h', 0) || closed || cut) && h'.readBuf == [])
    && (r == ReadPending ==> !GotEnd(h', 0) && !GotReset(h', 0) && h'.readBuf == [] && h'.readWaker)
  }

  /**
   * In every run of a handle made by create_stream: a read or a peek reports a reset only if the peer
   * has reset the stream; the end only if the peer has ended it, the owner has closed it, or the
   * session has let go of the channel; and nothing yet only if none of the peer's doing has come.
   */
  lemma ReadsTellTruly(id: StreamId, opener: bool, maxRecvWindow: u32, inputs: seq<HandleInput>, cap: nat, link: Link)
    ensures var h := RunHandle(CreateHandle(id, opener, maxRecvWindow), inputs);
      var closed, cut := Closes(inputs), Cuts(inputs) || !link.inboxOpen;
      && ToldTruly(PollRead(h, cap, link).0, PollRead(h, cap, link).1, closed, cut)
      && ToldTruly(PollPeek(h, cap, link).0, PollPeek(h, cap, link).1, closed, cut)
  {
    var h0 := CreateHandle(id, opener, maxRecvWindow);
    assert h0.handled == [] && Receiving(h0.state);
    hide CreateHandle;
    var closed, cut := Closes(inputs), Cuts(inputs) || !link.inboxOpen;
    RunEnded(h0, inputs, 0, false, cut);
    var h := RunHandle(h0, inputs);
    hide RunHandle, Closes, Cuts;
    PollTellsTruly(h, cap, link, closed, cut);
  }

  lemma PollTellsTruly(h: Handle, cap: nat, link: Link, closed: bool, cut: bool)
    requires Ended(h, 0, closed, cut) && (!link.inboxOpen ==> cut)
    ensures ToldTruly(PollRead(h, cap, link).0, PollRead(h, cap, link).1, closed, cut)
    ensures ToldTruly(PollPeek(h, cap, link).0, PollPeek(h, cap, link).1, closed, cut)
  {
    PrepareResults(h, link);
    PrepareEnded(h, link, 0, closed, cut);
    hide PrepareRead, RecvFrames, ReadChunks, SendWindowUpdate;
  }

  /**
   * A reset is seen: once a handle has taken a frame with RST, and until its owner closes it, every
   * read and peek that finds nothing unread reports the reset, and every write a broken pipe.
   */
  lemma ResetIsSeen(h: Handle, inputs: seq<HandleInput>, cap: nat, buf: Bytes, link: Link)
    requires !Closes(inputs) && GotReset(RunHandle(h, inputs), |h.handled|) && RunHandle(h, inputs).readBuf == []
    ensures var h' := RunHandle(h, inputs);
      && PollRead(h', cap, link) == PollPeek(h', cap, link) == (h', ReadReset)
      && PollWrite(h', buf, link) == (h', WriteBrokenPipe)
  {
    hide Closes, Cuts, GotReset, GotEnd;
    assert !GotReset(h, |h.handled|) && !GotEnd(h, |h.handled|) by { NothingSince(h); }
    RunEnded(h, inputs, |h.handled|, false, true);
    hide RunHandle;
    EndedPolls(RunHandle(h, inputs), cap, buf, link);
  }

  /** An end is seen: once a handle has taken a frame with FIN, every read that finds nothing unread reports it. */
  lemma EndIsSeen(h: Handle, inputs: seq<HandleInput>, cap: nat, link: Link)
    requires GotEnd(RunHandle(h, inputs), |h.handled|) && RunHandle(h, inputs).readBuf == []
    ensures var h' := RunHandle(h, inputs);
      PollRead(h', cap, link) == PollPeek(h', cap, link) == (h', ReadEof)
  {
    hide Closes, Cuts, GotReset, GotEnd;
    assert !GotReset(h, |h.handled|) && !GotEnd(h, |h.handled|) by { NothingSince(h); }
    RunEnded(h, inputs, |h.handled|, false, true);
    hide RunHandle;
    EndedPolls(RunHandle(h, inputs), cap, [], link);
  }

  lemma NothingSince(h: Handle)
    ensures !GotReset(h, |h.handled|) && !GotEnd(h, |h.handled|)
  {
  }

  lemma EndedPolls(h: Handle, cap: nat, buf: Bytes, link: Link)
    requires !Receiving(h.state) && h.readBuf == []
    ensures var r := if h.state == Reset then ReadReset else ReadEof;
      PollRead(h, cap, link) == PollPeek(h, cap, link) == (h, r)
    ensures h.state == Reset ==> PollWrite(h, buf, link) == (h, WriteBrokenPipe)
  {
  }

  // ------------------------------------------------------------ who is registered

  /** Since the n-th frame, no window update was taken. */
  ghost predicate NoUpdate(h: Handle, n: nat) { forall i :: n <= i < |h.handled| ==> h.handled[i].Ty() != WindowUpdate }

  /** A writer stays registered as long as no window update is taken. */
  ghost predicate Waits(h: Handle, n: nat) { n <= |h.handled| && (NoUpdate(h, n) ==> h.writeWaker) }

  lemma {:induction false} RecvWaits(h: Handle, link: Link, n: nat)
    requires Waits(h, n)
    ensures Waits(RecvFrames(h, link).0, n)
    decreases |h.inbox|
  {
    if Receiving(h.state) && h.inbox != [] {
      var h0, f := h.(inbox := h.inbox[1..]), h.inbox[0];
      var (h1, e) := HandleFrame(h0, f);
      FrameWaits(h0, f, n);
      if e.None? {
        RecvWaits(h1, link, n);
      }
    }
  }

  lemma FrameWaits(h: Handle, f: Frame, n: nat)
    requires Waits(h, n)
    ensures Waits(HandleFrame(h, f).0, n)
  {
    var (h1, e) := HandleFrame(h, f);
    if e.None? {
      assert h1.handled[|h.handled|] == f;
      assert forall i :: n <= i < |h.handled| ==> h1.handled[i] == h.handled[i];
    }
  }

  lemma SameWaits(h: Handle, h': Handle, n: nat)
    requires Waits(h, n) && h'.handled == h.handled && (h.writeWaker ==> h'.writeWaker)
    ensures Waits(h', n)
  {
  }

  lemma PrepareWaits(h: Handle, link: Link, n: nat)
    requires Waits(h, n)
    ensures Waits(PrepareRead(h, link).0, n)
  {
    var h0 := h.(readWaker := true);
    SameWaits(h, h0, n);
    RecvWaits(h0, link, n);
    hide RecvFrames, Waits;
    if Receiving(h.state) || h.readBuf != [] {
      SameWaits(RecvFrames(h0, link).0, PrepareRead(h, link).0, n);
    }
  }

  lemma WriteWaits(h: Handle, buf: Bytes, link: Link, n: nat)
    requires Waits(h, n)
    ensures Waits(PollWrite(h, buf, link).0, n)
  {
    RecvWaits(h, link, n);
    WriteTakes(h, buf, link);
    WriteRegisters(h, buf, link);
    hide RecvFrames, Waits, PollWrite;
    SameWaits(RecvFrames(h, link).0, PollWrite(h, buf, link).0, n);
  }

  lemma WriteRegisters(h: Handle, buf: Bytes, link: Link)
    ensures RecvFrames(h, link).0.writeWaker ==> PollWrite(h, buf, link).0.writeWaker
  {
    hide RecvFrames;
  }

  lemma EndWaits(h: Handle, link: Link, n: nat)
    requires Waits(h, n)
    ensures Waits(Close(h, link).0, n) && Waits(DropHandle(h, link), n)
  {
    hide Waits;
    SameWaits(h, Close(h, link).0, n);
    SameWaits(h, DropHandle(h, link), n);
  }

  lemma ApplyWaits(h: Handle, op: HandleOp, link: Link, n: nat)
    requires Waits(h, n)
    ensures Waits(Apply(h, op, link), n)
  {
    hide Waits;
    match op {
      case Read(cap) =>
        PrepareWaits(h, link, n);
        hide PrepareRead, ReadChunks;
        SameWaits(PrepareRead(h, link).0, PollRead(h, cap, link).0, n);
      case Peek(cap) =>
        PrepareWaits(h, link, n);
        hide PrepareRead, ReadChunks;
      case Write(buf) =>
        WriteWaits(h, buf, link, n);
        hide PollWrite;
      case _ =>
        EndWaits(h, link, n);
        hide Close, DropHandle;
    }
  }

  lemma {:induction false} RunWaits(h: Handle, inputs: seq<HandleInput>, n: nat)
    requires Waits(h, n)
    ensures Waits(RunHandle(h, inputs), n)
    decreases |inputs|
  {
    if inputs != [] {
      match inputs[0]
      case Given(f) =>
        assert Waits(Deliver(h, f), n);
        RunWaits(Deliver(h, f), inputs[1..], n);
      case Own(op, link) =>
        hide Waits, Apply;
        ApplyWaits(h, op, link, n);
        RunWaits(Apply(h, op, link), inputs[1..], n);
    }
  }

  /**
   * No wake-up is lost: a write that has to wait registers the writer, and whatever happens
   * afterwards, the writer is registered until a window update is taken.
   */
  lemma WriterStaysRegistered(h: Handle, buf: Bytes, link: Link, inputs: seq<HandleInput>)
    requires PollWrite(h, buf, link).1 == WritePending
    ensures var h1 := PollWrite(h, buf, link).0;
      var h' := RunHandle(h1, inputs);
      |h1.handled| <= |h'.handled| && (NoUpdate(h', |h1.handled|) ==> h'.writeWaker)
  {
    WriteResults(h, buf, link);
    hide PollWrite, RunHandle;
    var h1 := PollWrite(h, buf, link).0;
    RunWaits(h1, inputs, |h1.handled|);
  }

  // -------------------------------------------------------- when window updates are sent

  /** A frame that only grants window. */
  predicate IsGrant(f: Frame) { f.Ty() == WindowUpdate && !f.FlagsOf().fin && !f.FlagsOf().rst }

  /** After the announcement, a grant is never for less than half of the configured window. */
  ghost predicate Worthwhile(h: Handle) {
    var fs := SentFrames(h);
    && fs != []
    && forall i :: 0 < i < |fs| && IsGrant(fs[i]) ==> fs[i].Length() >= h.maxRecvWindow / 2
  }

  lemma EmitWorthwhile(h: Handle, f: Frame, link: Link)
    requires Worthwhile(h) && (IsGrant(f) ==> f.Length() >= h.maxRecvWindow / 2)
    ensures Worthwhile(Emit(h, FrameEvent(f), link).0)
  {
    EmitFrameFacts(h, f, link);
    hide FramesOf, PayloadOf, CreditOf;
  }

  lemma OtherWorthwhile(h: Handle, e: StreamEvent, link: Link)
    requires Worthwhile(h) && !e.FrameEvent?
    ensures Worthwhile(Emit(h, e, link).0)
  {
    EmitOtherFacts(h, e, link);
    hide FramesOf;
  }

  lemma SameWorthwhile(h: Handle, h': Handle)
    requires Worthwhile(h) && h'.sent == h.sent && h'.maxRecvWindow == h.maxRecvWindow
    ensures Worthwhile(h')
  {
    hide FramesOf;
  }

  lemma UpdateWorthwhile(h: Handle, link: Link)
    requires Worthwhile(h) && Bounded(h) && h.state != Init && h.state != SynReceived
    ensures Worthwhile(SendWindowUpdate(h, link).0)
  {
    WindowUpdateFacts(h, link);
    hide Worthwhile, SendWindowUpdate;
    var delta := h.maxRecvWindow - |Unread(h)| - h.recvWindow;
    if delta >= h.maxRecvWindow / 2 {
      var h1 := h.(recvWindow := h.recvWindow + delta);
      SameWorthwhile(h, h1);
      EmitWorthwhile(h1, NewWindowUpdate(NoFlags, h.id, delta), link);
    }
  }

  lemma PrepareWorthwhile(h: Handle, link: Link)
    requires Worthwhile(h)
    ensures Worthwhile(PrepareRead(h, link).0)
  {
    var h1 := RecvFrames(h.(readWaker := true), link).0;
    hide RecvFrames, Worthwhile;
    SameWorthwhile(h, h1);
    SameWorthwhile(h, h1.(state := LocalClosing));
    OtherWorthwhile(h1.(state := LocalClosing), GoAwayEvent, link);
  }

  lemma WriteWorthwhile(h: Handle, buf: Bytes, link: Link)
    requires Worthwhile(h)
    ensures Worthwhile(PollWrite(h, buf, link).0)
  {
    var h0 := RecvFramesWake(h, link).0;
    assert h0.sent == h.sent && h0.maxRecvWindow == h.maxRecvWindow;
    hide RecvFrames, RecvFramesWake, Worthwhile;
    SameWorthwhile(h, h0);
    SameWorthwhile(h, h0.(state := LocalClosing));
    OtherWorthwhile(h0.(state := LocalClosing), GoAwayEvent, link);
    var h1 := AfterReceipt(h, link);
    assert Worthwhile(h1);
    var data := buf[..Min(h1.sendWindow, |buf|)];
    var (h2, flags) := TakeFlags(h1);
    SameWorthwhile(h1, h2);
    EmitWorthwhile(h2, NewData(flags, h1.id, data), link);
    SameWorthwhile(h1, h1.(writeWaker := true, parked := true));
    var h3 := SendData(h1, data, link).0;
    var n := Min(h3.sendWindow, |data|);
    SameWorthwhile(h3, h3.(sendWindow := h3.sendWindow - n, accepted := h3.accepted + data));
  }

  lemma EndWorthwhile(h: Handle, link: Link)
    requires Worthwhile(h)
    ensures Worthwhile(Close(h, link).0) && Worthwhile(DropHandle(h, link))
  {
    hide Worthwhile;
    var closed, closing, h0 := h.(state := Closed), h.(state := LocalClosing), h.(dropped := true);
    SameWorthwhile(h, closed);
    SameWorthwhile(h, closing);
    var fin := NewWindowUpdate(NoFlags.(fin := true), h.id, 0);
    EmitWorthwhile(closed, fin, link);
    EmitWorthwhile(closing, fin, link);
    OtherWorthwhile(closed, ClosedEvent(h.id), link);
    OtherWorthwhile(Emit(closed, FrameEvent(fin), link).0, ClosedEvent(h.id), link);
    SameWorthwhile(h, h0);
    OtherWorthwhile(h0, ClosedEvent(h.id), link);
    var (h1, flags) := TakeFlags(h0);
    SameWorthwhile(h0, h1);
    var rst := NewWindowUpdate(flags.(rst := true), h.id, 0);
    EmitWorthwhile(h1, rst, link);
    OtherWorthwhile(Emit(h1, FrameEvent(rst), link).0, ClosedEvent(h.id), link);
  }

  lemma ApplyWorthwhile(h: Handle, op: HandleOp, opener: bool, open: bool, link: Link)
    requires Worthwhile(h) && Laws(h, opener, open)
    ensures Worthwhile(Apply(h, op, link))
  {
    match op {
      case Read(cap) =>
        PrepareWorthwhile(h, link);
        PrepareReadLaws(h, opener, open, link);
        hide Worthwhile, PrepareRead;
        var (h1, early) := PrepareRead(h, link);
        if early.None? {
          var (out, rest) := ReadChunks(h1.readBuf, cap);
          var h2 := h1.(readBuf := rest, consumed := h1.consumed + out);
          assert Bounded(h2) && h2.state != Init && h2.state != SynReceived by {
            ReadChunksIsDequeue(h1.readBuf, cap);
            hide ReadChunks;
          }
          SameWorthwhile(h1, h2);
          UpdateWorthwhile(h2, link);
        }
      case Peek(cap) =>
        PrepareWorthwhile(h, link);
        hide Worthwhile, PrepareRead;
      case Write(buf) =>
        WriteWorthwhile(h, buf, link);
        hide Worthwhile, PollWrite;
      case _ =>
        EndWorthwhile(h, link);
        hide Worthwhile, Close, DropHandle;
    }
  }

  lemma {:induction false} RunWorthwhile(h: Handle, inputs: seq<HandleInput>, opener: bool, open: bool)
    requires Worthwhile(h) && Laws(h, opener, open) && Possible(h.id, open, inputs)
    ensures Worthwhile(RunHandle(h, inputs))
    decreases |inputs|
  {
    if inputs != [] {
      match inputs[0]
      case Given(f) =>
        DeliverLaws(h, f, opener, open);
        SameWorthwhile(h, Deliver(h, f));
        hide Worthwhile, Laws;
        RunWorthwhile(Deliver(h, f), inputs[1..], opener, open);
      case Own(op, link) =>
        hide Worthwhile, Laws, Apply;
        ApplyLaws(h, op, opener, open, link);
        ApplyWorthwhile(h, op, opener, open, link);
        RunWorthwhile(Apply(h, op, link), inputs[1..], opener, link.sessionOpen);
    }
  }

  /** Whatever happens to a handle made by create_stream, it grants no window in dribs and drabs. */
  lemma GrantsAreWorthwhile(id: StreamId, opener: bool, maxRecvWindow: u32, inputs: seq<HandleInput>)
    requires INITIAL_STREAM_WINDOW <= maxRecvWindow && Possible(id, true, inputs)
    ensures Worthwhile(RunHandle(CreateHandle(id, opener, maxRecvWindow), inputs))
  {
    CreateHandleLaws(id, opener, maxRecvWindow);
    hide CreateHandle, RunHandle, Possible;
    RunWorthwhile(CreateHandle(id, opener, maxRecvWindow), inputs, opener, true);
  }
}
