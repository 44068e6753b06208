/**
 * The slots of the stream table of one session. A stream that both sides closed, and whose handle was
 * then dropped, keeps its slot: the session is not told, and no frame comes that would tell it.
 */
module YamuxSlots {
  import opened ByteStrings
  import opened YamuxFrame
  import opened YamuxStream
  import opened YamuxStreamLaws
  import opened YamuxStreamEnds
  import opened YamuxSession

  /** Something a session does, and the frames it finds on the wire. */
  datatype Happening = Happening(act: Action, incoming: seq<Frame>)

  function Happens(s: Session, h: Happening): (s': Session) {
    if Enabled(s, h.incoming, h.act) then Act(s, h.incoming, h.act).0 else s
  }

  /** Any run of one session, whatever its peer sends. */
  function RunSession(s: Session, hs: seq<Happening>): (s': Session)
    decreases |hs|
  {
    if hs == [] then s else RunSession(Happens(s, hs[0]), hs[1..])
  }

  // ------------------------------------------------------------------ lost slots

  /** Every handle is kept under its own id. */
  ghost predicate Keyed(reg: Registry) {
    forall j :: j in reg.handles ==> reg.handles[j].id == j
  }

  ghost predicate NoFrameOf(fs: seq<Frame>, id: StreamId) {
    forall i :: 0 <= i < |fs| ==> fs[i].Id() != id
  }

  /** The slot is taken, its handle is dropped, and nothing that would free it is under way. */
  ghost predicate Lost(s: Session, id: StreamId) {
    && !s.reg.gone && Keyed(s.reg)
    && id in s.reg.streams && id in s.reg.handles && s.reg.handles[id].dropped
    && ClosedEvent(id) !in s.events
    && NoFrameOf(s.readPending, id) && NoFrameOf(s.taken, id)
  }

  /** The session goes on, and no frame of the stream comes, as none does from a peer that closed it. */
  ghost predicate Spares(h: Happening, id: StreamId) {
    h.act != DropSession && NoFrameOf(h.incoming, id)
  }

  /** A new handle announces itself, not its end. */
  lemma NoEndAnnounced(id: StreamId, opener: bool, maxRecvWindow: u32)
    ensures var h := CreateHandle(id, opener, maxRecvWindow);
      h.id == id && forall e :: e in h.sent ==> e.FrameEvent?
  {
  }

  lemma AddStreamKeeps(s: Session, other: StreamId, opener: bool, id: StreamId)
    requires Lost(s, id)
    ensures var r := AddStream(s, other, opener); r.Success? ==> Lost(r.value, id)
  {
    NoEndAnnounced(other, opener, s.reg.config.maxStreamWindowSize);
    hide CreateHandle;
  }

  lemma RouteKeeps(s: Session, f: Frame, ready: bool, id: StreamId)
    requires Lost(s, id) && f.Id() != id
    ensures Lost(Route(s, f, ready), id)
  {
    var to, reg := f.Id(), s.reg;
    if to in reg.streams {
      if to !in reg.handles || reg.handles[to].dropped {
        FreeKeeps(s, to, id);
      } else if ready || reg.handles[to].inbox == [] {
        DeliverKeeps(s, f, id);
      } else {
        assert NoFrameOf(s.readPending + [f], id);
      }
    }
  }

  lemma DeliverKeeps(s: Session, f: Frame, id: StreamId)
    requires Lost(s, id) && f.Id() != id && f.Id() in s.reg.handles
    ensures var h := Deliver(s.reg.handles[f.Id()], f);
      Lost(s.(reg := s.reg.(handles := s.reg.handles[f.Id() := h])), id)
  {
  }

  lemma SendKeeps(s: Session, s': Session, id: StreamId)
    requires Lost(s, id) && s'.reg == s.reg && s'.events == s.events
    requires NoFrameOf(s'.readPending, id) && NoFrameOf(s'.taken, id)
    ensures Lost(s', id)
  {
  }

  lemma DistributeKeeps(s: Session, ready: bool, k: nat, id: StreamId)
    requires Lost(s, id) && s.taken != []
    ensures Lost(DistributeNext(s, ready, k).0, id)
  {
    var f, s0 := s.taken[0], s.(taken := s.taken[1..]);
    assert f.Id() != id;
    SendKeeps(s, s0, id);
    if f.Id() in s.blocked {
      assert Lost(s0.(readPending := s.readPending + [f]), id);
    } else if f.FlagsOf().syn {
      DistributeSynKeeps(s0, f, ready, k, id);
    } else {
      RouteKeeps(s0, f, ready, id);
    }
  }

  lemma DistributeSynKeeps(s: Session, f: Frame, ready: bool, k: nat, id: StreamId)
    requires Lost(s, id) && f.Id() != id
    ensures Lost(DistributeSyn(s, f, ready, k).0, id)
  {
    AddStreamKeeps(s, f.Id(), false, id);
    var reply := NewWindowUpdate(AckFlag.(rst := true), f.Id(), 0);
    RouteKeeps(s.(reg := Refuse(s.reg, f, reply), writePending := s.writePending + [reply]), f, ready, id);
    var added := AddStream(s, f.Id(), false);
    if added.Success? {
      RouteKeeps(added.value.(pendingStreams := s.pendingStreams + [f.Id()]), f, ready, id);
    }
    hide AddStream, Route;
  }

  /** Since then the handle has told the session of no end but its own. */
  ghost predicate OwnEnds(h: Handle, h': Handle) {
    && h'.id == h.id && h.sent <= h'.sent
    && forall i :: |h.sent| <= i < |h'.sent| && h'.sent[i].ClosedEvent? ==> h'.sent[i].id == h.id
  }

  lemma ReadOwnEnds(h: Handle, link: Link)
    ensures OwnEnds(h, PrepareRead(h, link).0)
  {
    hide RecvFrames;
  }

  lemma UpdateOwnEnds(h: Handle, link: Link)
    ensures OwnEnds(h, SendWindowUpdate(h, link).0)
  {
  }

  lemma WriteOwnEnds(h: Handle, buf: Bytes, link: Link)
    ensures OwnEnds(h, PollWrite(h, buf, link).0)
  {
    var h1 := AfterReceipt(h, link);
    ReceiptOwnEnds(h, link);
    hide RecvFrames, RecvFramesWake;
    SendDataOwnEnds(h1, buf[..Min(h1.sendWindow, |buf|)], link);
    hide SendData;
  }

  lemma ReceiptOwnEnds(h: Handle, link: Link)
    ensures OwnEnds(h, AfterReceipt(h, link))
  {
    hide RecvFrames;
  }

  lemma SendDataOwnEnds(h: Handle, data: Bytes, link: Link)
    requires |data| <= MAX_U32
    ensures OwnEnds(h, SendData(h, data, link).0)
  {
  }

  lemma CloseOwnEnds(h: Handle, link: Link)
    ensures OwnEnds(h, Close(h, link).0)
  {
  }

  lemma DropOwnEnds(h: Handle, link: Link)
    ensures OwnEnds(h, DropHandle(h, link))
  {
  }

  lemma UseOwnEnds(h: Handle, op: HandleOp, link: Link)
    ensures OwnEnds(h, Apply(h, op, link))
  {
    match op {
      case Read(cap) =>
        ReadOwnEnds(h, link);
        var h1 := PrepareRead(h, link).0;
        var (out, rest) := ReadChunks(h1.readBuf, cap);
        UpdateOwnEnds(h1.(readBuf := rest, consumed := h1.consumed + out), link);
        hide PrepareRead, ReadChunks, SendWindowUpdate;
      case Peek(_) =>
        ReadOwnEnds(h, link);
        hide PrepareRead, ReadChunks;
      case Write(buf) =>
        WriteOwnEnds(h, buf, link);
        hide PollWrite;
      case Shutdown =>
        CloseOwnEnds(h, link);
        hide Close;
      case Drop =>
        DropOwnEnds(h, link);
        hide DropHandle;
    }
  }

  lemma UseKeeps(s: Session, other: StreamId, op: HandleOp, id: StreamId)
    requires Lost(s, id) && other in s.reg.handles && other != id
    ensures Lost(UseHandle(s, other, op), id)
  {
    var h, link := s.reg.handles[other], Link(other in s.reg.streams, !s.reg.gone);
    UseOwnEnds(h, op, link);
    hide Apply;
    var more := Apply(h, op, link).sent[|h.sent|..];
    assert ClosedEvent(id) !in more;
  }

  lemma OpenKeeps(s: Session, id: StreamId)
    requires Lost(s, id)
    ensures Lost(OpenStream(s).0, id)
  {
    if s.reg.nextStreamId + 2 <= MAX_U32 {
      var s1 := s.(reg := s.reg.(nextStreamId := s.reg.nextStreamId + 2));
      AddStreamKeeps(s1, s.reg.nextStreamId, true, id);
    }
    hide AddStream;
  }

  lemma ReceiveKeeps(s: Session, f: Frame, k: nat, id: StreamId)
    requires Lost(s, id) && f.Id() != id
    ensures Lost(HandleFrameFromPeer(s, f, k).0, id)
  {
    SendKeeps(s, HandleFrameFromPeer(s, f, k).0, id);
  }

  lemma EventKeeps(s: Session, k: nat, id: StreamId)
    requires Lost(s, id) && s.events != []
    ensures Lost(HandleEvent(s, k).0, id)
  {
    var s0 := s.(events := s.events[1..]);
    assert s.events[0] != ClosedEvent(id);
    assert Lost(s0, id);
    match s.events[0] {
      case FrameEvent(f) => SendKeeps(s0, SendFrame(s0, f, k).0, id);
      case ClosedEvent(other) => FreeKeeps(s0, other, id);
      case GoAwayEvent => SendKeeps(s0, SendGoAwayWithCode(s0, ProtocolError, k).0, id);
    }
    hide Lost, SendFrame, SendGoAwayWithCode;
  }

  lemma FreeKeeps(s: Session, other: StreamId, id: StreamId)
    requires Lost(s, id) && other != id
    ensures Lost(s.(reg := s.reg.(streams := s.reg.streams - {other})), id)
  {
  }

  /** Sending, accepting, the timer and the end of the input leave the streams alone. */
  lemma RestKeeps(s: Session, h: Happening, id: StreamId)
    requires Lost(s, id) && Enabled(s, h.incoming, h.act)
    requires h.act.Accept? || h.act.Flush? || h.act.SayGoAway? || h.act.Timer? || h.act.Eof?
    ensures Lost(Act(s, h.incoming, h.act).0, id)
  {
    SendKeeps(s, Act(s, h.incoming, h.act).0, id);
  }

  /** Whatever the session does, short of being dropped, the slot stays taken. */
  lemma LostStays(s: Session, h: Happening, id: StreamId)
    requires Lost(s, id) && Spares(h, id)
    ensures Lost(Happens(s, h), id)
  {
    if Enabled(s, h.incoming, h.act) {
      match h.act {
        case Open => OpenKeeps(s, id);
        case Receive(k) => ReceiveKeeps(s, h.incoming[0], k, id);
        case Distribute(ready, k) => DistributeKeeps(s, ready, k, id);
        case Event(k) => EventKeeps(s, k, id);
        case Use(other, op) => UseKeeps(s, other, op, id);
        case _ => RestKeeps(s, h, id);
      }
      hide OpenStream, HandleFrameFromPeer, DistributeNext, HandleEvent, UseHandle, SendGoAwayWithCode, Tick, SendAll;
    }
  }

  /** In every run that does not drop the session, a lost slot stays lost. */
  lemma {:induction false} RunLost(s: Session, hs: seq<Happening>, id: StreamId)
    requires Lost(s, id) && forall i :: 0 <= i < |hs| ==> Spares(hs[i], id)
    ensures Lost(RunSession(s, hs), id)
    decreases |hs|
  {
    hide Lost, Spares, Happens;
    if hs != [] {
      LostStays(s, hs[0], id);
      RunLost(Happens(s, hs[0]), hs[1..], id);
    }
  }

  // -------------------------------------------------------- what a lost slot costs

  predicate IsSuffix<T(==)>(a: seq<T>, b: seq<T>) { |a| <= |b| && a == b[|b| - |a|..] }

  /** No stream of the peer has been accepted since: at most some were handed to the user. */
  predicate AcceptsNone(s: Session, s': Session) {
    s'.reg.config == s.reg.config && IsSuffix(s'.pendingStreams, s.pendingStreams)
  }

  lemma FullDistributes(s: Session, ready: bool, k: nat)
    requires |s.reg.streams| >= s.reg.config.maxStreamCount && s.taken != []
    ensures AcceptsNone(s, DistributeNext(s, ready, k).0)
  {
    var f, s0 := s.taken[0], s.(taken := s.taken[1..]);
    if f.FlagsOf().syn {
      FullTurnsDown(s0, f, ready, k);
    }
    hide Route, DistributeSyn;
  }

  lemma FullTurnsDown(s: Session, f: Frame, ready: bool, k: nat)
    requires |s.reg.streams| >= s.reg.config.maxStreamCount
    ensures AcceptsNone(s, DistributeSyn(s, f, ready, k).0)
  {
    hide Route, AddStream, SendGoAwayWithCode;
  }

  lemma ReceiveAcceptsNone(s: Session, f: Frame, k: nat)
    ensures AcceptsNone(s, HandleFrameFromPeer(s, f, k).0)
  {
  }

  lemma OthersAcceptNone(s: Session, h: Happening)
    requires Enabled(s, h.incoming, h.act) && !h.act.Distribute?
    ensures AcceptsNone(s, Act(s, h.incoming, h.act).0)
  {
    hide CreateHandle, Apply;
    match h.act {
      case Receive(k) =>
        ReceiveAcceptsNone(s, h.incoming[0], k);
        hide HandleFrameFromPeer;
      case Open =>
        assert AcceptsNone(s, OpenStream(s).0);
        hide OpenStream;
      case Event(k) =>
        assert AcceptsNone(s, HandleEvent(s, k).0);
        hide HandleEvent;
      case Use(_, _) =>
      case _ =>
    }
  }

  /** While the table is full, no request for a stream is accepted. */
  lemma FullAcceptsNone(s: Session, h: Happening)
    requires |s.reg.streams| >= s.reg.config.maxStreamCount
    ensures AcceptsNone(s, Happens(s, h))
  {
    if Enabled(s, h.incoming, h.act) {
      if h.act.Distribute? {
        FullDistributes(s, h.act.ready, h.act.k);
        hide DistributeNext;
      } else {
        OthersAcceptNone(s, h);
        hide Act;
      }
    }
  }

  lemma SubsetSize(a: set<StreamId>, b: set<StreamId>)
    requires a <= b
    ensures |a| <= |b|
  {
    assert b == a + (b - a);
  }

  /**
   * Once as many slots are lost as the configuration allows streams, no run accepts another stream of
   * the peer: nothing is ever added to those waiting to be accepted.
   */
  lemma {:induction false} LostSlotsShutOut(s: Session, hs: seq<Happening>, lost: set<StreamId>)
    requires |lost| >= s.reg.config.maxStreamCount && forall id :: id in lost ==> Lost(s, id)
    requires forall i, id :: 0 <= i < |hs| && id in lost ==> Spares(hs[i], id)
    ensures AcceptsNone(s, RunSession(s, hs))
    decreases |hs|
  {
    if hs != [] {
      assert lost <= s.reg.streams;
      SubsetSize(lost, s.reg.streams);
      FullAcceptsNone(s, hs[0]);
      forall id | id in lost
        ensures Lost(Happens(s, hs[0]), id)
      {
        LostStays(s, hs[0], id);
      }
      hide Lost, Spares, Happens;
      LostSlotsShutOut(Happens(s, hs[0]), hs[1..], lost);
    }
  }

  // ------------------------------------------------------------ how a slot is freed

  /** The session has been told of the end of the stream, and has nothing left to hear of it. */
  predicate ToldOf(s: Session, id: StreamId) {
    id in s.reg.handles && ClosedEvent(id) in s.reg.handles[id].sent && ClosedEvent(id) !in s.events
  }

  /** Every stream the session has been told of is out of the table. */
  ghost predicate Freed(s: Session) {
    forall id :: ToldOf(s, id) ==> id !in s.reg.streams
  }

  /** Nothing is told that was not, and nothing comes back into the table. */
  lemma FewerFreed(s: Session, s': Session)
    requires Freed(s) && s'.reg.streams <= s.reg.streams && s'.events == s.events
    requires forall id :: id in s'.reg.handles ==>
      id in s.reg.handles && s'.reg.handles[id].sent == s.reg.handles[id].sent
    ensures Freed(s')
  {
    assert forall id :: ToldOf(s', id) ==> ToldOf(s, id);
  }

  lemma AddStreamFreed(s: Session, id: StreamId, opener: bool)
    requires Freed(s)
    ensures var r := AddStream(s, id, opener); r.Success? ==> Freed(r.value)
  {
    NoEndAnnounced(id, opener, s.reg.config.maxStreamWindowSize);
    hide CreateHandle;
    var r := AddStream(s, id, opener);
    if r.Success? {
      assert forall j :: ToldOf(r.value, j) ==> j != id && ToldOf(s, j);
    }
  }

  lemma RouteFreed(s: Session, f: Frame, ready: bool)
    requires Freed(s)
    ensures Freed(Route(s, f, ready))
  {
    RouteKeepsSent(s, f, ready);
    hide Freed, Route;
    FewerFreed(s, Route(s, f, ready));
  }

  lemma RouteKeepsSent(s: Session, f: Frame, ready: bool)
    ensures var reg := Route(s, f, ready).reg;
      && reg.streams <= s.reg.streams
      && forall id :: id in reg.handles ==> id in s.reg.handles && reg.handles[id].sent == s.reg.handles[id].sent
  {
    var to, before, after := f.Id(), s.reg.handles, Route(s, f, ready).reg.handles;
    assert Route(s, f, ready).reg.streams <= s.reg.streams;
    assert after == before || (to in before && after == before[to := Deliver(before[to], f)]);
    hide Route;
  }

  lemma DistributeFreed(s: Session, ready: bool, k: nat)
    requires Freed(s) && s.taken != []
    ensures Freed(DistributeNext(s, ready, k).0)
  {
    var f, s0 := s.taken[0], s.(taken := s.taken[1..]);
    hide Freed;
    FewerFreed(s, s0);
    if f.Id() in s.blocked {
      FewerFreed(s, s0.(readPending := s.readPending + [f]));
    } else if f.FlagsOf().syn {
      DistributeSynFreed(s0, f, ready, k);
    } else {
      RouteFreed(s0, f, ready);
    }
    hide Route, DistributeSyn;
  }

  lemma DistributeSynFreed(s: Session, f: Frame, ready: bool, k: nat)
    requires Freed(s)
    ensures Freed(DistributeSyn(s, f, ready, k).0)
  {
    hide Freed;
    var added := AddStream(s, f.Id(), false);
    AddStreamFreed(s, f.Id(), false);
    if added.Success? {
      var s1 := added.value.(pendingStreams := s.pendingStreams + [f.Id()]);
      FewerFreed(added.value, s1);
      RouteFreed(s1, f, ready);
    }
    hide AddStream;
    var reply := NewWindowUpdate(AckFlag.(rst := true), f.Id(), 0);
    var s2 := s.(reg := Refuse(s.reg, f, reply), writePending := s.writePending + [reply]);
    FewerFreed(s, s2);
    RouteFreed(s2, f, ready);
    hide Route;
    if s.localGoAway || (added.Failure? && |s.reg.streams| < s.reg.config.maxStreamCount) {
      var s' := DistributeSyn(s, f, ready, k).0;
      if s.localGoAway || |s.pendingStreams| < s.reg.config.acceptBacklog {
        FewerFreed(s, s');
      }
    }
  }

  lemma EventFreed(s: Session, k: nat)
    requires Freed(s) && s.events != []
    ensures Freed(HandleEvent(s, k).0)
  {
    var s' := HandleEvent(s, k).0;
    assert s'.reg.handles == s.reg.handles && s'.events == s.events[1..];
    assert s'.reg.streams == if s.events[0].ClosedEvent? then s.reg.streams - {s.events[0].id} else s.reg.streams;
    hide HandleEvent;
    forall id | ToldOf(s', id)
      ensures id !in s'.reg.streams
    {
      assert s.events == [s.events[0]] + s.events[1..];
      if s.events[0] != ClosedEvent(id) {
        assert ToldOf(s, id);
      }
    }
  }

  lemma UseFreed(s: Session, used: StreamId, op: HandleOp)
    requires Freed(s) && used in s.reg.handles
    ensures Freed(UseHandle(s, used, op))
  {
    var h, link := s.reg.handles[used], Link(used in s.reg.streams, !s.reg.gone);
    var h', s' := Apply(h, op, link), UseHandle(s, used, op);
    assert h'.sent == h.sent + h'.sent[|h.sent|..];
    hide Apply;
    forall id | ToldOf(s', id)
      ensures id !in s'.reg.streams
    {
      assert ToldOf(s, id);
    }
  }

  lemma HappensFreed(s: Session, h: Happening)
    requires Freed(s)
    ensures Freed(Happens(s, h))
  {
    if Enabled(s, h.incoming, h.act) {
      hide Freed;
      match h.act {
        case Open =>
          var s1 := s.(reg := s.reg.(nextStreamId := Min(s.reg.nextStreamId + 2, MAX_U32)));
          FewerFreed(s, s1);
          AddStreamFreed(s1, s.reg.nextStreamId, true);
          hide AddStream;
        case Distribute(ready, k) =>
          DistributeFreed(s, ready, k);
          hide DistributeNext;
        case Event(k) =>
          EventFreed(s, k);
          hide HandleEvent;
        case Use(id, op) =>
          UseFreed(s, id, op);
          hide UseHandle;
        case DropSession => assert Freed(Happens(s, h)) by { AllFreed(Happens(s, h)); }
        case _ => RestFreed(s, h);
      }
    }
  }

  lemma AllFreed(s: Session)
    requires s.reg.streams == {}
    ensures Freed(s)
  {
  }

  lemma RestFreed(s: Session, h: Happening)
    requires Freed(s) && Enabled(s, h.incoming, h.act)
    requires h.act.Accept? || h.act.Receive? || h.act.Flush? || h.act.SayGoAway? || h.act.Timer? || h.act.Eof?
    ensures Freed(Act(s, h.incoming, h.act).0)
  {
    var s' := Act(s, h.incoming, h.act).0;
    assert s'.reg == s.reg && s'.events == s.events;
    hide Act, Freed;
    FewerFreed(s, s');
  }

  lemma {:induction false} RunFreed(s: Session, hs: seq<Happening>)
    requires Freed(s)
    ensures Freed(RunSession(s, hs))
    decreases |hs|
  {
    hide Freed, Happens;
    if hs != [] {
      HappensFreed(s, hs[0]);
      RunFreed(Happens(s, hs[0]), hs[1..]);
    }
  }

  /**
   * In every run of a session, whatever its peer sends: a stream whose handle has told the session of
   * its end, and of which no such event is still queued, has no slot in the table.
   */
  lemma ToldIsFreed(ty: SessionType, config: Config, hs: seq<Happening>, id: StreamId)
    requires ToldOf(RunSession(NewSession(ty, config), hs), id)
    ensures id !in RunSession(NewSession(ty, config), hs).reg.streams
  {
    RunFreed(NewSession(ty, config), hs);
  }

  /**
   * A slot is freed for a reason: the session hears of the end of the stream, a frame of the stream
   * finds its handle dropped, or the session is dropped. Nothing else empties one.
   */
  lemma FreedForAReason(s: Session, h: Happening, id: StreamId)
    requires id in s.reg.streams && id !in Happens(s, h).reg.streams
    ensures match h.act
      case Event(_) => s.events != [] && s.events[0] == ClosedEvent(id)
      case Distribute(_, _) =>
        s.taken != [] && s.taken[0].Id() == id && (id in s.reg.handles ==> s.reg.handles[id].dropped)
      case DropSession => true
      case _ => false
  {
    assert Enabled(s, h.incoming, h.act);
    match h.act {
      case Distribute(ready, k) =>
        DistributeKeepsOthers(s, ready, k, id);
        hide DistributeNext;
      case Open =>
        OpenKeepsAll(s, id);
        hide OpenStream;
      case Event(k) =>
        EventFreesOne(s, k, id);
        hide HandleEvent;
      case DropSession =>
      case _ =>
        OthersKeepAll(s, h);
        hide Act;
    }
  }

  lemma OpenKeepsAll(s: Session, id: StreamId)
    ensures id in s.reg.streams ==> id in OpenStream(s).0.reg.streams
  {
    hide CreateHandle;
  }

  lemma EventFreesOne(s: Session, k: nat, id: StreamId)
    requires s.events != []
    ensures id in s.reg.streams && id !in HandleEvent(s, k).0.reg.streams ==> s.events[0] == ClosedEvent(id)
  {
  }

  lemma OthersKeepAll(s: Session, h: Happening)
    requires Enabled(s, h.incoming, h.act)
    requires !h.act.Distribute? && !h.act.Open? && !h.act.Event? && !h.act.DropSession?
    ensures Act(s, h.incoming, h.act).0.reg.streams == s.reg.streams
  {
    hide Apply;
  }

  lemma DistributeKeepsOthers(s: Session, ready: bool, k: nat, id: StreamId)
    requires s.taken != [] && id in s.reg.streams && id !in DistributeNext(s, ready, k).0.reg.streams
    ensures s.taken[0].Id() == id && (id in s.reg.handles ==> s.reg.handles[id].dropped)
  {
    var f, s0 := s.taken[0], s.(taken := s.taken[1..]);
    RouteKeepsOthers(s0, f, ready, id);
    SynKeepsOthers(s0, f, ready, k, id);
    hide Route, DistributeSyn;
  }

  lemma RouteKeepsOthers(s: Session, f: Frame, ready: bool, id: StreamId)
    requires id in s.reg.streams
    ensures id !in Route(s, f, ready).reg.streams ==>
      f.Id() == id && (id in s.reg.handles ==> s.reg.handles[id].dropped)
  {
  }

  lemma SynKeepsOthers(s: Session, f: Frame, ready: bool, k: nat, id: StreamId)
    requires id in s.reg.streams
    ensures id !in DistributeSyn(s, f, ready, k).0.reg.streams ==>
      f.Id() == id && (id in s.reg.handles ==> s.reg.handles[id].dropped)
  {
    var reply := NewWindowUpdate(AckFlag.(rst := true), f.Id(), 0);
    RouteKeepsOthers(s.(reg := Refuse(s.reg, f, reply), writePending := s.writePending + [reply]), f, ready, id);
    var added := AddStream(s, f.Id(), false);
    if added.Success? {
      assert f.Id() !in s.reg.streams && id in added.value.reg.streams;
      RouteKeepsOthers(added.value.(pendingStreams := s.pendingStreams + [f.Id()]), f, ready, id);
    }
    hide Route, AddStream;
  }

  /** A frame that finds the handle of its stream dropped frees the slot. */
  lemma DroppedIsFreed(s: Session, ready: bool, k: nat)
    requires s.taken != [] && !s.taken[0].FlagsOf().syn && s.taken[0].Id() !in s.blocked
    requires s.taken[0].Id() in s.reg.handles && s.reg.handles[s.taken[0].Id()].dropped
    ensures s.taken[0].Id() !in DistributeNext(s, ready, k).0.reg.streams
  {
  }

  // ------------------------------------------------------- how a slot is lost

  /** A session with one stream, its first, and nothing else to do; h is the other end of the stream. */
  ghost predicate Alone(s: Session, h: Handle) {
    && !s.reg.gone && !s.Dead() && s.taken == [] && s.readPending == [] && s.pendingStreams == []
    && s.reg.streams == {1} && s.reg.handles == map[1 := h] && h.id == 1
    && forall e :: e in s.events ==> e in h.sent
  }

  lemma OpenAlone(config: Config)
    ensures var s := Happens(NewSession(Client, config), Happening(Open, []));
      Alone(s, CreateHandle(1, true, config.maxStreamWindowSize))
  {
    NoEndAnnounced(1, true, config.maxStreamWindowSize);
    hide CreateHandle;
  }

  lemma UseAlone(s: Session, h: Handle, op: HandleOp)
    requires Alone(s, h) && !h.dropped
    ensures Alone(Happens(s, Happening(Use(1, op), [])), Apply(h, op, Link(true, true)))
  {
    var h' := Apply(h, op, Link(true, true));
    hide Apply;
    assert forall e :: e in h'.sent[|h.sent|..] ==> e in h'.sent;
    assert s.reg.handles[1 := h'] == map[1 := h'];
  }

  /** A frame comes and is distributed. */
  lemma GiveAlone(s: Session, h: Handle, f: Frame)
    requires Alone(s, h) && !h.dropped && f.Ty() == WindowUpdate && f.Id() == 1 && !f.FlagsOf().syn
    ensures Alone(Happens(Happens(s, Happening(Receive(0), [f])), Happening(Distribute(true, 0), [])), Deliver(h, f))
  {
    var s1 := s.(taken := [f], blocked := {});
    ReceiveAlone(s, h, f);
    assert [f][1..] == [];
    assert s.reg.handles[1 := Deliver(h, f)] == map[1 := Deliver(h, f)];
    assert Happens(s1, Happening(Distribute(true, 0), [])) == Route(s1.(taken := []), f, true);
  }

  lemma ReceiveAlone(s: Session, h: Handle, f: Frame)
    requires Alone(s, h) && f.Ty() == WindowUpdate
    ensures Happens(s, Happening(Receive(0), [f])) == s.(taken := [f], blocked := {})
  {
    assert [] + [f] == [f];
    assert HandleFrameFromPeer(s, f, 0).0 == BeginPass(s, [f]);
  }

  /** The session opens a stream and closes it; the peer accepts it and closes it; it is read, and dropped. */
  function LosingRun(): (hs: seq<Happening>) {
    [Happening(Open, []), Happening(Use(1, Shutdown), []),
     Happening(Receive(0), [FirstFrame(1, true)]), Happening(Distribute(true, 0), []),
     Happening(Receive(0), [FinFrame(1)]), Happening(Distribute(true, 0), []),
     Happening(Use(1, Read(1)), []), Happening(Use(1, Drop), [])]
  }

  lemma RunSessionCons(s: Session, hs: seq<Happening>, i: nat)
    requires i < |hs|
    ensures RunSession(s, hs[i..]) == RunSession(Happens(s, hs[i]), hs[i + 1..])
  {
    assert hs[i..][1..] == hs[i + 1..];
    hide Happens;
  }

  /** Slots do get lost, in any configuration: this run of a new session loses the first. */
  lemma SlotIsLost(config: Config)
    requires INITIAL_STREAM_WINDOW <= config.maxStreamWindowSize
    ensures Lost(RunSession(NewSession(Client, config), LosingRun()), 1)
  {
    var hs, link := LosingRun(), Link(true, true);
    var h1 := CreateHandle(1, true, config.maxStreamWindowSize);
    var h2 := Apply(h1, Shutdown, link);
    var h3 := Deliver(h2, FirstFrame(1, true));
    var h4 := Deliver(h3, FinFrame(1));
    var h5 := Apply(h4, Read(1), link);
    BothClose(1, true, config.maxStreamWindowSize);
    assert !h1.dropped;
    hide CreateHandle, Apply, Happens, Alone;
    var s0 := NewSession(Client, config);
    var s1 := Happens(s0, hs[0]);
    OpenAlone(config);
    var s2 := Happens(s1, hs[1]);
    UseAlone(s1, h1, Shutdown);
    var s3 := Happens(Happens(s2, hs[2]), hs[3]);
    GiveAlone(s2, h2, FirstFrame(1, true));
    var s4 := Happens(Happens(s3, hs[4]), hs[5]);
    GiveAlone(s3, h3, FinFrame(1));
    var s5 := Happens(s4, hs[6]);
    UseAlone(s4, h4, Read(1));
    var s6 := Happens(s5, hs[7]);
    UseAlone(s5, h5, Drop);
    LosingRunEnds(s0, hs);
    AloneIsLost(s6, Apply(h5, Drop, link));
  }

  lemma LosingRunEnds(s: Session, hs: seq<Happening>)
    requires |hs| == 8
    ensures RunSession(s, hs)
      == Happens(Happens(Happens(Happens(Happens(Happens(Happens(Happens(s,
           hs[0]), hs[1]), hs[2]), hs[3]), hs[4]), hs[5]), hs[6]), hs[7])
  {
    hide Happens;
    var s1 := Happens(s, hs[0]);
    var s2 := Happens(s1, hs[1]);
    var s3 := Happens(s2, hs[2]);
    var s4 := Happens(s3, hs[3]);
    var s5 := Happens(s4, hs[4]);
    var s6 := Happens(s5, hs[5]);
    var s7 := Happens(s6, hs[6]);
    assert hs[0..] == hs && hs[8..] == [];
    RunSessionCons(s, hs, 0);
    RunSessionCons(s1, hs, 1);
    RunSessionCons(s2, hs, 2);
    RunSessionCons(s3, hs, 3);
    RunSessionCons(s4, hs, 4);
    RunSessionCons(s5, hs, 5);
    RunSessionCons(s6, hs, 6);
    RunSessionCons(s7, hs, 7);
  }

  lemma AloneIsLost(s: Session, h: Handle)
    requires Alone(s, h) && h.dropped && ClosedEvent(1) !in h.sent
    ensures Lost(s, 1)
  {
  }

  // ------------------------------------------------------------- limits and ids

  /** How many streams a run opens from this side, at most. */
  function Openings(hs: seq<Happening>): (n: nat) {
    if hs == [] then 0 else (if hs[0].act.Open? then 1 else 0) + Openings(hs[1..])
  }

  /** The backlog is within its limit, and so is the table but for streams of our own. */
  predicate Capped(s: Session, own: nat) {
    && |s.pendingStreams| <= s.reg.config.acceptBacklog
    && |s.reg.streams| <= s.reg.config.maxStreamCount + own
  }

  lemma SynCapped(s: Session, f: Frame, ready: bool, k: nat, own: nat)
    requires Capped(s, own)
    ensures var s' := DistributeSyn(s, f, ready, k).0; Capped(s', own) && s'.reg.config == s.reg.config
  {
    hide CreateHandle;
    var added := AddStream(s, f.Id(), false);
    if added.Success? {
      RouteShrinks(added.value.(pendingStreams := s.pendingStreams + [f.Id()]), f, ready);
    }
    var reply := NewWindowUpdate(AckFlag.(rst := true), f.Id(), 0);
    RouteShrinks(s.(reg := Refuse(s.reg, f, reply), writePending := s.writePending + [reply]), f, ready);
    hide Route;
  }

  lemma RouteShrinks(s: Session, f: Frame, ready: bool)
    ensures |Route(s, f, ready).reg.streams| <= |s.reg.streams|
  {
    SubsetSize(Route(s, f, ready).reg.streams, s.reg.streams);
  }

  lemma DistributeCapped(s: Session, ready: bool, k: nat, own: nat)
    requires Capped(s, own) && s.taken != []
    ensures var s' := DistributeNext(s, ready, k).0; Capped(s', own) && s'.reg.config == s.reg.config
  {
    var f, s0 := s.taken[0], s.(taken := s.taken[1..]);
    SynCapped(s0, f, ready, k, own);
    RouteShrinks(s0, f, ready);
    hide DistributeSyn, Route;
  }

  lemma HappensCapped(s: Session, h: Happening, own: nat)
    requires Capped(s, own)
    ensures var s' := Happens(s, h);
      Capped(s', own + (if h.act.Open? then 1 else 0)) && s'.reg.config == s.reg.config
  {
    hide CreateHandle, Apply;
    if Enabled(s, h.incoming, h.act) {
      match h.act {
        case Distribute(ready, k) =>
          DistributeCapped(s, ready, k, own);
          hide DistributeNext;
        case Open =>
          assert |OpenStream(s).0.reg.streams| <= |s.reg.streams| + 1;
          hide OpenStream;
        case _ =>
          OthersGrow(s, h);
          OthersAcceptNone(s, h);
          SubsetSize(Act(s, h.incoming, h.act).0.reg.streams, s.reg.streams);
          hide Act;
      }
    }
  }

  /** Whatever the peer asks for, no more streams wait, and no more are in the table, than configured. */
  lemma {:induction false} LimitsHold(s: Session, hs: seq<Happening>, own: nat)
    requires Capped(s, own)
    ensures Capped(RunSession(s, hs), own + Openings(hs)) && RunSession(s, hs).reg.config == s.reg.config
    decreases |hs|
  {
    hide Capped, Happens;
    if hs != [] {
      HappensCapped(s, hs[0], own);
      LimitsHold(Happens(s, hs[0]), hs[1..], own + (if hs[0].act.Open? then 1 else 0));
    }
  }

  /** Ids of our own were given out one after the other: every one below the next has a handle. */
  ghost predicate Dense(reg: Registry) {
    && reg.streams <= reg.handles.Keys
    && FirstStreamId(reg.ty) <= reg.nextStreamId
    && forall id :: FirstStreamId(reg.ty) <= id < reg.nextStreamId && id % 2 == reg.nextStreamId % 2 ==>
         id in reg.handles
  }

  lemma GrownDense(reg: Registry, reg': Registry)
    requires Dense(reg) && reg'.ty == reg.ty && reg'.nextStreamId == reg.nextStreamId
    requires reg.handles.Keys <= reg'.handles.Keys && reg'.streams <= reg'.handles.Keys
    ensures Dense(reg')
  {
  }

  lemma OpenDense(s: Session)
    requires Dense(s.reg)
    ensures Dense(OpenStream(s).0.reg)
  {
    hide CreateHandle;
  }

  lemma RouteDense(s: Session, f: Frame, ready: bool)
    requires Dense(s.reg)
    ensures Dense(Route(s, f, ready).reg)
  {
    assert s.reg.streams <= s.reg.handles.Keys;
    hide Dense;
    GrownDense(s.reg, Route(s, f, ready).reg);
  }

  lemma HeldHaveHandles(reg: Registry)
    requires Dense(reg)
    ensures reg.streams <= reg.handles.Keys
  {
  }

  lemma AddStreamDense(s: Session, id: StreamId, opener: bool)
    requires Dense(s.reg)
    ensures AddStream(s, id, opener).Success? ==> Dense(AddStream(s, id, opener).value.reg)
  {
    HeldHaveHandles(s.reg);
    hide CreateHandle, Dense;
    var added := AddStream(s, id, opener);
    if added.Success? {
      GrownDense(s.reg, added.value.reg);
    }
  }

  lemma SynDense(s: Session, f: Frame, ready: bool, k: nat)
    requires Dense(s.reg)
    ensures Dense(DistributeSyn(s, f, ready, k).0.reg)
  {
    hide CreateHandle, Dense;
    var added := AddStream(s, f.Id(), false);
    AddStreamDense(s, f.Id(), false);
    if added.Success? {
      RouteDense(added.value.(pendingStreams := s.pendingStreams + [f.Id()]), f, ready);
    }
    hide AddStream;
    assert s.reg.streams <= s.reg.handles.Keys by { HeldHaveHandles(s.reg); }
    var reply := NewWindowUpdate(AckFlag.(rst := true), f.Id(), 0);
    var s2 := s.(reg := Refuse(s.reg, f, reply), writePending := s.writePending + [reply]);
    GrownDense(s.reg, s2.reg);
    RouteDense(s2, f, ready);
    hide Route;
    GrownDense(s.reg, Refuse(s.reg, f, NewWindowUpdate(RstFlag, f.Id(), 0)));
  }

  lemma HappensDense(s: Session, h: Happening)
    requires Dense(s.reg)
    ensures Dense(Happens(s, h).reg)
  {
    if Enabled(s, h.incoming, h.act) {
      hide Dense;
      match h.act {
        case Open =>
          OpenDense(s);
          hide OpenStream;
        case Distribute(ready, k) =>
          var f, s0 := s.taken[0], s.(taken := s.taken[1..]);
          SynDense(s0, f, ready, k);
          RouteDense(s0, f, ready);
          hide DistributeSyn, Route;
        case _ =>
          OthersDense(s, h);
          hide Act;
      }
    }
  }

  lemma OthersDense(s: Session, h: Happening)
    requires Dense(s.reg) && Enabled(s, h.incoming, h.act) && !h.act.Open? && !h.act.Distribute?
    ensures Dense(Act(s, h.incoming, h.act).0.reg)
  {
    assert s.reg.streams <= s.reg.handles.Keys;
    OthersGrow(s, h);
    hide Act, Dense;
    GrownDense(s.reg, Act(s, h.incoming, h.act).0.reg);
  }

  lemma OthersGrow(s: Session, h: Happening)
    requires Enabled(s, h.incoming, h.act) && !h.act.Open? && !h.act.Distribute?
    ensures var reg := Act(s, h.incoming, h.act).0.reg;
      && reg.ty == s.reg.ty && reg.nextStreamId == s.reg.nextStreamId
      && reg.handles.Keys == s.reg.handles.Keys && reg.streams <= s.reg.streams
  {
    match h.act {
      case Use(id, op) =>
        UseKeepsKeys(s, id, op);
        hide UseHandle;
      case Event(k) =>
        assert HandleEvent(s, k).0.reg == s.reg.(streams := HandleEvent(s, k).0.reg.streams);
        assert HandleEvent(s, k).0.reg.streams <= s.reg.streams;
        hide HandleEvent;
      case Open =>
      case Distribute(_, _) =>
      case DropSession =>
      case _ =>
        OthersKeepRegistry(s, h);
        hide Act;
    }
  }

  lemma UseKeepsKeys(s: Session, id: StreamId, op: HandleOp)
    requires id in s.reg.handles
    ensures var reg := UseHandle(s, id, op).reg;
      reg == s.reg.(handles := reg.handles) && reg.handles.Keys == s.reg.handles.Keys
  {
    hide Apply;
  }

  lemma OthersKeepRegistry(s: Session, h: Happening)
    requires Enabled(s, h.incoming, h.act)
    requires !h.act.Distribute? && !h.act.Open? && !h.act.Event? && !h.act.DropSession? && !h.act.Use?
    ensures Act(s, h.incoming, h.act).0.reg == s.reg
  {
  }

  /** In every run, whatever the peer sends, ids of our own are given out without a gap. */
  lemma {:induction false} IdsInTurn(s: Session, hs: seq<Happening>)
    requires Dense(s.reg)
    ensures Dense(RunSession(s, hs).reg)
    decreases |hs|
  {
    hide Dense, Happens;
    if hs != [] {
      HappensDense(s, hs[0]);
      IdsInTurn(Happens(s, hs[0]), hs[1..]);
    }
  }

  lemma NewSessionGood(ty: SessionType, config: Config)
    ensures var s := NewSession(ty, config); Dense(s.reg) && Capped(s, 0) && Freed(s)
  {
  }
}
