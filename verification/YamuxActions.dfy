/** Every action of a session keeps the invariant of the two joined sessions, and so does every run. */
module YamuxActions {
  import opened ByteStrings
  import opened YamuxFrame
  import opened YamuxStream
  import opened YamuxStreamLaws
  import opened YamuxStreamTrace
  import opened YamuxQueues
  import opened YamuxTransport
  import opened YamuxSession
  import opened YamuxNetwork
  import opened YamuxSteps
  import opened YamuxDistribution

  // ------------------------------------------------- putting a pair together

  /** The parts of the invariant that an action of x has to restore. */
  lemma Rejoin(x: Session, out: seq<Frame>, y: Session, inc: seq<Frame>, x': Session, fs: seq<Frame>, n: nat)
    requires PairOk(x, out, y, inc) && SessionOk(x') && AllSendable(fs) && x'.reg.ty == x.reg.ty && n <= |inc|
    requires forall id :: Fifo(TxOf(x', id), out + fs, RxOf(y, id), id) && Fifo(TxOf(y, id), inc[n..], RxOf(x', id), id)
    ensures PairOk(x', out + fs, y, inc[n..])
  {
    hide SessionOk, Fifo;
    forall id
      ensures Joined(x', out + fs, y, inc[n..], id)
    {
      assert Fifo(TxOf(x', id), out + fs, RxOf(y, id), id) && Fifo(TxOf(y, id), inc[n..], RxOf(x', id), id);
    }
  }

  /** The same when nothing has moved on either wire. */
  lemma RejoinInPlace(x: Session, out: seq<Frame>, y: Session, inc: seq<Frame>, x': Session)
    requires PairOk(x, out, y, inc) && SessionOk(x') && x'.reg.ty == x.reg.ty
    requires forall id :: Joined(x', out, y, inc, id)
    ensures PairOk(x', out, y, inc)
  {
    hide SessionOk, Joined;
  }

  /** Only the queue to the wire changes. */
  lemma WriteStep(x: Session, out: seq<Frame>, y: Session, inc: seq<Frame>, k: nat)
    requires PairOk(x, out, y, inc)
    ensures var (x', fs) := SendAll(x, k); PairOk(x', out + fs, y, inc)
  {
    hide Fifo, SessionOk, TxOf, RxOf;
    var (x', fs) := SendAll(x, k);
    SendAllOk(x, k);
    forall id
      ensures Fifo(TxOf(x', id), out + fs, RxOf(y, id), id) && Fifo(TxOf(y, id), inc[0..], RxOf(x', id), id)
    {
      assert Joined(x, out, y, inc, id);
      SendAllTx(x, out, RxOf(y, id), id, k);
      assert inc[0..] == inc;
    }
    Rejoin(x, out, y, inc, x', fs, 0);
    assert inc[0..] == inc;
  }

  lemma PingStep(x: Session, out: seq<Frame>, y: Session, inc: seq<Frame>, f: Frame)
    requires PairOk(x, out, y, inc) && f.WellFormed() && f.Ty() == Ping
    ensures PairOk(x.(writePending := x.writePending + [f]), out, y, inc)
  {
    var x' := x.(writePending := x.writePending + [f]);
    assert SessionOk(x') by { hide RegistryOk, EventsOk, PassOk; }
    forall id
      ensures Fifo(TxOf(x', id), out + [], RxOf(y, id), id) && Fifo(TxOf(y, id), inc[0..], RxOf(x', id), id)
    {
      assert Joined(x, out, y, inc, id);
      hide Fifo;
      PushPingTx(x, out, RxOf(y, id), id, f);
      assert inc[0..] == inc && out + [] == out;
    }
    Rejoin(x, out, y, inc, x', [], 0);
    assert inc[0..] == inc && out + [] == out;
  }

  /** The session stops, losing at most the front of its queue, and keeps what it has received. */
  lemma StopStep(x: Session, out: seq<Frame>, y: Session, inc: seq<Frame>, x': Session, cut: seq<Frame>)
    requires PairOk(x, out, y, inc) && SessionOk(x') && x'.Dead() && x'.reg.ty == x.reg.ty
    requires x'.reg.handles == x.reg.handles && x'.reg.refused == x.reg.refused
    requires x'.readPending == x.readPending && x'.taken == x.taken
    requires x.writePending + FramesOf(x.events) == cut + (x'.writePending + FramesOf(x'.events))
    ensures PairOk(x', out, y, inc)
  {
    hide SessionOk, Fifo;
    forall id
      ensures Fifo(TxOf(x', id), out + [], RxOf(y, id), id) && Fifo(TxOf(y, id), inc[0..], RxOf(x', id), id)
    {
      assert Joined(x, out, y, inc, id);
      TxDie(TxOf(x, id), TxOf(x', id), out, RxOf(y, id), id, cut);
      DeadRx(x, x', TxOf(y, id), inc, inc, id);
      assert inc[0..] == inc && out + [] == out;
    }
    Rejoin(x, out, y, inc, x', [], 0);
    assert inc[0..] == inc && out + [] == out;
  }

  lemma GoAwayStep(x: Session, out: seq<Frame>, y: Session, inc: seq<Frame>, k: nat)
    requires PairOk(x, out, y, inc) && x.taken == []
    ensures var (x', fs) := SendGoAwayWithCode(x, Normal, k); PairOk(x', out + fs, y, inc)
  {
    hide SessionOk, Fifo;
    var (x', fs) := SendGoAwayWithCode(x, Normal, k);
    GoAwayOk(x, k);
    forall id
      ensures Fifo(TxOf(x', id), out + fs, RxOf(y, id), id) && Fifo(TxOf(y, id), inc[0..], RxOf(x', id), id)
    {
      assert Joined(x, out, y, inc, id);
      GoAwayTx(x, out, RxOf(y, id), id, Normal, k);
      assert inc[0..] == inc;
      if x'.Dead() {
        DeadRx(x, x', TxOf(y, id), inc, inc, id);
      } else {
        assert RxOf(x', id) == RxOf(x, id);
      }
    }
    Rejoin(x, out, y, inc, x', fs, 0);
    assert inc[0..] == inc;
  }

  // ------------------------------------------------------------------- events

  /** A frame of a stream moves from the event queue to the write queue. */
  lemma FrameEventStep(x: Session, out: seq<Frame>, y: Session, inc: seq<Frame>)
    requires PairOk(x, out, y, inc) && x.events != [] && x.events[0].FrameEvent?
    ensures PairOk(x.(events := x.events[1..], writePending := x.writePending + [x.events[0].frame]), out, y, inc)
  {
    var f := x.events[0].frame;
    var x' := x.(events := x.events[1..], writePending := x.writePending + [f]);
    assert SessionOk(x') by {
      assert EventOk(x.reg, x.events[0]);
      hide RegistryOk, PassOk;
    }
    hide SessionOk, Fifo;
    assert FramesOf(x.events) == [f] + FramesOf(x.events[1..]);
    Assoc(x.writePending, [f], FramesOf(x.events[1..]));
    forall id
      ensures Fifo(TxOf(x', id), out + [], RxOf(y, id), id) && Fifo(TxOf(y, id), inc[0..], RxOf(x', id), id)
    {
      assert Joined(x, out, y, inc, id);
      assert TxOf(x', id) == TxOf(x, id) && RxOf(x', id) == RxOf(x, id);
      assert inc[0..] == inc && out + [] == out;
    }
    Rejoin(x, out, y, inc, x', [], 0);
    assert inc[0..] == inc && out + [] == out;
  }

  lemma ClosedEventOk(x: Session, closed: StreamId)
    requires SessionOk(x) && x.events != [] && x.events[0] == ClosedEvent(closed)
    ensures SessionOk(x.(events := x.events[1..], reg := x.reg.(streams := x.reg.streams - {closed})))
    ensures closed in x.reg.handles
  {
    hide RegistryOk, PassOk, AllSendable;
    assert EventOk(x.reg, x.events[0]);
    ReleaseOk(x.reg, closed);
    EventsReleased(x.reg, closed, x.events);
  }

  /** The session lets go of a stream that has closed. */
  lemma ClosedEventJoined(x: Session, out: seq<Frame>, y: Session, inc: seq<Frame>, closed: StreamId, id: StreamId)
    requires Joined(x, out, y, inc, id) && x.events != [] && x.events[0] == ClosedEvent(closed)
    requires closed in x.reg.handles
    ensures Joined(x.(events := x.events[1..], reg := x.reg.(streams := x.reg.streams - {closed})), out, y, inc, id)
  {
    hide Fifo;
    var x' := x.(events := x.events[1..], reg := x.reg.(streams := x.reg.streams - {closed}));
    assert FramesOf(x.events) == [] + FramesOf(x.events[1..]);
    assert TxOf(x', id) == TxOf(x, id);
    if id == closed {
      RxDeafen(TxOf(y, id), inc, inc, RxOf(x, id), id);
      assert RxOf(x', id) == RxOf(x, id).(listening := false);
    } else {
      assert RxOf(x', id) == RxOf(x, id);
    }
  }

  lemma ClosedEventStep(x: Session, out: seq<Frame>, y: Session, inc: seq<Frame>, closed: StreamId)
    requires PairOk(x, out, y, inc) && x.events != [] && x.events[0] == ClosedEvent(closed)
    ensures PairOk(x.(events := x.events[1..], reg := x.reg.(streams := x.reg.streams - {closed})), out, y, inc)
  {
    hide SessionOk, Joined;
    ClosedEventOk(x, closed);
    forall id { ClosedEventJoined(x, out, y, inc, closed, id); }
    RejoinInPlace(x, out, y, inc, x.(events := x.events[1..], reg := x.reg.(streams := x.reg.streams - {closed})));
  }

  lemma EventStep(x: Session, out: seq<Frame>, y: Session, inc: seq<Frame>, k: nat)
    requires PairOk(x, out, y, inc) && x.events != []
    ensures var (x', fs) := HandleEvent(x, k); PairOk(x', out + fs, y, inc)
  {
    assert EventOk(x.reg, x.events[0]);
    hide PairOk, SendAll;
    assert out + [] == out;
    match x.events[0]
    case FrameEvent(f) =>
      FrameEventStep(x, out, y, inc);
      WriteStep(x.(events := x.events[1..], writePending := x.writePending + [f]), out, y, inc, k);
    case ClosedEvent(id) =>
      ClosedEventStep(x, out, y, inc, id);
  }

  // ---------------------------------------------------------------- receiving

  /** Taking up the pending frames for a new pass changes their place only. */
  lemma BeginPassStep(x: Session, out: seq<Frame>, y: Session, inc: seq<Frame>)
    requires PairOk(x, out, y, inc) && x.taken == [] && !x.Dead()
    ensures PairOk(BeginPass(x, []), out, y, inc)
  {
    var x' := BeginPass(x, []);
    assert x'.taken == x.readPending && x.readPending + x.taken == x.readPending;
    assert SessionOk(x') by { hide RegistryOk, EventsOk, AllSendable; }
    hide SessionOk, Fifo;
    forall id
      ensures Fifo(TxOf(x', id), out + [], RxOf(y, id), id) && Fifo(TxOf(y, id), inc[0..], RxOf(x', id), id)
    {
      assert Joined(x, out, y, inc, id);
      assert inc[0..] == inc && out + [] == out;
      assert TxOf(x', id) == TxOf(x, id) && RxOf(x', id) == RxOf(x, id);
    }
    Rejoin(x, out, y, inc, x', [], 0);
    assert inc[0..] == inc && out + [] == out;
  }

  /** A frame of a stream comes off the wire. */
  lemma StreamFrameStep(x: Session, out: seq<Frame>, y: Session, inc: seq<Frame>)
    requires PairOk(x, out, y, inc) && x.taken == [] && !x.Dead() && inc != [] && inc[0].OnStream()
    ensures PairOk(BeginPass(x, [inc[0]]), out, y, inc[1..])
  {
    var f, x' := inc[0], BeginPass(x, [inc[0]]);
    assert SessionOk(x') by {
      assert Sendable(inc[0]);
      hide RegistryOk, EventsOk;
    }
    hide SessionOk, Fifo;
    forall id
      ensures Fifo(TxOf(x', id), out + [], RxOf(y, id), id) && Fifo(TxOf(y, id), inc[1..], RxOf(x', id), id)
    {
      assert Joined(x, out, y, inc, id);
      assert out + [] == out;
      PassView(x, f, id);
      hide BeginPass, TxOf, RxOf;
      RxReceive(TxOf(y, id), inc, RxOf(x, id), id);
    }
    Rejoin(x, out, y, inc, x', [], 1);
    assert out + [] == out;
  }

  lemma PassView(x: Session, f: Frame, id: StreamId)
    requires x.taken == []
    ensures var x' := BeginPass(x, [f]);
      TxOf(x', id) == TxOf(x, id) && RxOf(x', id) == RxOf(x, id).(pending := RxOf(x, id).pending + [f])
  {
    var x' := BeginPass(x, [f]);
    assert x'.readPending + x'.taken == (x.readPending + x.taken) + [f];
  }

  /** A frame that concerns no stream comes off the wire. */
  lemma PingFrameStep(x: Session, out: seq<Frame>, y: Session, inc: seq<Frame>)
    requires PairOk(x, out, y, inc) && inc != [] && inc[0].Ty() == Ping
    ensures PairOk(x, out, y, inc[1..])
  {
    hide SessionOk, Fifo;
    forall id
      ensures Fifo(TxOf(x, id), out + [], RxOf(y, id), id) && Fifo(TxOf(y, id), inc[1..], RxOf(x, id), id)
    {
      assert Joined(x, out, y, inc, id);
      assert out + [] == out;
      SelectOne(inc[0], id);
      RxSkip(TxOf(y, id), inc, RxOf(x, id), id);
    }
    Rejoin(x, out, y, inc, x, [], 1);
    assert out + [] == out;
  }

  /** The peer has gone away: the session answers once and acts no more. */
  lemma GoAwayFrameStep(x: Session, out: seq<Frame>, y: Session, inc: seq<Frame>, k: nat)
    requires PairOk(x, out, y, inc) && x.taken == [] && !x.Dead() && inc != []
    ensures var (x', fs) := HandleGoAway(x, k); PairOk(x', out + fs, y, inc[1..])
  {
    var (x', fs) := HandleGoAway(x, k);
    assert SessionOk(x') && AllSendable(fs) by { hide RegistryOk, EventsOk, PassOk; }
    hide SessionOk, Fifo;
    forall id
      ensures Fifo(TxOf(x', id), out + fs, RxOf(y, id), id) && Fifo(TxOf(y, id), inc[1..], RxOf(x', id), id)
    {
      assert Joined(x, out, y, inc, id);
      DeadRx(x, x', TxOf(y, id), inc, inc[1..], id);
      GoAwayFrameTx(x, out, RxOf(y, id), id, k);
    }
    Rejoin(x, out, y, inc, x', fs, 1);
  }

  lemma GoAwayFrameTx(x: Session, out: seq<Frame>, rx: Rx, id: StreamId, k: nat)
    requires Fifo(TxOf(x, id), out, rx, id) && !x.Dead()
    ensures var (x', fs) := HandleGoAway(x, k); Fifo(TxOf(x', id), out + fs, rx, id)
  {
    hide Fifo;
    var (x', fs) := HandleGoAway(x, k);
    if x.localGoAway {
      assert out + fs == out && x'.writePending + FramesOf(x'.events) == FramesOf(x.events);
      TxDie(TxOf(x, id), TxOf(x', id), out, rx, id, x.writePending);
    } else {
      var g := NewGoAway(Normal);
      assert fs + x'.writePending == [g];
      Regroup(out, fs, x'.writePending, FramesOf(x.events));
      TxGoAway(TxOf(x, id), TxOf(x', id), out, out + fs, rx, id, x.writePending, g, FramesOf(x.events));
    }
  }

  lemma ReceiveStep(x: Session, out: seq<Frame>, y: Session, inc: seq<Frame>, k: nat)
    requires PairOk(x, out, y, inc) && x.taken == [] && !x.Dead() && inc != []
    ensures var (x', fs) := HandleFrameFromPeer(x, inc[0], k); PairOk(x', out + fs, y, inc[1..])
  {
    hide PairOk;
    var f := inc[0];
    assert out + [] == out;
    match f.Ty()
    case Ping =>
      PingFrameStep(x, out, y, inc);
      if f.FlagsOf().syn {
        var pong := NewPing(AckFlag, f.Length());
        PingStep(x, out, y, inc[1..], pong);
        WriteStep(x.(writePending := x.writePending + [pong]), out, y, inc[1..], k);
      } else if f.FlagsOf().ack {
        IdleStep(x, out, y, inc[1..], x.(pings := Unsettled(x.pings, f.Length())));
      }
    case GoAway => GoAwayFrameStep(x, out, y, inc, k);
    case Data => StreamFrameStep(x, out, y, inc);
    case WindowUpdate => StreamFrameStep(x, out, y, inc);
  }

  // ------------------------------------------------------- opening and using

  /** The next id of our own is new. */
  lemma NextIsFresh(reg: Registry)
    requires RegistryOk(reg)
    ensures Fresh(reg, reg.nextStreamId) && Mine(reg.ty, reg.nextStreamId) && reg.nextStreamId !in reg.streams
  {
    RegistryFacts(reg, reg.nextStreamId);
  }

  lemma OpenOk(x: Session)
    requires SessionOk(x) && !x.reg.gone
    ensures SessionOk(OpenStream(x).0)
    ensures OpenStream(x).1 != Some(DuplicateStream)
  {
    hide EventsOk, PassOk, AllSendable, HandleOk, RegistryOk, CreateHandle;
    NextIsFresh(x.reg);
    if OpenStream(x).1.None? {
      var id, reg1 := x.reg.nextStreamId, x.reg.(nextStreamId := x.reg.nextStreamId + 2);
      RegistryMoves(x.reg, reg1);
      RegistryFacts(x.reg, id);
      var p := PlaceOf(reg1, id).(held := true);
      var h := CreateHandle(id, true, p.maxWindow);
      NewHandleOk(id, true, p);
      AddHandleOk(reg1, id, h);
      EventsMoved(x.reg, reg1, x.events);
      EventsWithAdded(reg1, id, h, x.events);
      var reg2 := OpenStream(x).0.reg;
      AnnouncementOk(reg2, id, true, p.maxWindow);
      EventsAppend(reg2, x.events, h.sent);
    }
  }

  lemma EventsMoved(reg: Registry, reg': Registry, es: seq<StreamEvent>)
    requires EventsOk(reg, es) && reg'.handles == reg.handles
    ensures EventsOk(reg', es)
  {
    assert forall i :: 0 <= i < |es| ==> EventOk(reg, es[i]);
  }

  lemma OpenJoined(x: Session, out: seq<Frame>, y: Session, inc: seq<Frame>, id: StreamId)
    requires Joined(x, out, y, inc, id) && OpenStream(x).1.None? && Fresh(x.reg, x.reg.nextStreamId)
    requires INITIAL_STREAM_WINDOW <= x.reg.config.maxStreamWindowSize
    ensures Joined(OpenStream(x).0, out, y, inc, id)
  {
    hide Fifo, CreateHandle;
    var next, x1 := x.reg.nextStreamId, x.(reg := x.reg.(nextStreamId := x.reg.nextStreamId + 2));
    OpenRx(x, id);
    AddStreamTx(x1, out, RxOf(y, id), next, true, id);
  }

  /** A stream of our own has heard nothing yet, and listens. */
  lemma OpenRx(x: Session, id: StreamId)
    requires OpenStream(x).1.None? && Fresh(x.reg, x.reg.nextStreamId)
    requires INITIAL_STREAM_WINDOW <= x.reg.config.maxStreamWindowSize
    ensures RxOf(OpenStream(x).0, id) == RxOf(x, id)
  {
    CreateHandleLaws(x.reg.nextStreamId, true, x.reg.config.maxStreamWindowSize);
    hide CreateHandle, Laws;
  }

  lemma OpenStep(x: Session, out: seq<Frame>, y: Session, inc: seq<Frame>)
    requires PairOk(x, out, y, inc) && !x.reg.gone
    ensures PairOk(OpenStream(x).0, out, y, inc)
  {
    OpenOk(x);
    if OpenStream(x).1.None? {
      hide Joined, EventsOk, PassOk, AllSendable, RegistryOk, CreateHandle;
      NextIsFresh(x.reg);
      RegistryFacts(x.reg, x.reg.nextStreamId);
      hide SessionOk;
      forall id { OpenJoined(x, out, y, inc, id); }
      RejoinInPlace(x, out, y, inc, OpenStream(x).0);
    }
  }

  lemma UseJoined(x: Session, out: seq<Frame>, y: Session, inc: seq<Frame>, used: StreamId, op: HandleOp, id: StreamId)
    requires Joined(x, out, y, inc, id) && used in x.reg.handles
    requires var h' := UseHandle(x, used, op).reg.handles[used];
      Routed(h') && h'.id == used && Arrived(h') == Arrived(x.reg.handles[used])
    ensures Joined(UseHandle(x, used, op), out, y, inc, id)
  {
    hide Fifo, Routed, UseHandle;
    UseTx(x, out, RxOf(y, id), used, op, id);
    UseRx(x, used, op, id);
  }

  lemma UseStep(x: Session, out: seq<Frame>, y: Session, inc: seq<Frame>, used: StreamId, op: HandleOp)
    requires PairOk(x, out, y, inc) && used in x.reg.handles && !x.reg.handles[used].dropped
    ensures PairOk(UseHandle(x, used, op), out, y, inc)
  {
    hide Apply, EventsOk, PassOk, AllSendable, RegistryOk, Routed;
    assert Joined(x, out, y, inc, used);
    HandleFits(x.reg, y.reg, used);
    hide Joined, Fits;
    UseRegistryOk(x.reg, used, op);
    UseOk(x, used, op);
    hide SessionOk;
    forall id { UseJoined(x, out, y, inc, used, op, id); }
    RejoinInPlace(x, out, y, inc, UseHandle(x, used, op));
  }

  // ------------------------------------------------------------- all the rest

  lemma DistributeStep(x: Session, out: seq<Frame>, y: Session, inc: seq<Frame>, ready: bool, k: nat)
    requires PairOk(x, out, y, inc) && x.taken != [] && !x.Dead() && !x.reg.gone
    ensures var (x', fs) := DistributeNext(x, ready, k); PairOk(x', out + fs, y, inc)
  {
    var f, rest := x.taken[0], x.taken[1..];
    assert x.taken == [f] + rest;
    hide PairOk, Fifo, SessionOk, DistributeNext;
    DistributeOk(x, out, y, inc, f, rest, ready, k);
    var (x', fs) := DistributeNext(x, ready, k);
    forall id
      ensures Fifo(TxOf(x', id), out + fs, RxOf(y, id), id) && Fifo(TxOf(y, id), inc[0..], RxOf(x', id), id)
    {
      assert inc[0..] == inc;
      DistributeTx(x, out, y, inc, f, rest, ready, k, id);
      DistributeRx(x, out, y, inc, f, rest, ready, k, id);
    }
    Rejoin(x, out, y, inc, x', fs, 0);
    assert inc[0..] == inc;
  }

  lemma TimerStep(x: Session, out: seq<Frame>, y: Session, inc: seq<Frame>, now: nat, k: nat)
    requires PairOk(x, out, y, inc) && x.taken == []
    ensures var (x', fs, _) := Tick(x, now, k); PairOk(x', out + fs, y, inc)
  {
    assert out + [] == out;
    if x.localGoAway {
      var x' := x.(remoteGoAway := true);
      assert SessionOk(x') by { hide RegistryOk, EventsOk, PassOk, AllSendable; }
      hide PairOk, SessionOk;
      StopStep(x, out, y, inc, x', []);
    } else if !Overdue(x.pings, now) {
      var id := Wrap32(x.pingId + 1);
      var ping, x1 := NewPing(SynFlag, id), x.(pingId := id, pings := x.pings[id := now]);
      hide PairOk;
      IdleStep(x, out, y, inc, x1);
      PingStep(x1, out, y, inc, ping);
      WriteStep(x1.(writePending := x.writePending + [ping]), out, y, inc, k);
    }
  }

  /** Neither the pings nor the streams waiting to be accepted matter to the invariant. */
  lemma IdleStep(x: Session, out: seq<Frame>, y: Session, inc: seq<Frame>, x': Session)
    requires PairOk(x, out, y, inc)
    requires x' == x.(pings := x'.pings, pingId := x'.pingId, pendingStreams := x'.pendingStreams)
    ensures PairOk(x', out, y, inc)
  {
    assert SessionOk(x') by { hide RegistryOk, EventsOk, PassOk, AllSendable; }
    hide SessionOk, Fifo;
    forall id
      ensures Fifo(TxOf(x', id), out + [], RxOf(y, id), id) && Fifo(TxOf(y, id), inc[0..], RxOf(x', id), id)
    {
      assert Joined(x, out, y, inc, id);
      assert inc[0..] == inc && out + [] == out;
      assert TxOf(x', id) == TxOf(x, id) && RxOf(x', id) == RxOf(x, id);
    }
    Rejoin(x, out, y, inc, x', [], 0);
    assert inc[0..] == inc && out + [] == out;
  }

  lemma EofStep(x: Session, out: seq<Frame>, y: Session, inc: seq<Frame>)
    requires PairOk(x, out, y, inc) && x.taken == []
    ensures PairOk(x.(eof := true), out, y, inc)
  {
    var x' := x.(eof := true);
    assert SessionOk(x') by { hide RegistryOk, EventsOk, PassOk, AllSendable; }
    hide PairOk, SessionOk;
    assert [] + (x.writePending + FramesOf(x.events)) == x.writePending + FramesOf(x.events);
    StopStep(x, out, y, inc, x', []);
  }

  lemma DropStep(x: Session, out: seq<Frame>, y: Session, inc: seq<Frame>)
    requires PairOk(x, out, y, inc) && x.taken == []
    ensures PairOk(x.(reg := x.reg.(gone := true, streams := {}), eof := true, events := [], writePending := []),
                   out, y, inc)
  {
    var x' := x.(reg := x.reg.(gone := true, streams := {}), eof := true, events := [], writePending := []);
    assert SessionOk(x') by {
      hide HandleOk, EventOk, PassOk;
      RegistryMoves(x.reg, x'.reg);
    }
    hide PairOk, SessionOk;
    var q := x.writePending + FramesOf(x.events);
    assert q == q + ([] + FramesOf([]));
    StopStep(x, out, y, inc, x', q);
  }

  /** Every action keeps the invariant. */
  lemma ActStep(x: Session, out: seq<Frame>, y: Session, inc: seq<Frame>, a: Action)
    requires PairOk(x, out, y, inc) && Enabled(x, inc, a)
    ensures var (x', fs) := Act(x, inc, a); PairOk(x', out + fs, y, inc[Consumed(a)..])
  {
    hide PairOk;
    assert out + [] == out && inc[0..] == inc;
    match a
    case Open => OpenStep(x, out, y, inc);
    case Accept => IdleStep(x, out, y, inc, x.(pendingStreams := x.pendingStreams[1..]));
    case Receive(k) => ReceiveStep(x, out, y, inc, k);
    case Distribute(ready, k) => DistributeStep(x, out, y, inc, ready, k);
    case Flush(k) =>
      WriteStep(x, out, y, inc, k);
      var (x1, fs) := SendAll(x, k);
      BeginPassStep(x1, out + fs, y, inc);
    case Event(k) => EventStep(x, out, y, inc, k);
    case SayGoAway(k) => GoAwayStep(x, out, y, inc, k);
    case Timer(now, k) => TimerStep(x, out, y, inc, now, k);
    case Eof => EofStep(x, out, y, inc);
    case DropSession => DropStep(x, out, y, inc);
    case Use(id, op) => UseStep(x, out, y, inc, id, op);
  }
}
