/** A pass of distribute_to_substream, frame by frame, in the company of a conforming peer. */
module YamuxDistribution {
  import opened ByteStrings
  import opened Subsequences
  import opened YamuxFrame
  import opened YamuxStream
  import opened YamuxStreamLaws
  import opened YamuxStreamTrace
  import opened YamuxQueues
  import opened YamuxTransport
  import opened YamuxSession
  import opened YamuxNetwork
  import opened YamuxSteps

  // ------------------------------------------------ what a frame can still be

  /** A frame that waits at x was emitted by y, and has not arrived yet. */
  lemma PendingWasSent(x: Session, inc: seq<Frame>, y: Session, f: Frame)
    requires Fifo(TxOf(y, f.Id()), inc, RxOf(x, f.Id()), f.Id())
    requires f in x.readPending + x.taken && f.OnStream()
    ensures var sent, n := Sent(y.reg, f.Id()), |Front(x.reg, f.Id())|; n <= |sent| && f in sent[n..]
  {
    var id, pend := f.Id(), x.readPending + x.taken;
    SelectMember(pend + (inc + TxOf(y, id).queue), f);
    SubseqMember(Select(pend + (inc + TxOf(y, id).queue), id), Sent(y.reg, id)[|Front(x.reg, id)|..], f);
  }

  /** Each id belongs to exactly one of the two sides. */
  lemma OneOpener(s: SessionType, t: SessionType, id: StreamId)
    requires s != t
    ensures Mine(s, id) <==> !Mine(t, id)
  {
  }

  /** Only the first frame of the opener asks for a stream. */
  lemma SynIsFirst(reg: Registry, id: StreamId, j: nat)
    requires RegistryOk(reg) && j < |Sent(reg, id)| && Sent(reg, id)[j].FlagsOf().syn
    ensures j == 0 && Mine(reg.ty, id)
  {
    RegistryFacts(reg, id);
    hide RegistryOk, Bounded, Accounted, Queued, WriterSafe, Headroom, Routed, Finished, Orderly;
  }

  /** A stream of the peer that nothing has reached is not known. */
  lemma EmptyFrontIsFresh(reg: Registry, id: StreamId)
    requires RegistryOk(reg) && !Mine(reg.ty, id) && Front(reg, id) == []
    ensures Fresh(reg, id)
  {
    RegistryFacts(reg, id);
    hide RegistryOk, Laws, Finished, Orderly;
  }

  /** A frame that asks for a stream can only be seen once. */
  lemma SynIsFresh(x: Session, inc: seq<Frame>, y: Session, f: Frame)
    requires RegistryOk(x.reg) && RegistryOk(y.reg) && x.reg.ty != y.reg.ty
    requires Fifo(TxOf(y, f.Id()), inc, RxOf(x, f.Id()), f.Id())
    requires f in x.readPending + x.taken && f.OnStream() && f.FlagsOf().syn
    ensures Fresh(x.reg, f.Id()) && !Mine(x.reg.ty, f.Id())
  {
    hide RegistryOk, Fifo, Sent, Front, Mine;
    var id := f.Id();
    PendingWasSent(x, inc, y, f);
    var sent, n := Sent(y.reg, id), |Front(x.reg, id)|;
    var j :| 0 <= j < |sent[n..]| && sent[n..][j] == f;
    SynIsFirst(y.reg, id, n + j);
    OneOpener(x.reg.ty, y.reg.ty, id);
    EmptyFrontIsFresh(x.reg, id);
  }

  /** If a stream of the peer has emitted anything, the session that opened it knows it. */
  lemma EmittedIsKnown(x: Session, out: seq<Frame>, y: Session, id: StreamId)
    requires RegistryOk(y.reg) && x.reg.ty != y.reg.ty && Front(y.reg, id) <= Sent(x.reg, id)
    requires Sent(y.reg, id) != [] && !(id in y.reg.handles && Mine(y.reg.ty, id))
    ensures !Fresh(x.reg, id)
  {
    RegistryFacts(y.reg, id);
    hide RegistryOk, Laws, Finished, Orderly;
  }

  /** The frame that waits first is the first the other side has emitted, if nothing has arrived. */
  lemma FirstDue(x: Session, y: Session, inc: seq<Frame>, f: Frame, rest: seq<Frame>)
    requires Fifo(TxOf(y, f.Id()), inc, RxOf(x, f.Id()), f.Id()) && Listening(x, f.Id()) && Fresh(x.reg, f.Id())
    requires x.taken == [f] + rest && Select(x.readPending, f.Id()) == [] && f.OnStream()
    ensures Sent(y.reg, f.Id()) != [] && Sent(y.reg, f.Id())[0] == f
  {
    var id := f.Id();
    var ahead := Ahead(TxOf(y, id), inc);
    SelectHead(x.readPending, f, rest + ahead, id);
    Assoc(x.readPending, [f] + rest, ahead);
    Assoc([f], rest, ahead);
  }

  /** The first frame of a stream of its own asks for it. */
  lemma OwnFirstIsSyn(reg: Registry, id: StreamId)
    requires RegistryOk(reg) && id in reg.handles && Mine(reg.ty, id)
    ensures Sent(reg, id) != [] && Sent(reg, id)[0].FlagsOf().syn
  {
    RegistryFacts(reg, id);
    hide RegistryOk, Bounded, Accounted, Queued, WriterSafe, Headroom, Routed, Finished, Orderly;
  }

  /** A frame that does not ask for a stream never meets one that could still be opened. */
  lemma NotSynNotFresh(x: Session, out: seq<Frame>, y: Session, inc: seq<Frame>, f: Frame, rest: seq<Frame>)
    requires RegistryOk(y.reg) && x.reg.ty != y.reg.ty && Joined(x, out, y, inc, f.Id())
    requires x.taken == [f] + rest && Select(x.readPending, f.Id()) == [] && f.OnStream() && !f.FlagsOf().syn
    requires f.Id() !in x.reg.streams
    ensures !Listening(x, f.Id())
  {
    var id := f.Id();
    assert Front(y.reg, id) <= Sent(x.reg, id);
    hide Fifo, RegistryOk, Select;
    if id in y.reg.handles && Mine(y.reg.ty, id) {
      OwnFirstIsSyn(y.reg, id);
      if Listening(x, id) {
        FirstDue(x, y, inc, f, rest);
      }
    } else if Listening(x, id) {
      FirstDue(x, y, inc, f, rest);
      EmittedIsKnown(x, out, y, id);
    }
  }

  // --------------------------------------------------------- routing a frame

  /** The stream a frame is routed to gets it next; every other stream sees no change. */
  lemma RouteRx(x: Session, f: Frame, rest: seq<Frame>, ready: bool, tx: Tx, inc: seq<Frame>, id: StreamId)
    requires x.taken == [f] + rest && f.OnStream() && Select(x.readPending, f.Id()) == []
    requires f.Id() !in x.reg.streams ==> !Listening(x, f.Id())
    requires f.Id() in x.reg.streams ==> !x.Dead() && f.Id() in x.reg.handles
    requires Fifo(tx, inc, RxOf(x, id), id)
    ensures Fifo(tx, inc, RxOf(Route(x.(taken := rest), f, ready), id), id)
  {
    var x', rp, reg := Route(x.(taken := rest), f, ready), x.readPending, x.reg;
    var rx := RxOf(x, id);
    RouteView(x, f, rest, ready, id);
    Assoc(rp, [f], rest);
    SelectOne(f, id);
    hide Fifo, Route, Select;
    if f.Id() in reg.streams && !reg.handles[f.Id()].dropped && !ready && reg.handles[f.Id()].inbox != [] {
    } else if f.Id() != id || f.Id() !in reg.streams {
      RxDrop(tx, inc, rx, id, rp, f, rest);
    } else if reg.handles[id].dropped {
      RxDeafen(tx, inc, inc, rx, id);
      RxDrop(tx, inc, rx.(listening := false), id, rp, f, rest);
    } else {
      RxDeliver(tx, inc, rx, id, rp, f, rest);
    }
  }

  /** What routing a frame means for one stream. */
  lemma RouteView(x: Session, f: Frame, rest: seq<Frame>, ready: bool, id: StreamId)
    requires x.taken == [f] + rest
    requires f.Id() in x.reg.streams ==> !x.Dead() && f.Id() in x.reg.handles
    ensures var rx, rx', h := RxOf(x, id), RxOf(Route(x.(taken := rest), f, ready), id), x.reg.handles;
      if f.Id() in x.reg.streams && !h[f.Id()].dropped && !ready && h[f.Id()].inbox != [] then rx' == rx
      else if f.Id() != id || f.Id() !in x.reg.streams then rx' == rx.(pending := x.readPending + rest)
      else if h[id].dropped then rx' == rx.(listening := false, pending := x.readPending + rest)
      else rx' == rx.(front := rx.front + [f], pending := x.readPending + rest)
  {
    Assoc(x.readPending, [f], rest);
    if id in x.reg.handles {
      Assoc(x.reg.handles[id].handled, x.reg.handles[id].inbox, [f]);
    }
  }

  lemma RouteTx(x: Session, f: Frame, ready: bool, id: StreamId)
    ensures TxOf(Route(x, f, ready), id) == TxOf(x, id)
  {
    RouteSent(x, f, ready, id);
    hide Route, FramesOf, Sent;
  }

  lemma RouteSent(x: Session, f: Frame, ready: bool, id: StreamId)
    ensures Sent(Route(x, f, ready).reg, id) == Sent(x.reg, id)
  {
    hide FramesOf;
    var to, reg := f.Id(), x.reg;
    var handles := Route(x, f, ready).reg.handles;
    assert handles == reg.handles || (to in reg.handles && handles == reg.handles[to := Deliver(reg.handles[to], f)]);
    hide Route;
  }

  // -------------------------------------------- accepting and refusing a stream

  /** The session as it is once the peer's request has become a stream with its first frame. */
  function Accepted(x: Session, f: Frame, rest: seq<Frame>): (r: Session) {
    var h := CreateHandle(f.Id(), false, x.reg.config.maxStreamWindowSize);
    x.(reg := x.reg.(streams := x.reg.streams + {f.Id()}, handles := x.reg.handles[f.Id() := Deliver(h, f)]),
       events := x.events + h.sent, taken := rest, pendingStreams := x.pendingStreams + [f.Id()])
  }

  lemma AcceptedIsRoute(x: Session, f: Frame, rest: seq<Frame>, ready: bool)
    requires f.Id() !in x.reg.streams && INITIAL_STREAM_WINDOW <= x.reg.config.maxStreamWindowSize
    ensures var x1 := AddStream(x.(taken := rest), f.Id(), false).value;
      Route(x1.(pendingStreams := x.pendingStreams + [f.Id()]), f, ready) == Accepted(x, f, rest)
  {
    CreateHandleLaws(f.Id(), false, x.reg.config.maxStreamWindowSize);
    hide CreateHandle;
    var id, reg, h := f.Id(), x.reg, CreateHandle(f.Id(), false, x.reg.config.maxStreamWindowSize);
    assert reg.handles[id := h][id := Deliver(h, f)] == reg.handles[id := Deliver(h, f)];
  }

  lemma AcceptedRx(x: Session, f: Frame, rest: seq<Frame>, tx: Tx, inc: seq<Frame>, id: StreamId)
    requires x.taken == [f] + rest && f.OnStream() && Select(x.readPending, f.Id()) == []
    requires Fresh(x.reg, f.Id()) && !x.Dead() && INITIAL_STREAM_WINDOW <= x.reg.config.maxStreamWindowSize
    requires Fifo(tx, inc, RxOf(x, id), id)
    ensures Fifo(tx, inc, RxOf(Accepted(x, f, rest), id), id)
  {
    CreateHandleLaws(f.Id(), false, x.reg.config.maxStreamWindowSize);
    hide Fifo, CreateHandle, Laws;
    var rx, rx' := RxOf(x, id), RxOf(Accepted(x, f, rest), id);
    Assoc(x.readPending, [f], rest);
    SelectOne(f, id);
    hide Select;
    if f.Id() == id {
      RxDeliver(tx, inc, rx, id, x.readPending, f, rest);
      assert rx' == rx.(front := rx.front + [f], pending := x.readPending + rest);
    } else {
      RxDrop(tx, inc, rx, id, x.readPending, f, rest);
      assert rx' == rx.(pending := x.readPending + rest);
    }
  }

  lemma AcceptedTx(x: Session, f: Frame, rest: seq<Frame>, out: seq<Frame>, rx: Rx, id: StreamId)
    requires Fifo(TxOf(x, id), out, rx, id) && Fresh(x.reg, f.Id()) && f.Id() !in x.reg.streams
    requires INITIAL_STREAM_WINDOW <= x.reg.config.maxStreamWindowSize
    ensures Fifo(TxOf(Accepted(x, f, rest), id), out, rx, id)
  {
    hide Fifo, TxOf;
    var x1 := AddStream(x.(taken := rest), f.Id(), false).value;
    assert TxOf(x.(taken := rest), id) == TxOf(x, id) by { SameTx(x.(taken := rest), x, id); }
    AddStreamTx(x.(taken := rest), out, rx, f.Id(), false, id);
    AcceptedIsRoute(x, f, rest, true);
    var x2 := x1.(pendingStreams := x.pendingStreams + [f.Id()]);
    SameTx(x2, x1, id);
    RouteTx(x2, f, true, id);
  }

  lemma SameTx(x: Session, y: Session, id: StreamId)
    requires x.reg == y.reg && x.writePending == y.writePending && x.events == y.events && x.Dead() == y.Dead()
    ensures TxOf(x, id) == TxOf(y, id)
  {
  }

  /** The session as it is once the peer's request has been turned down. */
  function Refused(x: Session, f: Frame, rest: seq<Frame>, reply: Frame): (r: Session) {
    x.(reg := Refuse(x.reg, f, reply), writePending := x.writePending + [reply], taken := rest)
  }

  lemma RefusedRx(x: Session, f: Frame, rest: seq<Frame>, reply: Frame, tx: Tx, inc: seq<Frame>, id: StreamId)
    requires x.taken == [f] + rest && f.OnStream() && Select(x.readPending, f.Id()) == []
    requires Fresh(x.reg, f.Id()) && !x.Dead() && f.Id() !in x.reg.streams
    requires Fifo(tx, inc, RxOf(x, id), id)
    ensures Fifo(tx, inc, RxOf(Refused(x, f, rest, reply), id), id)
  {
    hide Fifo;
    var rx, rx' := RxOf(x, id), RxOf(Refused(x, f, rest, reply), id);
    Assoc(x.readPending, [f], rest);
    SelectOne(f, id);
    if f.Id() == id {
      RxDeliver(tx, inc, rx, id, x.readPending, f, rest);
      var rx1 := rx.(front := rx.front + [f], pending := x.readPending + rest);
      RxDeafen(tx, inc, inc, rx1, id);
      assert rx' == rx1.(listening := false);
    } else {
      RxDrop(tx, inc, rx, id, x.readPending, f, rest);
      assert rx' == rx.(pending := x.readPending + rest);
    }
  }

  /** A stream that has emitted nothing has nothing queued. */
  lemma NothingQueued(x: Session, out: seq<Frame>, rx: Rx, id: StreamId)
    requires Fifo(TxOf(x, id), out, rx, id) && Sent(x.reg, id) == []
    ensures Select(FramesOf(x.events), id) == []
  {
    var q := x.writePending + FramesOf(x.events);
    SelectAppend(rx.pending, out + q, id);
    SelectAppend(out, q, id);
    SelectAppend(x.writePending, FramesOf(x.events), id);
  }

  lemma RefusedTx(x: Session, f: Frame, rest: seq<Frame>, reply: Frame, out: seq<Frame>, rx: Rx, id: StreamId)
    requires Fifo(TxOf(x, id), out, rx, id) && Fresh(x.reg, f.Id()) && EventsOk(x.reg, x.events)
    requires reply.OnStream() && reply.Id() == f.Id()
    ensures Fifo(TxOf(Refused(x, f, rest, reply), id), out, rx, id)
  {
    EventFramesOk(x.reg, x.events);
    if f.Id() == id {
      NothingQueued(x, out, rx, id);
    }
    hide Fifo, EventsOk, FramesOf;
    SelectOne(reply, id);
    hide Select;
    var tx, tx' := TxOf(x, id), TxOf(Refused(x, f, rest, reply), id);
    assert tx'.sent == tx.sent + Select([reply], id);
    TxPush(tx, out, rx, id, x.writePending, reply, FramesOf(x.events));
  }

  // ------------------------------------------------------- one round of a pass

  /** What is known when the next frame of a pass is looked at. */
  ghost predicate AtFrame(x: Session, out: seq<Frame>, y: Session, inc: seq<Frame>, f: Frame, rest: seq<Frame>) {
    && PairOk(x, out, y, inc) && x.taken == [f] + rest && !x.Dead()
  }

  lemma AtFrameFacts(x: Session, out: seq<Frame>, y: Session, inc: seq<Frame>, f: Frame, rest: seq<Frame>)
    requires AtFrame(x, out, y, inc, f, rest)
    ensures f.WellFormed() && f.OnStream() && f == x.taken[0] && rest == x.taken[1..]
    ensures f.Id() !in x.blocked ==> Select(x.readPending, f.Id()) == []
    ensures f.FlagsOf().syn ==> Fresh(x.reg, f.Id()) && !Mine(x.reg.ty, f.Id()) && rest == []
    ensures Fresh(x.reg, f.Id()) ==> f.Id() !in x.reg.streams && f.Id() !in x.blocked
    ensures INITIAL_STREAM_WINDOW <= x.reg.config.maxStreamWindowSize
  {
    assert Joined(x, out, y, inc, f.Id());
    hide Fifo, HandleOk;
    assert f == x.taken[0];
    if f.Id() !in x.blocked {
      SelectNone(x.readPending, f.Id());
    }
    if f.FlagsOf().syn {
      SynIsFresh(x, inc, y, f);
    }
  }

  /** The round in terms of the three things that can happen to a frame that is not blocked. */
  lemma DistributeCases(x: Session, f: Frame, rest: seq<Frame>, ready: bool, k: nat)
    requires x.taken == [f] + rest && INITIAL_STREAM_WINDOW <= x.reg.config.maxStreamWindowSize
    requires f.FlagsOf().syn ==> f.Id() !in x.reg.streams && f.Id() !in x.blocked && rest == []
    ensures var r := DistributeNext(x, ready, k);
      if f.Id() in x.blocked then r == (x.(taken := rest, readPending := x.readPending + [f]), [])
      else if !f.FlagsOf().syn then r == (Route(x.(taken := rest), f, ready), [])
      else if x.localGoAway then r == SendAll(Refused(x, f, rest, NewWindowUpdate(RstFlag, f.Id(), 0)), k)
      else if |x.reg.streams| < x.reg.config.maxStreamCount && |x.pendingStreams| < x.reg.config.acceptBacklog then
        r == (Accepted(x, f, rest), [])
      else r == (Refused(x, f, rest, NewWindowUpdate(AckFlag.(rst := true), f.Id(), 0)), [])
  {
    assert x.taken[0] == f && x.taken[1..] == rest;
    if f.FlagsOf().syn {
      AcceptedIsRoute(x, f, rest, ready);
    }
  }

  lemma DistributeTx(x: Session, out: seq<Frame>, y: Session, inc: seq<Frame>, f: Frame, rest: seq<Frame>,
                     ready: bool, k: nat, id: StreamId)
    requires AtFrame(x, out, y, inc, f, rest)
    ensures var (x', fs) := DistributeNext(x, ready, k); Fifo(TxOf(x', id), out + fs, RxOf(y, id), id)
  {
    hide Fifo, RegistryOk, EventsOk, PassOk, TxOf, RxOf, Refused, Accepted, Route, DistributeNext;
    assert Joined(x, out, y, inc, id);
    AtFrameFacts(x, out, y, inc, f, rest);
    hide PairOk, SessionOk;
    DistributeCases(x, f, rest, ready, k);
    var (x', fs) := DistributeNext(x, ready, k);
    var rx := RxOf(y, id);
    assert out + [] == out;
    if f.Id() in x.blocked {
      SameTx(x', x, id);
    } else if !f.FlagsOf().syn {
      SameTx(x.(taken := rest), x, id);
      RouteTx(x.(taken := rest), f, ready, id);
    } else if x.localGoAway {
      var reply := NewWindowUpdate(RstFlag, f.Id(), 0);
      RefusedTx(x, f, rest, reply, out, rx, id);
      SendAllTx(Refused(x, f, rest, reply), out, rx, id, k);
    } else {
      AcceptedTx(x, f, rest, out, rx, id);
      RefusedTx(x, f, rest, NewWindowUpdate(AckFlag.(rst := true), f.Id(), 0), out, rx, id);
    }
  }

  lemma DistributeRx(x: Session, out: seq<Frame>, y: Session, inc: seq<Frame>, f: Frame, rest: seq<Frame>,
                     ready: bool, k: nat, id: StreamId)
    requires AtFrame(x, out, y, inc, f, rest)
    ensures Fifo(TxOf(y, id), inc, RxOf(DistributeNext(x, ready, k).0, id), id)
  {
    assert Joined(x, out, y, inc, id) && Joined(x, out, y, inc, f.Id());
    AtFrameFacts(x, out, y, inc, f, rest);
    if !f.FlagsOf().syn && f.Id() !in x.blocked && f.Id() !in x.reg.streams {
      NotSynNotFresh(x, out, y, inc, f, rest);
    }
    hide Fifo, HandleOk, EventsOk, TxOf, Refused, Accepted, Route;
    DistributeCases(x, f, rest, ready, k);
    var tx := TxOf(y, id);
    if f.Id() in x.blocked {
      Assoc(x.readPending, [f], rest);
    } else if !f.FlagsOf().syn {
      RouteRx(x, f, rest, ready, tx, inc, id);
    } else if x.localGoAway {
      var reply := NewWindowUpdate(RstFlag, f.Id(), 0);
      RefusedRx(x, f, rest, reply, tx, inc, id);
      SendAllRx(Refused(x, f, rest, reply), id, k);
    } else {
      AcceptedRx(x, f, rest, tx, inc, id);
      RefusedRx(x, f, rest, NewWindowUpdate(AckFlag.(rst := true), f.Id(), 0), tx, inc, id);
    }
  }

  lemma SendAllRx(x: Session, id: StreamId, k: nat)
    ensures RxOf(SendAll(x, k).0, id) == RxOf(x, id)
  {
  }

  // ------------------------------------------- the session after one round

  lemma DeliverHandleOk(h: Handle, p: Place, f: Frame)
    requires HandleOk(h, p) && OnStreamOf(f, p.id)
    ensures HandleOk(Deliver(h, f), p)
  {
    DeliverLaws(h, f, p.Opener(), !p.gone);
    hide Laws;
  }

  /** The rest of a pass is a pass; a frame that has to wait joins those that wait. */
  lemma PassAdvances(rp: seq<Frame>, f: Frame, rest: seq<Frame>, blocked: set<StreamId>)
    requires PassOk(rp, [f] + rest, blocked)
    ensures PassOk(rp, rest, blocked)
    ensures !f.FlagsOf().syn ==> PassOk(rp + [f], rest, blocked + {f.Id()})
  {
    var t := [f] + rest;
    assert t[0] == f && forall i :: 0 <= i < |rest| ==> rest[i] == t[i + 1];
  }

  lemma RouteOk(x: Session, f: Frame, rest: seq<Frame>, ready: bool)
    requires SessionOk(x) && x.taken == [f] + rest && OnStreamOf(f, f.Id()) && !f.FlagsOf().syn
    ensures SessionOk(Route(x.(taken := rest), f, ready))
  {
    hide RegistryOk, EventsOk, PassOk, AllSendable, HandleOk;
    PassAdvances(x.readPending, f, rest, x.blocked);
    var id, reg := f.Id(), x.reg;
    RegistryFacts(reg, id);
    if id in reg.streams {
      var h := reg.handles[id];
      if h.dropped {
        ReleaseOk(reg, id);
        EventsReleased(reg, id, x.events);
      } else if ready || h.inbox == [] {
        DeliverHandleOk(h, PlaceOf(reg, id), f);
        ReplaceHandleOk(reg, id, Deliver(h, f));
        EventsKept(reg, id, Deliver(h, f), x.events);
      }
    }
  }

  /** The session lets go of the channel of a stream that has closed or been dropped. */
  lemma ReleaseOk(reg: Registry, id: StreamId)
    requires RegistryOk(reg) && id in reg.handles && (reg.handles[id].dropped || reg.handles[id].state == Closed)
    ensures RegistryOk(reg.(streams := reg.streams - {id}))
  {
    hide HandleOk;
    RegistryMoves(reg, reg.(streams := reg.streams - {id}));
  }

  lemma EventsReleased(reg: Registry, id: StreamId, es: seq<StreamEvent>)
    requires EventsOk(reg, es)
    ensures EventsOk(reg.(streams := reg.streams - {id}), es)
  {
    assert forall i :: 0 <= i < |es| ==> EventOk(reg, es[i]);
  }

  /** Events stay right when a stream is added. */
  lemma EventsWithAdded(reg: Registry, id: StreamId, h: Handle, es: seq<StreamEvent>)
    requires EventsOk(reg, es) && id !in reg.handles
    ensures EventsOk(reg.(streams := reg.streams + {id}, handles := reg.handles[id := h]), es)
  {
    assert forall i :: 0 <= i < |es| ==> EventOk(reg, es[i]);
  }

  /** The announcement of a new handle is an event the session may see. */
  lemma AnnouncementOk(reg: Registry, id: StreamId, opener: bool, maxWindow: u32)
    requires INITIAL_STREAM_WINDOW <= maxWindow
    ensures EventsOk(reg, CreateHandle(id, opener, maxWindow).sent)
  {
    CreateHandleLaws(id, opener, maxWindow);
    var h := CreateHandle(id, opener, maxWindow);
    hide CreateHandle;
    assert OnStreamOf(SentFrames(h)[0], id) by { assert SentFrames(h)[0] in SentFrames(h); }
  }

  lemma AcceptedOk(x: Session, f: Frame, rest: seq<Frame>)
    requires SessionOk(x) && x.taken == [f] + rest && OnStreamOf(f, f.Id()) && !x.reg.gone
    requires Fresh(x.reg, f.Id()) && !Mine(x.reg.ty, f.Id())
    ensures SessionOk(Accepted(x, f, rest))
  {
    hide RegistryOk, EventsOk, PassOk, AllSendable, HandleOk, CreateHandle;
    PassAdvances(x.readPending, f, rest, x.blocked);
    var id, reg := f.Id(), x.reg;
    RegistryFacts(reg, id);
    var p := PlaceOf(reg, id).(held := true);
    var h := CreateHandle(id, false, p.maxWindow);
    NewHandleOk(id, false, p);
    AddHandleOk(reg, id, Deliver(h, f));
    var reg' := Accepted(x, f, rest).reg;
    EventsWithAdded(reg, id, Deliver(h, f), x.events);
    AnnouncementOk(reg', id, false, p.maxWindow);
    EventsAppend(reg', x.events, h.sent);
  }

  lemma RefusedOk(x: Session, f: Frame, rest: seq<Frame>, reply: Frame)
    requires SessionOk(x) && x.taken == [f] + rest
    requires Fresh(x.reg, f.Id()) && !Mine(x.reg.ty, f.Id())
    requires OnStreamOf(reply, f.Id()) && !reply.FlagsOf().syn && reply.FlagsOf().rst
    requires reply.Payload() == [] && reply.Credit() == 0
    ensures SessionOk(Refused(x, f, rest, reply))
  {
    PassAdvances(x.readPending, f, rest, x.blocked);
    hide HandleOk, PassOk;
    var reg, reg' := x.reg, Refuse(x.reg, f, reply);
    assert RegistryOk(reg') by {
      assert forall i :: PlaceOf(reg', i) == PlaceOf(reg, i);
      assert forall i :: i in reg.refused ==> RefusalOk(reg, i);
    }
    assert EventsOk(reg', x.events) by {
      assert forall i :: 0 <= i < |x.events| ==> EventOk(reg, x.events[i]);
    }
  }

  lemma DistributeOk(x: Session, out: seq<Frame>, y: Session, inc: seq<Frame>, f: Frame, rest: seq<Frame>,
                     ready: bool, k: nat)
    requires AtFrame(x, out, y, inc, f, rest) && !x.reg.gone
    ensures var (x', fs) := DistributeNext(x, ready, k); SessionOk(x') && AllSendable(fs)
  {
    hide RegistryOk, EventsOk, PassOk, Joined, Refused, Accepted, Route, DistributeNext;
    AtFrameFacts(x, out, y, inc, f, rest);
    DistributeCases(x, f, rest, ready, k);
    PassAdvances(x.readPending, f, rest, x.blocked);
    if f.Id() in x.blocked {
      assert x.blocked + {f.Id()} == x.blocked;
    } else if !f.FlagsOf().syn {
      RouteOk(x, f, rest, ready);
    } else if x.localGoAway {
      var reply := NewWindowUpdate(RstFlag, f.Id(), 0);
      RefusedOk(x, f, rest, reply);
      SendAllOk(Refused(x, f, rest, reply), k);
    } else {
      AcceptedOk(x, f, rest);
      RefusedOk(x, f, rest, NewWindowUpdate(AckFlag.(rst := true), f.Id(), 0));
    }
  }
}
