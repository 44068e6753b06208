/** What each thing a session does means for the streams it carries. */
module YamuxSteps {
  import opened ByteStrings
  import opened YamuxFrame
  import opened YamuxStream
  import opened YamuxStreamLaws
  import opened YamuxStreamTrace
  import opened YamuxQueues
  import opened YamuxTransport
  import opened YamuxSession
  import opened YamuxNetwork

  // -------------------------------------------------------- writing to the wire

  lemma SendAllTx(x: Session, out: seq<Frame>, rx: Rx, id: StreamId, k: nat)
    requires Fifo(TxOf(x, id), out, rx, id)
    ensures var (x', fs) := SendAll(x, k); Fifo(TxOf(x', id), out + fs, rx, id) && RxOf(x', id) == RxOf(x, id)
  {
    hide Fifo;
    var (x', fs) := SendAll(x, k);
    var tx, tx', ev := TxOf(x, id), TxOf(x', id), FramesOf(x.events);
    if x.writePending == [] {
      assert out + fs == out;
    } else if x.Dead() {
      assert tx.queue == [x.writePending[0]] + tx'.queue;
      TxDie(tx, tx', out, rx, id, [x.writePending[0]]);
      assert out + fs == out;
    } else {
      assert x.writePending == fs + x'.writePending;
      Regroup(out, fs, x'.writePending, ev);
      TxMove(tx, tx', out, out + fs, rx, id);
    }
  }

  lemma SendAllOk(x: Session, k: nat)
    requires SessionOk(x)
    ensures SessionOk(SendAll(x, k).0) && AllSendable(SendAll(x, k).1)
  {
    hide RegistryOk, EventsOk;
  }

  lemma {:induction false} FramesOfOnStreams(es: seq<StreamEvent>)
    requires forall i :: 0 <= i < |es| ==> es[i].FrameEvent? ==> es[i].frame.WellFormed() && es[i].frame.OnStream()
    ensures OnStreams(FramesOf(es)) && !HasGoAway(FramesOf(es))
  {
    if es != [] {
      FramesOfOnStreams(es[1..]);
    }
  }

  lemma EventFramesOk(reg: Registry, es: seq<StreamEvent>)
    requires EventsOk(reg, es)
    ensures OnStreams(FramesOf(es)) && !HasGoAway(FramesOf(es))
  {
    FramesOfOnStreams(es);
  }

  /** A ping joins the write queue. */
  lemma PushPingTx(x: Session, out: seq<Frame>, rx: Rx, id: StreamId, f: Frame)
    requires Fifo(TxOf(x, id), out, rx, id) && EventsOk(x.reg, x.events) && f.Ty() == Ping
    ensures Fifo(TxOf(x.(writePending := x.writePending + [f]), id), out, rx, id)
  {
    hide Fifo;
    var x', ev := x.(writePending := x.writePending + [f]), FramesOf(x.events);
    EventFramesOk(x.reg, x.events);
    SelectOne(f, id);
    TxPush(TxOf(x, id), out, rx, id, x.writePending, f, ev);
    assert TxOf(x', id) == Tx(TxOf(x, id).sent + Select([f], id), x.writePending + [f] + ev, x.Dead());
  }

  /** The write queue is thrown away for a GoAway. */
  lemma GoAwayTx(x: Session, out: seq<Frame>, rx: Rx, id: StreamId, code: GoAwayCode, k: nat)
    requires Fifo(TxOf(x, id), out, rx, id)
    ensures var (x', fs) := SendGoAwayWithCode(x, code, k);
      Fifo(TxOf(x', id), out + fs, rx, id)
  {
    hide Fifo;
    var (x', fs) := SendGoAwayWithCode(x, code, k);
    var tx, tx', ev, g := TxOf(x, id), TxOf(x', id), FramesOf(x.events), NewGoAway(code);
    if x.Dead() {
      assert tx'.queue == ev && out + fs == out;
      TxDie(tx, tx', out, rx, id, x.writePending);
    } else {
      assert fs + x'.writePending == [g];
      Regroup(out, fs, x'.writePending, ev);
      TxGoAway(tx, tx', out, out + fs, rx, id, x.writePending, g, ev);
    }
  }

  lemma GoAwayOk(x: Session, k: nat)
    requires SessionOk(x) && x.taken == []
    ensures SessionOk(SendGoAwayWithCode(x, Normal, k).0) && AllSendable(SendGoAwayWithCode(x, Normal, k).1)
  {
    hide RegistryOk, EventsOk;
  }

  /** A session that has become dead hears nothing more. */
  lemma DeadRx(x: Session, x': Session, tx: Tx, inc: seq<Frame>, inc': seq<Frame>, id: StreamId)
    requires Fifo(tx, inc, RxOf(x, id), id) && x'.Dead() && (inc' == inc || (inc != [] && inc' == inc[1..]))
    requires Front(x'.reg, id) == Front(x.reg, id) && x'.readPending + x'.taken == x.readPending + x.taken
    ensures Fifo(tx, inc', RxOf(x', id), id)
  {
    hide Fifo;
    RxDeafen(tx, inc, inc', RxOf(x, id), id);
    assert RxOf(x', id) == RxOf(x, id).(listening := false);
  }

  /** What a registry says about one stream. */
  lemma RegistryFacts(reg: Registry, id: StreamId)
    requires RegistryOk(reg)
    ensures INITIAL_STREAM_WINDOW <= reg.config.maxStreamWindowSize
    ensures id in reg.streams ==> id in reg.handles
    ensures id in reg.handles ==> HandleOk(reg.handles[id], PlaceOf(reg, id))
    ensures id in reg.refused ==> RefusalOk(reg, id)
  {
    hide HandleOk;
  }

  // ------------------------------------------------------------ using a stream

  /** What has arrived at one end was emitted by the other, so it fits the windows it was emitted under. */
  lemma PeersFit(h: Handle, g: Handle)
    requires Bounded(g) && Accounted(h, false) && Accounted(g, false)
    requires Arrived(h) <= SentFrames(g) && Arrived(g) <= SentFrames(h)
    ensures Fits(h)
  {
    PrefixTotals(Arrived(h), SentFrames(g));
    PayloadOfAppend(h.handled, h.inbox);
    CreditOfAppend(h.handled, h.inbox);
    assert g.handled <= SentFrames(h);
    PrefixTotals(g.handled, SentFrames(h));
  }

  lemma HandleFits(x: Registry, y: Registry, id: StreamId)
    requires RegistryOk(x) && RegistryOk(y) && id in x.handles
    requires Front(x, id) <= Sent(y, id) && Front(y, id) <= Sent(x, id)
    ensures Fits(x.handles[id])
  {
    var h := x.handles[id];
    RegistryFacts(x, id);
    RegistryFacts(y, id);
    hide RegistryOk;
    if id in y.handles {
      hide Fits;
      PeersFit(h, y.handles[id]);
    } else {
      // the peer turned the stream down, so all that can have arrived is a reply without content
      if id in y.refused {
        TotalsSnoc([], y.refused[id].reply);
        assert [] + [y.refused[id].reply] == [y.refused[id].reply];
      }
      assert PayloadOf(Sent(y, id)) == [] && CreditOf(Sent(y, id)) == 0;
      hide HandleOk, Fits, PayloadOf, CreditOf;
      NothingFits(h, PlaceOf(x, id), Sent(y, id));
    }
  }

  lemma NothingFits(h: Handle, p: Place, sent: seq<Frame>)
    requires HandleOk(h, p) && Arrived(h) <= sent && PayloadOf(sent) == [] && CreditOf(sent) == 0
    ensures Fits(h)
  {
    PrefixTotals(Arrived(h), sent);
    PayloadOfAppend(h.handled, h.inbox);
    CreditOfAppend(h.handled, h.inbox);
    hide PayloadOf, CreditOf, Queued, WriterSafe, Opened, Routed, Headroom, Finished, Orderly;
  }

  /** The frames an operation emits are all of its stream. */
  lemma NewFrames(h: Handle, h': Handle, id: StreamId)
    requires h.sent <= h'.sent && Routed(h')
    ensures var fs := FramesOf(h'.sent[|h.sent|..]);
      && SentFrames(h') == SentFrames(h) + fs
      && !HasGoAway(fs)
      && Select(fs, id) == if id == h'.id then fs else []
  {
    var fs := FramesOf(h'.sent[|h.sent|..]);
    assert h'.sent == h.sent + h'.sent[|h.sent|..];
    FramesOfAppend(h.sent, h'.sent[|h.sent|..]);
    assert forall f :: f in fs ==> f in SentFrames(h') && OnStreamOf(f, h'.id);
    assert forall i :: 0 <= i < |fs| ==> fs[i] in fs;
    if id == h'.id {
      SelectAll(fs, id);
    } else {
      SelectNone(fs, id);
    }
  }

  lemma {:induction false} FrameOfEvent(es: seq<StreamEvent>, e: StreamEvent)
    requires e in es && e.FrameEvent?
    ensures e.frame in FramesOf(es)
  {
    if es[0] != e {
      FrameOfEvent(es[1..], e);
      assert FramesOf(es) == (if es[0].FrameEvent? then [es[0].frame] else []) + FramesOf(es[1..]);
    }
  }

  /** Every event of a well-behaved handle is one the session may see. */
  lemma SentEventOk(reg: Registry, id: StreamId, e: StreamEvent)
    requires id in reg.handles && reg.handles[id].id == id && Routed(reg.handles[id]) && Orderly(reg.handles[id])
    requires e in reg.handles[id].sent
    ensures EventOk(reg, e)
  {
    var h := reg.handles[id];
    if e.FrameEvent? {
      FrameOfEvent(h.sent, e);
      assert OnStreamOf(e.frame, h.id);
    }
  }

  lemma SentEventsOk(reg: Registry, id: StreamId, es: seq<StreamEvent>)
    requires id in reg.handles && reg.handles[id].id == id && Routed(reg.handles[id]) && Orderly(reg.handles[id])
    requires forall i :: 0 <= i < |es| ==> es[i] in reg.handles[id].sent
    ensures EventsOk(reg, es)
  {
    forall i | 0 <= i < |es|
      ensures EventOk(reg, es[i])
    {
      SentEventOk(reg, id, es[i]);
    }
  }

  lemma UseHandleOk(h: Handle, p: Place, op: HandleOp)
    requires HandleOk(h, p) && !h.dropped && Fits(h)
    ensures var h' := Apply(h, op, Link(p.held, !p.gone));
      HandleOk(h', p) && GoodStep(h, h') && h'.id == p.id && Routed(h') && Orderly(h')
  {
    hide Headroom, Apply;
    var link := Link(p.held, !p.gone);
    ApplyLaws(h, op, p.Opener(), !p.gone, link);
    ApplyFinished(h, op, p.Opener(), !p.gone, link);
    ApplyGood(h, op, p.Opener(), !p.gone, link);
  }

  /** Replacing one handle by its successor keeps the registry. */
  lemma ReplaceHandleOk(reg: Registry, id: StreamId, h': Handle)
    requires RegistryOk(reg) && id in reg.handles && HandleOk(h', PlaceOf(reg, id))
    ensures RegistryOk(reg.(handles := reg.handles[id := h']))
  {
    hide HandleOk;
    var reg' := reg.(handles := reg.handles[id := h']);
    assert forall i :: PlaceOf(reg', i) == PlaceOf(reg, i);
    assert forall i :: i in reg.refused ==> RefusalOk(reg, i);
  }

  /** Events already queued stay right when a handle moves on. */
  lemma EventsKept(reg: Registry, id: StreamId, h': Handle, es: seq<StreamEvent>)
    requires EventsOk(reg, es) && id in reg.handles
    requires reg.handles[id].state == Closed ==> h'.state == Closed
    requires reg.handles[id].dropped ==> h'.dropped
    ensures EventsOk(reg.(handles := reg.handles[id := h']), es)
  {
    var reg' := reg.(handles := reg.handles[id := h']);
    forall i | 0 <= i < |es|
      ensures EventOk(reg', es[i])
    {
      assert EventOk(reg, es[i]);
    }
  }

  /** The registry after an operation, and what it says about the handle it touched. */
  lemma UseRegistryOk(reg: Registry, id: StreamId, op: HandleOp)
    requires RegistryOk(reg) && id in reg.handles && !reg.handles[id].dropped && Fits(reg.handles[id])
    ensures var h' := Apply(reg.handles[id], op, Link(id in reg.streams, !reg.gone));
      && RegistryOk(reg.(handles := reg.handles[id := h']))
      && GoodStep(reg.handles[id], h') && h'.id == id && Routed(h') && Orderly(h')
  {
    var p := PlaceOf(reg, id);
    assert HandleOk(reg.handles[id], p);
    hide Apply, HandleOk, Laws, Orderly, Routed, RegistryOk;
    UseHandleOk(reg.handles[id], p, op);
    ReplaceHandleOk(reg, id, Apply(reg.handles[id], op, Link(p.held, !p.gone)));
  }

  lemma UseOk(x: Session, id: StreamId, op: HandleOp)
    requires SessionOk(x) && id in x.reg.handles && !x.reg.handles[id].dropped && Fits(x.reg.handles[id])
    ensures SessionOk(UseHandle(x, id, op))
  {
    hide Apply, Orderly, Routed, RegistryOk, EventsOk, PassOk, AllSendable;
    UseRegistryOk(x.reg, id, op);
    var h, x' := x.reg.handles[id], UseHandle(x, id, op);
    var h' := x'.reg.handles[id];
    EventsKept(x.reg, id, h', x.events);
    SentEventsOk(x'.reg, id, h'.sent[|h.sent|..]);
    EventsAppend(x'.reg, x.events, h'.sent[|h.sent|..]);
  }

  lemma EventsAppend(reg: Registry, a: seq<StreamEvent>, b: seq<StreamEvent>)
    requires EventsOk(reg, a) && EventsOk(reg, b)
    ensures EventsOk(reg, a + b)
  {
  }

  /** Events that join the queue of the session are, stream by stream, emissions of that stream. */
  lemma EmitTx(x: Session, x': Session, out: seq<Frame>, rx: Rx, id: StreamId, es: seq<StreamEvent>)
    requires Fifo(TxOf(x, id), out, rx, id) && !HasGoAway(FramesOf(es))
    requires x'.writePending == x.writePending && x'.events == x.events + es && x'.Dead() == x.Dead()
    requires Sent(x'.reg, id) == Sent(x.reg, id) + Select(FramesOf(es), id)
    ensures Fifo(TxOf(x', id), out, rx, id)
  {
    hide Fifo;
    FramesOfAppend(x.events, es);
    Assoc(x.writePending, FramesOf(x.events), FramesOf(es));
    TxEmit(TxOf(x, id), out, rx, id, FramesOf(es));
  }

  lemma UseTx(x: Session, out: seq<Frame>, rx: Rx, used: StreamId, op: HandleOp, id: StreamId)
    requires Fifo(TxOf(x, id), out, rx, id) && used in x.reg.handles
    requires var h' := UseHandle(x, used, op).reg.handles[used]; Routed(h') && h'.id == used
    ensures Fifo(TxOf(UseHandle(x, used, op), id), out, rx, id)
  {
    hide Fifo, Apply, Routed, TxOf;
    var h, x' := x.reg.handles[used], UseHandle(x, used, op);
    var h' := x'.reg.handles[used];
    NewFrames(h, h', id);
    EmitTx(x, x', out, rx, id, h'.sent[|h.sent|..]);
  }

  lemma UseRx(x: Session, used: StreamId, op: HandleOp, id: StreamId)
    requires used in x.reg.handles
    requires Arrived(UseHandle(x, used, op).reg.handles[used]) == Arrived(x.reg.handles[used])
    ensures RxOf(UseHandle(x, used, op), id) == RxOf(x, id)
  {
    hide Apply;
  }

  // --------------------------------------------------------- opening a stream

  lemma NewHandleOk(id: StreamId, opener: bool, p: Place)
    requires p.id == id && p.Opener() == opener && !p.gone && p.held && INITIAL_STREAM_WINDOW <= p.maxWindow
    requires opener ==> id < p.next
    ensures var h := CreateHandle(id, opener, p.maxWindow);
      && (opener ==> HandleOk(h, p))
      && (forall f :: !opener && OnStreamOf(f, id) ==> HandleOk(Deliver(h, f), p))
  {
    CreateHandleLaws(id, opener, p.maxWindow);
    var h := CreateHandle(id, opener, p.maxWindow);
    hide CreateHandle;
    forall f | OnStreamOf(f, id)
      ensures Laws(Deliver(h, f), opener, true)
    {
      DeliverLaws(h, f, opener, true);
    }
  }

  /** A stream is added with its first handle, whose announcement is its first emission. */
  lemma AddStreamTx(x: Session, out: seq<Frame>, rx: Rx, added: StreamId, opener: bool, id: StreamId)
    requires Fifo(TxOf(x, id), out, rx, id)
    requires added !in x.reg.streams && Fresh(x.reg, added)
    requires INITIAL_STREAM_WINDOW <= x.reg.config.maxStreamWindowSize
    ensures Fifo(TxOf(AddStream(x, added, opener).value, id), out, rx, id)
  {
    hide Fifo, CreateHandle, TxOf;
    var x' := AddStream(x, added, opener).value;
    var h := x'.reg.handles[added];
    CreateHandleLaws(added, opener, x.reg.config.maxStreamWindowSize);
    SelectOne(h.sent[0].frame, id);
    assert OnStreamOf(SentFrames(h)[0], added) by { assert SentFrames(h)[0] in SentFrames(h); }
    EmitTx(x, x', out, rx, id, h.sent);
  }

  /** What a handle owes its place only grows weaker as ids are handed out and the session ends. */
  lemma HandleMoves(h: Handle, p: Place, p': Place)
    requires HandleOk(h, p) && p'.id == p.id && p'.ty == p.ty && p'.maxWindow == p.maxWindow
    requires p.next <= p'.next && (p.gone ==> p'.gone)
    requires !p'.gone && !h.dropped && h.state != Closed ==> p'.held
    ensures HandleOk(h, p')
  {
  }

  lemma RegistryMoves(reg: Registry, reg': Registry)
    requires RegistryOk(reg) && reg'.handles == reg.handles && reg'.refused == reg.refused
    requires reg'.ty == reg.ty && reg'.config == reg.config && (reg.gone ==> reg'.gone)
    requires reg.nextStreamId <= reg'.nextStreamId && reg'.nextStreamId % 2 == reg.nextStreamId % 2
    requires reg'.streams <= reg.streams
    requires forall id :: id in reg.streams && id !in reg'.streams ==>
      reg'.gone || reg.handles[id].dropped || reg.handles[id].state == Closed
    ensures RegistryOk(reg')
  {
    forall id | id in reg'.handles
      ensures HandleOk(reg'.handles[id], PlaceOf(reg', id))
    {
      HandleMoves(reg.handles[id], PlaceOf(reg, id), PlaceOf(reg', id));
    }
    assert forall id :: id in reg.refused ==> RefusalOk(reg, id);
  }

  /** A stream nobody has heard of joins the registry. */
  lemma AddHandleOk(reg: Registry, id: StreamId, h: Handle)
    requires RegistryOk(reg) && Fresh(reg, id) && HandleOk(h, PlaceOf(reg, id).(held := true))
    ensures RegistryOk(reg.(streams := reg.streams + {id}, handles := reg.handles[id := h]))
  {
    hide HandleOk;
    var reg' := reg.(streams := reg.streams + {id}, handles := reg.handles[id := h]);
    assert forall i :: i != id ==> PlaceOf(reg', i) == PlaceOf(reg, i);
    assert forall i :: i in reg.refused ==> RefusalOk(reg, i);
  }
}
