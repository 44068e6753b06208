/**
 * What holds in every run of a client session joined to a server session, whatever their users do,
 * however slowly sockets and channels move, and whenever either side goes away or dies.
 */
module YamuxTheorems {
  import opened ByteStrings
  import opened Subsequences
  import opened YamuxCodec
  import opened YamuxFrame
  import opened YamuxStream
  import opened YamuxStreamLaws
  import opened YamuxStreamTrace
  import opened YamuxQueues
  import opened YamuxTransport
  import opened YamuxSession
  import opened YamuxSlots
  import opened YamuxNetwork
  import opened YamuxSteps
  import opened YamuxActions

  // ------------------------------------------------------- the invariant of runs

  lemma Swap(x: Session, out: seq<Frame>, y: Session, inc: seq<Frame>)
    requires PairOk(x, out, y, inc)
    ensures PairOk(y, inc, x, out)
  {
    hide SessionOk, Fifo;
    forall id
      ensures Joined(y, inc, x, out, id)
    {
      assert Joined(x, out, y, inc, id);
    }
  }

  lemma StartOk(client: Config, server: Config)
    requires INITIAL_STREAM_WINDOW <= client.maxStreamWindowSize && INITIAL_STREAM_WINDOW <= server.maxStreamWindowSize
    ensures NetworkOk(Start(client, server))
  {
    var n := Start(client, server);
    forall id
      ensures Joined(n.a, n.ab, n.b, n.ba, id)
    {
      assert [] + ([] + ([] + FramesOf([]))) == [] && [] + ([] + FramesOf([])) == [];
    }
  }

  lemma StepOk(n: Network, side: Side, act: Action)
    requires NetworkOk(n)
    ensures NetworkOk(Step(n, side, act))
  {
    hide PairOk, Act;
    match side
    case A =>
      if Enabled(n.a, n.ba, act) {
        ActStep(n.a, n.ab, n.b, n.ba, act);
      }
    case B =>
      if Enabled(n.b, n.ab, act) {
        Swap(n.a, n.ab, n.b, n.ba);
        ActStep(n.b, n.ba, n.a, n.ab, act);
        var (s, out) := Act(n.b, n.ab, act);
        Swap(s, n.ba + out, n.a, n.ab[Consumed(act)..]);
      }
  }

  /** The invariant holds in every state of every run. */
  lemma {:induction false} RunOk(n: Network, acts: seq<(Side, Action)>)
    requires NetworkOk(n)
    ensures NetworkOk(Run(n, acts))
    decreases |acts|
  {
    if acts != [] {
      hide NetworkOk;
      StepOk(n, acts[0].0, acts[0].1);
      RunOk(Step(n, acts[0].0, acts[0].1), acts[1..]);
    }
  }

  /** A state some run of two configured sessions reaches. */
  ghost predicate Reachable(n: Network) {
    exists client: Config, server: Config, acts: seq<(Side, Action)> ::
      && INITIAL_STREAM_WINDOW <= client.maxStreamWindowSize && INITIAL_STREAM_WINDOW <= server.maxStreamWindowSize
      && n == Run(Start(client, server), acts)
  }

  lemma ReachableOk(n: Network)
    requires Reachable(n)
    ensures NetworkOk(n)
  {
    var client: Config, server: Config, acts: seq<(Side, Action)> :|
      && INITIAL_STREAM_WINDOW <= client.maxStreamWindowSize && INITIAL_STREAM_WINDOW <= server.maxStreamWindowSize
      && n == Run(Start(client, server), acts);
    hide NetworkOk;
    StartOk(client, server);
    RunOk(Start(client, server), acts);
  }

  // ------------------------------------------------------------ both directions

  function Here(n: Network, side: Side): (s: Session) { if side == A then n.a else n.b }
  function There(n: Network, side: Side): (s: Session) { if side == A then n.b else n.a }
  function WireFrom(n: Network, side: Side): (w: seq<Frame>) { if side == A then n.ab else n.ba }
  function WireTo(n: Network, side: Side): (w: seq<Frame>) { if side == A then n.ba else n.ab }

  /** Frames of a stream on their way from the given side, not yet given to the stream over there. */
  function OnTheWay(n: Network, side: Side, id: StreamId): (fs: seq<Frame>) {
    var x, y := Here(n, side), There(n, side);
    Select((y.readPending + y.taken) + (WireFrom(n, side) + (x.writePending + FramesOf(x.events))), id)
  }

  /** Neither side has thrown away, or will throw away, a frame of the stream sent from the given side. */
  predicate Intact(n: Network, side: Side, id: StreamId) {
    Listening(There(n, side), id) && Exact(TxOf(Here(n, side), id), WireFrom(n, side))
  }

  lemma SideOk(n: Network, side: Side)
    requires NetworkOk(n)
    ensures PairOk(Here(n, side), WireFrom(n, side), There(n, side), WireTo(n, side))
  {
    if side == B {
      Swap(n.a, n.ab, n.b, n.ba);
    }
  }

  lemma SideFacts(n: Network, side: Side, id: StreamId)
    requires Reachable(n)
    ensures RegistryOk(Here(n, side).reg) && RegistryOk(There(n, side).reg)
    ensures Fifo(TxOf(Here(n, side), id), WireFrom(n, side), RxOf(There(n, side), id), id)
    ensures Fifo(TxOf(There(n, side), id), WireTo(n, side), RxOf(Here(n, side), id), id)
  {
    ReachableOk(n);
    SideOk(n, side);
    hide RegistryOk, Fifo, EventsOk, PassOk, AllSendable;
    assert Joined(Here(n, side), WireFrom(n, side), There(n, side), WireTo(n, side), id);
  }

  // ------------------------------------------------------------------ theorems

  /**
   * Nothing is forged, duplicated or reordered: what has arrived at one end of a stream is a prefix
   * of what the other end emitted, and what is on the way is a subsequence of the rest; all of the
   * rest while the direction is intact.
   */
  lemma FramesArriveInOrder(n: Network, side: Side, id: StreamId)
    requires Reachable(n)
    ensures var sent, front := Sent(Here(n, side).reg, id), Front(There(n, side).reg, id);
      && front <= sent
      && IsSubseq(OnTheWay(n, side, id), sent[|front|..])
      && (Intact(n, side, id) ==> OnTheWay(n, side, id) == sent[|front|..])
  {
    SideFacts(n, side, id);
    if Intact(n, side, id) {
      BeforeAll(WireFrom(n, side) + TxOf(Here(n, side), id).queue);
    }
  }

  /**
   * The bytes a reader has been given are a prefix of those the writer at the other end was told
   * were accepted. Once nothing is on the way in an intact direction, they are all there.
   */
  lemma EndToEnd(n: Network, side: Side, id: StreamId)
    requires Reachable(n) && id in Here(n, side).reg.handles && id in There(n, side).reg.handles
    ensures var writer, reader := Here(n, side).reg.handles[id], There(n, side).reg.handles[id];
      && reader.consumed <= writer.accepted
      && (Intact(n, side, id) && OnTheWay(n, side, id) == [] && reader.inbox == [] ==>
            reader.consumed + Unread(reader) == writer.accepted)
  {
    SideFacts(n, side, id);
    hide Fifo;
    RegistryFacts(Here(n, side).reg, id);
    RegistryFacts(There(n, side).reg, id);
    hide RegistryOk, Intact, OnTheWay, HandleOk;
    FramesArriveInOrder(n, side, id);
    BytesArrive(Here(n, side).reg.handles[id], There(n, side).reg.handles[id], PlaceOf(There(n, side).reg, id));
  }

  /** A reader that got a prefix of the frames has consumed a prefix of the bytes. */
  lemma BytesArrive(writer: Handle, reader: Handle, p: Place)
    requires HandleOk(reader, p) && Arrived(reader) <= SentFrames(writer)
    ensures reader.consumed <= PayloadOf(SentFrames(writer))
    ensures Arrived(reader) == SentFrames(writer) && reader.inbox == [] ==>
      reader.consumed + Unread(reader) == PayloadOf(SentFrames(writer))
  {
    PrefixTotals(Arrived(reader), SentFrames(writer));
    PayloadOfAppend(reader.handled, reader.inbox);
    assert reader.inbox == [] ==> Arrived(reader) == reader.handled;
  }

  /** What one side may still send on a stream, counted where the credit is given. */
  function Granted(s: Session, id: StreamId): (w: nat) {
    if id in s.reg.handles then s.reg.handles[id].recvWindow else INITIAL_STREAM_WINDOW
  }

  function InChannel(s: Session, id: StreamId): (fs: seq<Frame>) {
    if id in s.reg.handles then s.reg.handles[id].inbox else []
  }

  /**
   * Credit is conserved: the window of the sender, the data on its way, and the credit on its way
   * back, never exceed the window of the receiver, and make it up exactly while both directions are
   * intact.
   */
  lemma CreditConserved(n: Network, side: Side, id: StreamId)
    requires Reachable(n) && id in Here(n, side).reg.handles
    ensures var x, y := Here(n, side), There(n, side);
      var data := |PayloadOf(OnTheWay(n, side, id))| + |PayloadOf(InChannel(y, id))|;
      var other := if side == A then B else A;
      var credit := CreditOf(OnTheWay(n, other, id)) + CreditOf(InChannel(x, id));
      && x.reg.handles[id].sendWindow + data + credit <= Granted(y, id)
      && (Intact(n, side, id) && Intact(n, other, id) && id in y.reg.handles && !y.reg.gone ==>
            x.reg.handles[id].sendWindow + data + credit == Granted(y, id))
  {
    var x, y := Here(n, side), There(n, side);
    SideFacts(n, side, id);
    hide RegistryOk, Fifo, Select, Exact;
    WindowTotals(x, id);
    WindowTotals(y, id);
    FifoTotals(TxOf(x, id), WireFrom(n, side), RxOf(y, id), id);
    FifoTotals(TxOf(y, id), WireTo(n, side), RxOf(x, id), id);
  }

  /** The windows of one end, in terms of what it has emitted and of what has arrived. */
  lemma WindowTotals(s: Session, id: StreamId)
    requires RegistryOk(s.reg)
    ensures var sent, front, waiting := Sent(s.reg, id), Front(s.reg, id), InChannel(s, id);
      && Granted(s, id) + |PayloadOf(front)| >= INITIAL_STREAM_WINDOW + CreditOf(sent) + |PayloadOf(waiting)|
      && (id in s.reg.handles ==>
            && s.reg.handles[id].sendWindow + |PayloadOf(sent)| + CreditOf(waiting)
               == INITIAL_STREAM_WINDOW + CreditOf(front)
            && (!s.reg.gone ==>
                  Granted(s, id) + |PayloadOf(front)|
                  == INITIAL_STREAM_WINDOW + CreditOf(sent) + |PayloadOf(waiting)|))
  {
    RegistryFacts(s.reg, id);
    hide RegistryOk;
    if id in s.reg.handles {
      var h := s.reg.handles[id];
      PayloadOfAppend(h.handled, h.inbox);
      CreditOfAppend(h.handled, h.inbox);
    } else if id in s.reg.refused {
      TotalsSnoc([], s.reg.refused[id].reply);
      assert [] + [s.reg.refused[id].reply] == [s.reg.refused[id].reply];
    }
  }

  /**
   * Two conforming sessions never accuse each other: no GoAway on either wire or in either queue
   * reports an error, no handle asks for one, and whatever is queued for a handle it will take.
   */
  lemma NoProtocolError(n: Network, side: Side)
    requires Reachable(n)
    ensures AllSendable(WireFrom(n, side)) && AllSendable(Here(n, side).writePending)
    ensures GoAwayEvent !in Here(n, side).events
    ensures forall id :: id in Here(n, side).reg.handles ==>
      && GoAwayEvent !in Here(n, side).reg.handles[id].sent
      && forall link :: !IsProtocolError(RecvFrames(Here(n, side).reg.handles[id], link).1)
  {
    ReachableOk(n);
    SideOk(n, side);
    var x, y := Here(n, side), There(n, side);
    hide HandleOk, Fifo;
    assert forall i :: 0 <= i < |x.events| ==> EventOk(x.reg, x.events[i]);
    hide PairOk, SessionOk, NetworkOk, RegistryOk, RecvFrames;
    forall id | id in x.reg.handles
      ensures GoAwayEvent !in x.reg.handles[id].sent
      ensures forall link :: !IsProtocolError(RecvFrames(x.reg.handles[id], link).1)
    {
      AcceptsAll(n, side, id);
    }
  }

  lemma AcceptsAll(n: Network, side: Side, id: StreamId)
    requires Reachable(n) && id in Here(n, side).reg.handles
    ensures GoAwayEvent !in Here(n, side).reg.handles[id].sent
    ensures forall link :: !IsProtocolError(RecvFrames(Here(n, side).reg.handles[id], link).1)
  {
    var x, y := Here(n, side), There(n, side);
    SideFacts(n, side, id);
    hide RegistryOk;
    HandleFits(x.reg, y.reg, id);
    RegistryFacts(x.reg, id);
    hide RecvFrames, Fits;
    forall link
      ensures !IsProtocolError(RecvFrames(x.reg.handles[id], link).1)
    {
      RecvFramesAccepts(x.reg.handles[id], link);
    }
  }

  /** Opening a stream never collides with a stream that exists. */
  lemma NoDuplicateStream(n: Network, side: Side)
    requires Reachable(n) && !Here(n, side).reg.gone
    ensures OpenStream(Here(n, side)).1 != Some(DuplicateStream)
  {
    ReachableOk(n);
    SideOk(n, side);
    hide SessionOk, OpenStream;
    OpenOk(Here(n, side));
  }

  /** Every Data frame on a wire is short enough for the decoder at its end. */
  lemma DataFitsDecoder(n: Network, side: Side, f: Frame)
    requires Reachable(n) && f in WireFrom(n, side) && f.Ty() == Data
    ensures f.Length() <= There(n, side).reg.config.maxStreamWindowSize
  {
    var id, x, y, w := f.Id(), Here(n, side), There(n, side), WireFrom(n, side);
    SideFacts(n, side, id);
    var q := (y.readPending + y.taken) + (w + (x.writePending + FramesOf(x.events)));
    assert f in q;
    SelectMember(q, f);
    SubseqMember(OnTheWay(n, side, id), Sent(x.reg, id)[|Front(y.reg, id)|..], f);
    assert f in Sent(x.reg, id);
    RegistryFacts(x.reg, id);
    RegistryFacts(y.reg, id);
    MemberTotals(OnTheWay(n, side, id), f);
    hide RegistryOk, Fifo;
    assert f.WellFormed() by {
      if id in x.reg.handles {
        assert OnStreamOf(f, id);
      }
    }
    if id in x.reg.handles {
      CreditConserved(n, side, id);
    } else {
      assert f == x.reg.refused[id].reply;
    }
  }

  /**
   * However the socket cuts up what one side wrote, the decoder at the other end, which keeps a
   * header or part of a frame from one chunk to the next, gets exactly its frames.
   */
  method DecodeWire(ghost n: Network, ghost side: Side, chunks: seq<Bytes>, max: u32)
    returns (frames: seq<Frame>, error: Option<DecodeError>)
    requires Reachable(n) && Flatten(chunks) == EncodeAll(WireFrom(n, side))
    requires max == There(n, side).reg.config.maxStreamWindowSize
    ensures frames == WireFrom(n, side) && error == None
  {
    frames, error := DecodeStream(chunks, max);
    WireDecodes(n, side);
  }

  /** Everything on a wire can be read back, by the limits of the session at its end. */
  lemma WireDecodes(n: Network, side: Side)
    requires Reachable(n)
    ensures Parse(EncodeAll(WireFrom(n, side)), There(n, side).reg.config.maxStreamWindowSize)
         == (WireFrom(n, side), Rest([]))
  {
    var w, max := WireFrom(n, side), There(n, side).reg.config.maxStreamWindowSize;
    NoProtocolError(n, side);
    hide Reachable, Parse, EncodeAll;
    forall f | f in w
      ensures Decodable(f, max)
    {
      if f.Ty() == Data {
        DataFitsDecoder(n, side, f);
      }
    }
    RoundTrip(w, max);
  }

  lemma {:induction false} MemberTotals(fs: seq<Frame>, f: Frame)
    requires f in fs
    ensures |f.Payload()| <= |PayloadOf(fs)|
  {
    if fs[0] != f {
      MemberTotals(fs[1..], f);
    }
  }

  /**
   * In every reachable state, a stream of the peer's has been answered if and only if something of it
   * has arrived. The first thing that arrived is the request, the only one; the first thing sent is
   * the answer, an ACK or a RST, the only one; and a request that was refused is all that ever
   * arrives, and its RST all that is ever sent.
   */
  lemma SynIsAnsweredOnce(n: Network, side: Side, id: StreamId)
    requires Reachable(n) && !Mine(Here(n, side).reg.ty, id)
    ensures var x := Here(n, side);
      var came, sent := Front(x.reg, id), Sent(x.reg, id);
      && (came != [] <==> sent != [])
      && (came != [] ==>
            && came[0].FlagsOf().syn && (sent[0].FlagsOf().ack || sent[0].FlagsOf().rst)
            && (forall i :: 0 < i < |came| ==> !came[i].FlagsOf().syn)
            && (forall i :: 0 < i < |sent| ==> Plain(sent[i]))
            && (id !in x.reg.handles ==> |came| == |sent| == 1 && sent[0].FlagsOf().rst))
  {
    hide RegistryOk, Fifo, Reachable, Front, Sent, Intact, OnTheWay, IsSubseq, Plain;
    var x, y, other := Here(n, side), There(n, side), if side == A then B else A;
    SideFacts(n, side, id);
    SidesDiffer(n, side);
    FramesArriveInOrder(n, other, id);
    assert Front(x.reg, id) <= Sent(y.reg, id);
    OwnTrace(y.reg, id);
    AnswerTrace(x.reg, id);
  }

  lemma OwnTrace(reg: Registry, id: StreamId)
    requires RegistryOk(reg) && Mine(reg.ty, id)
    ensures var sent := Sent(reg, id);
      && (sent != [] ==> sent[0].FlagsOf().syn)
      && (forall i :: 0 < i < |sent| ==> !sent[i].FlagsOf().syn)
  {
    RegistryFacts(reg, id);
    hide RegistryOk, Bounded, Accounted, Queued, Reported, WriterSafe, Headroom, Routed, Finished, Orderly;
  }

  lemma AnswerTrace(reg: Registry, id: StreamId)
    requires RegistryOk(reg) && !Mine(reg.ty, id)
    ensures var came, sent := Front(reg, id), Sent(reg, id);
      && (came != [] <==> sent != [])
      && (sent != [] ==> sent[0].FlagsOf().ack || sent[0].FlagsOf().rst)
      && (forall i :: 0 < i < |sent| ==> Plain(sent[i]))
      && (sent != [] && id !in reg.handles ==> |came| == |sent| == 1 && sent[0].FlagsOf().rst)
  {
    RegistryFacts(reg, id);
    hide RegistryOk, Bounded, Accounted, Queued, Reported, WriterSafe, Headroom, Routed, Finished, Orderly;
  }

  lemma {:induction false} RunTellsFreed(n: Network, acts: seq<(Side, Action)>)
    requires Freed(n.a) && Freed(n.b)
    ensures Freed(Run(n, acts).a) && Freed(Run(n, acts).b)
    decreases |acts|
  {
    hide Freed;
    if acts != [] {
      var (side, act) := acts[0];
      HappensFreed(n.a, Happening(act, n.ba));
      HappensFreed(n.b, Happening(act, n.ab));
      hide Act, Enabled;
      RunTellsFreed(Step(n, side, act), acts[1..]);
    }
  }

  /**
   * In every reachable state the table of a session that is there has the streams in use and no stream
   * the session has been told of: one neither closed nor dropped has its slot, one of whose end the
   * session has heard has none.
   */
  lemma TableIsTrue(n: Network, side: Side, id: StreamId)
    requires Reachable(n) && !Here(n, side).reg.gone && id in Here(n, side).reg.handles
    ensures var s := Here(n, side);
      && (!s.reg.handles[id].dropped && s.reg.handles[id].state != Closed ==> id in s.reg.streams)
      && (ClosedEvent(id) in s.reg.handles[id].sent && ClosedEvent(id) !in s.events ==> id !in s.reg.streams)
  {
    var client: Config, server: Config, acts: seq<(Side, Action)> :|
      && INITIAL_STREAM_WINDOW <= client.maxStreamWindowSize && INITIAL_STREAM_WINDOW <= server.maxStreamWindowSize
      && n == Run(Start(client, server), acts);
    NewSessionGood(Client, client);
    NewSessionGood(Server, server);
    RunTellsFreed(Start(client, server), acts);
    SideFacts(n, side, id);
    RegistryFacts(Here(n, side).reg, id);
    hide RegistryOk, Fifo, Run, Reachable, Laws, Finished, Orderly;
    assert ToldOf(Here(n, side), id) ==> id !in Here(n, side).reg.streams;
  }

  lemma SidesDiffer(n: Network, side: Side)
    requires Reachable(n)
    ensures Here(n, side).reg.ty != There(n, side).reg.ty
  {
    ReachableOk(n);
    SideOk(n, side);
  }

  /** The frames of every handle follow the grammar: SYN or ACK first and never again, one FIN, no data after it. */
  lemma TraceGrammar(n: Network, side: Side, id: StreamId)
    requires Reachable(n) && id in Here(n, side).reg.handles
    ensures var fs := SentFrames(Here(n, side).reg.handles[id]);
      && fs != [] && Opens(fs[0], Mine(Here(n, side).reg.ty, id))
      && (forall i :: 0 < i < |fs| ==> Plain(fs[i]))
      && FinGrammar(fs)
  {
    SideFacts(n, side, id);
    RegistryFacts(Here(n, side).reg, id);
    hide RegistryOk, Fifo;
  }

  // ------------------------------------------------------- no credit deadlock

  /**
   * A writer out of window, with nothing under way in either direction, faces a reader that holds
   * more than half a window of bytes it has not read yet, unless it has stopped receiving.
   */
  lemma StuckMeansUnread(n: Network, side: Side, id: StreamId)
    requires Reachable(n) && id in Here(n, side).reg.handles && id in There(n, side).reg.handles
    requires var other := if side == A then B else A;
      && Intact(n, side, id) && Intact(n, other, id) && !There(n, side).reg.gone
      && OnTheWay(n, side, id) == [] && OnTheWay(n, other, id) == []
      && InChannel(Here(n, side), id) == [] && InChannel(There(n, side), id) == []
    requires Here(n, side).reg.handles[id].sendWindow == 0
    ensures var reader := There(n, side).reg.handles[id];
      && reader.recvWindow == 0
      && (Receiving(reader.state) ==> |Unread(reader)| > reader.maxRecvWindow / 2)
  {
    CreditConserved(n, side, id);
    SideFacts(n, side, id);
    RegistryFacts(There(n, side).reg, id);
    hide RegistryOk, Fifo;
  }

  lemma NothingToTake(h: Handle)
    requires Receiving(h.state) && h.inbox == [] && h.readBuf != []
    ensures PrepareRead(h, Link(true, true)) == (h.(readWaker := true), None)
  {
  }

  /** Reading everything then grants the writer a whole window again. */
  lemma DrainingGrants(h: Handle, cap: nat, opener: bool, open: bool)
    requires Laws(h, opener, open) && Receiving(h.state) && h.inbox == [] && h.recvWindow == 0 && h.readBuf != []
    requires cap >= |Unread(h)|
    ensures var (h', r) := PollRead(h, cap, Link(true, true));
      && r == ReadBytes(Unread(h))
      && h'.recvWindow == h.maxRecvWindow
      && h'.sent == h.sent + [FrameEvent(NewWindowUpdate(NoFlags, h.id, h.maxRecvWindow))]
  {
    var h1 := h.(readWaker := true);
    NothingToTake(h);
    hide PrepareRead, RecvFrames, Accounted, Opened, Routed, Reported;
    ReadChunksIsDequeue(h.readBuf, cap);
    var (out, rest) := ReadChunks(h.readBuf, cap);
    assert out == Unread(h) && Flatten(rest) == [];
    hide ReadChunks, Flatten;
    WindowUpdateFacts(h1.(readBuf := rest, consumed := h1.consumed + out), Link(true, true));
    hide SendWindowUpdate;
  }
}
