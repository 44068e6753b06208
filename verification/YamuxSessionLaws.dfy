/** What a session answers: pings, go-aways, requests for streams, events of streams, and the timer. */
module YamuxSessionLaws {
  import opened ByteStrings
  import opened YamuxFrame
  import opened YamuxStream
  import opened YamuxSession

  /** The frames a session has put on the wire, or still holds, since it held the given ones. */
  predicate Queues(s: Session, r: (Session, seq<Frame>), fs: seq<Frame>) {
    r.1 + r.0.writePending == s.writePending + fs
  }

  /** A live session hands the socket as many of the queued frames as it takes, oldest first. */
  lemma SendsWhatFits(s: Session, k: nat)
    requires !s.Dead()
    ensures var (s', out) := SendAll(s, k);
      Queues(s, (s', out), []) && |out| == Min(k, |s.writePending|) && s' == s.(writePending := s'.writePending)
  {
    assert s.writePending + [] == s.writePending;
  }

  /**
   * A ping is answered once, with its own number. An answer is not answered; it settles the ping it
   * names and every ping with a smaller number, and no other.
   */
  lemma PingIsAnswered(s: Session, f: Frame, k: nat)
    requires !s.Dead()
    ensures var (s', out) := HandlePing(s, f, k);
      && Queues(s, (s', out), if f.FlagsOf().syn then [NewPing(AckFlag, f.Length())] else [])
      && s' == s.(writePending := s'.writePending, pings := s'.pings)
      && (forall id :: id in s'.pings <==>
            id in s.pings && (f.FlagsOf().ack && !f.FlagsOf().syn ==> id > f.Length()))
      && (forall id :: id in s'.pings ==> s'.pings[id] == s.pings[id])
  {
    assert [] + s.writePending == s.writePending + [];
  }

  /** Going away throws away what was queued, and sends one code. */
  lemma GoesAwayAlone(s: Session, code: GoAwayCode, k: nat)
    requires !s.Dead()
    ensures var (s', out) := SendGoAwayWithCode(s, code, k);
      out + s'.writePending == [NewGoAway(code)] && s'.localGoAway && s'.remoteGoAway == s.remoteGoAway
  {
    assert [] + [NewGoAway(code)] == [NewGoAway(code)];
  }

  /** A peer that goes away is answered with a normal go-away, once, and the session is over. */
  lemma GoAwayIsAnsweredOnce(s: Session, k: nat)
    requires !s.Dead() && !s.remoteGoAway
    ensures var (s', out) := HandleGoAway(s, k);
      && s'.Dead()
      && out + s'.writePending == if s.localGoAway then [] else [NewGoAway(Normal)]
  {
    if !s.localGoAway {
      GoesAwayAlone(s.(remoteGoAway := true, writePending := []), Normal, k);
    }
  }

  /**
   * The timer ends a session that waits for an answer to its go-away. Otherwise, unless some ping has
   * been in flight for longer than the timeout, it sends a ping with a number different from the
   * last. That one is then in flight since now, the others still are since when they were sent, and
   * none of them is overdue.
   */
  lemma TimerPingsOrEnds(s: Session, now: nat, k: nat)
    requires !s.Dead()
    ensures var (s', out, overdue) := Tick(s, now, k);
      && (s.localGoAway ==> s'.Dead() && out == [] && !overdue && s'.pings == s.pings)
      && (overdue <==> !s.localGoAway && exists id :: id in s.pings && now > s.pings[id] + TIMEOUT)
      && (overdue ==> s' == s && out == [])
      && (!s.localGoAway && !overdue ==>
            && Queues(s, (s', out), [NewPing(SynFlag, s'.pingId)]) && s'.pingId != s.pingId && !s'.Dead()
            && s'.pings.Keys == s.pings.Keys + {s'.pingId}
            && s'.pings[s'.pingId] == now
            && (forall id :: id in s.pings && id != s'.pingId ==> s'.pings[id] == s.pings[id])
            && forall id :: id in s'.pings ==> now <= s'.pings[id] + TIMEOUT)
  {
    var n: int := s.pingId;
    assert Wrap32(n + 1) == if n == MAX_U32 then 0 else n + 1;
  }

  /**
   * An event of a stream: a frame is queued behind the others; the end of a stream takes that stream,
   * and no other, out of the table; and a complaint makes the session go away with a protocol error.
   */
  lemma EventIsHeard(s: Session, k: nat)
    requires !s.Dead() && s.events != []
    ensures var (s', out) := HandleEvent(s, k);
      && s'.events == s.events[1..] && s'.reg.handles == s.reg.handles
      && (forall id :: id in s'.reg.streams <==> id in s.reg.streams && s.events[0] != ClosedEvent(id))
      && match s.events[0]
         case FrameEvent(f) => Queues(s, (s', out), [f]) && s'.localGoAway == s.localGoAway
         case ClosedEvent(id) => Queues(s, (s', out), []) && s'.localGoAway == s.localGoAway
         case GoAwayEvent => out + s'.writePending == [NewGoAway(ProtocolError)] && s'.localGoAway
  {
    assert [] + s.writePending == s.writePending + [];
    if s.events[0].GoAwayEvent? {
      GoesAwayAlone(s.(events := s.events[1..]), ProtocolError, k);
    }
  }

  /**
   * A request for a stream is granted if and only if this side has not gone away, neither the table
   * nor the backlog is full, and the id is not in use. A stream that is granted waits to be accepted,
   * has announced its window, and has the request as its first frame. If there is no room, or this
   * side has gone away, a reset goes out; if the id is in use, the session goes away with an error.
   */
  lemma RequestIsGrantedIff(s: Session, f: Frame, ready: bool, k: nat)
    requires !s.Dead()
    ensures var (s', out) := DistributeSyn(s, f, ready, k);
      var id, room := f.Id(), HasRoom(s);
      && (s'.pendingStreams == s.pendingStreams + [id] <==> room && id !in s.reg.streams)
      && (!(room && id !in s.reg.streams) ==> s'.pendingStreams == s.pendingStreams)
      && (room && id !in s.reg.streams ==>
            && s'.reg.streams == s.reg.streams + {id} && id in s'.reg.handles
            && s'.reg.handles[id] == Deliver(CreateHandle(id, false, s.reg.config.maxStreamWindowSize), f)
            && s'.events == s.events + s'.reg.handles[id].sent && Queues(s, (s', out), []))
      && (room && id in s.reg.streams ==>
            out + s'.writePending == [NewGoAway(ProtocolError)] && s'.localGoAway && s'.taken == [])
      && (!room && !s.localGoAway ==> Queues(s, (s', out), [NewWindowUpdate(AckFlag.(rst := true), id, 0)]))
      && (s.localGoAway ==> Queues(s, (s', out), [NewWindowUpdate(RstFlag, id, 0)]) && s'.taken == [])
  {
    var id := f.Id();
    assert [] + s.writePending == s.writePending + [];
    if !HasRoom(s) {
      var reply := NewWindowUpdate(AckFlag.(rst := true), id, 0);
      assert [] + (s.writePending + [reply]) == s.writePending + [reply];
    } else if id in s.reg.streams {
      GoesAwayAlone(s, ProtocolError, k);
    } else {
      NewInboxEmpty(id, s.reg.config.maxStreamWindowSize);
    }
    hide CreateHandle;
  }

  /** There is room for a stream of the peer's. */
  predicate HasRoom(s: Session) {
    && !s.localGoAway
    && |s.reg.streams| < s.reg.config.maxStreamCount
    && |s.pendingStreams| < s.reg.config.acceptBacklog
  }

  lemma NewInboxEmpty(id: StreamId, maxRecvWindow: u32)
    ensures var h := CreateHandle(id, false, maxRecvWindow); h.inbox == [] && !h.dropped
  {
  }

  /** When a stream can be opened, which id it gets, and what is announced. */
  lemma OpeningSucceedsIff(s: Session)
    ensures var (s', e) := OpenStream(s);
      && (e == Some(SessionDead) <==> s.Dead())
      && (e == Some(RemoteWentAway) <==> !s.Dead() && s.remoteGoAway)
      && (e == Some(StreamsExhausted) <==> !s.Dead() && !s.remoteGoAway && s.reg.nextStreamId >= MAX_U32 - 1)
      && (e.None? ==>
            var id := s.reg.nextStreamId;
            && s'.reg.nextStreamId == id + 2
            && id !in s.reg.streams && s'.reg.streams == s.reg.streams + {id}
            && id in s'.reg.handles && s'.events == s.events + s'.reg.handles[id].sent
            && s'.reg.handles[id] == CreateHandle(id, true, s.reg.config.maxStreamWindowSize))
      && (e.Some? ==> s'.reg.streams == s.reg.streams && s'.reg.handles == s.reg.handles && s'.events == s.events)
  {
    hide CreateHandle;
  }
}
