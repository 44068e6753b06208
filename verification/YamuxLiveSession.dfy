/**
 * The session as the object it is, with its queues and flags updated in place. View is its value,
 * and each method is proved to move it, and to put on the wire, exactly what the functions of
 * YamuxSession say. The handles at the other ends of the frame channels are kept as values; what
 * the socket and the channels answer are arguments.
 */
module YamuxLiveSession {
  import opened ByteStrings
  import opened YamuxFrame
  import opened YamuxStream
  import opened YamuxSession
  import opened YamuxPass

  class LiveSession {
    const ty: SessionType
    const config: Config
    var nextStreamId: u32
    var streams: set<StreamId>
    var handles: map<StreamId, Handle>
    var eof: bool
    var remoteGoAway: bool
    var localGoAway: bool
    var pings: map<u32, nat>
    var pingId: u32
    var pendingStreams: seq<StreamId>
    var writePendingFrames: seq<Frame>
    var readPendingFrames: seq<Frame>
    var events: seq<StreamEvent>
    ghost var refused: map<StreamId, Refusal>
    ghost var taken: seq<Frame>
    ghost var blocked: set<StreamId>

    ghost function View(): (s: Session)
      reads this
    {
      Session(Registry(ty, config, false, nextStreamId, streams, handles, refused),
              eof, remoteGoAway, localGoAway, pings, pingId, pendingStreams, writePendingFrames, readPendingFrames,
              taken, blocked, events)
    }

    constructor (config: Config, ty: SessionType)
      requires INITIAL_STREAM_WINDOW <= config.maxStreamWindowSize
      ensures View() == NewSession(ty, config)
    {
      this.ty, this.config := ty, config;
      nextStreamId := match ty case Client => 1 case Server => 2;
      streams, handles, refused := {}, map[], map[];
      eof, remoteGoAway, localGoAway, pings, pingId := false, false, false, map[], 0;
      pendingStreams, writePendingFrames, readPendingFrames, events := [], [], [], [];
      taken, blocked := [], {};
    }

    predicate IsDead()
      reads this
      ensures IsDead() == View().Dead()
    {
      (remoteGoAway && localGoAway) || eof
    }

    // -------------------------------------------------------------- sending

    /** Hands queued frames to the socket, which takes up to k of them. */
    method SendAll(k: nat) returns (out: seq<Frame>)
      modifies this`writePendingFrames
      ensures (View(), out) == YamuxSession.SendAll(old(View()), k)
    {
      ghost var queue := writePendingFrames;
      out := [];
      while writePendingFrames != []
        invariant out + writePendingFrames == queue && |out| <= k
        invariant out != [] ==> !IsDead()
        decreases |writePendingFrames|
      {
        var frame := writePendingFrames[0];
        writePendingFrames := writePendingFrames[1..];
        if IsDead() {
          assert [frame] + writePendingFrames == queue;
          return;
        }
        if |out| == k {
          writePendingFrames := [frame] + writePendingFrames;
          break;
        }
        out := out + [frame];
      }
      assert out == queue[..|out|] && writePendingFrames == queue[|out|..];
    }

    method SendFrame(f: Frame, k: nat) returns (out: seq<Frame>)
      modifies this`writePendingFrames
      ensures (View(), out) == YamuxSession.SendFrame(old(View()), f, k)
    {
      writePendingFrames := writePendingFrames + [f];
      out := SendAll(k);
    }

    method SendGoAwayWithCode(code: GoAwayCode, k: nat) returns (out: seq<Frame>)
      modifies this`writePendingFrames, this`localGoAway
      ensures (View(), out) == YamuxSession.SendGoAwayWithCode(old(View()), code, k)
    {
      writePendingFrames := [];
      out := SendFrame(NewGoAway(code), k);
      localGoAway := true;
    }

    // -------------------------------------------------------------- streams

    method CreateStream(requested: Option<StreamId>) returns (r: Result<StreamId, SessionError>)
      modifies this`nextStreamId, this`streams, this`handles, this`events
      ensures match requested
        case Some(id) =>
          (match AddStream(old(View()), id, false)
           case Failure(e) => View() == old(View()) && r == Failure(e)
           case Success(s) => View() == s && r == Success(id))
        case None =>
          if old(nextStreamId) + 2 > MAX_U32 then View() == old(View()) && r == Failure(StreamsExhausted)
          else
            var s0 := old(View()).(reg := old(View()).reg.(nextStreamId := old(nextStreamId) + 2));
            match AddStream(s0, old(nextStreamId), true)
            case Failure(e) => View() == s0 && r == Failure(e)
            case Success(s) => View() == s && r == Success(old(nextStreamId))
    {
      hide CreateHandle;
      var id, opener;
      match requested {
        case Some(requestedId) =>
          id, opener := requestedId, false;
        case None =>
          if nextStreamId + 2 > MAX_U32 {
            return Failure(StreamsExhausted);
          }
          id, opener := nextStreamId, true;
          nextStreamId := nextStreamId + 2;
      }
      if id in streams {
        return Failure(DuplicateStream);
      }
      var stream := CreateHandle(id, opener, config.maxStreamWindowSize);
      streams, handles, events := streams + {id}, handles[id := stream], events + stream.sent;
      return Success(id);
    }

    method OpenStream() returns (r: Result<StreamId, SessionError>)
      modifies this`nextStreamId, this`streams, this`handles, this`events
      ensures var (s, e) := YamuxSession.OpenStream(old(View()));
        View() == s && (match e case Some(error) => r == Failure(error) case None => r == Success(old(nextStreamId)))
    {
      if IsDead() {
        return Failure(SessionDead);
      }
      if remoteGoAway {
        return Failure(RemoteWentAway);
      }
      r := CreateStream(None);
    }

    // ------------------------------------------------------------ receiving

    /** Answers a frame that opens a stream; false ends the pass. */
    method HandleSyn(f: Frame, k: nat) returns (goOn: bool, out: seq<Frame>)
      modifies this
      ensures blocked == old(blocked) && taken == if goOn then old(taken) else []
      ensures goOn ==> out == []
      ensures goOn ==> forall ready :: DistributeSyn(old(View()), f, ready, k) == (Route(View(), f, ready), [])
      ensures !goOn ==> forall ready :: DistributeSyn(old(View()), f, ready, k) == (View(), out)
    {
      hide Route, AddStream, YamuxSession.SendFrame, YamuxSession.SendGoAwayWithCode;
      var id := f.Id();
      if localGoAway {
        var reply := NewWindowUpdate(RstFlag, id, 0);
        refused := Refuse(View().reg, f, reply).refused;
        out := SendFrame(reply, k);
        taken := [];
        return false, out;
      }
      if |streams| < config.maxStreamCount && |pendingStreams| < config.acceptBacklog {
        var stream := CreateStream(Some(id));
        if stream.Failure? {
          out := SendGoAwayWithCode(ProtocolError, k);
          taken := [];
          return false, out;
        }
        pendingStreams := pendingStreams + [id];
      } else {
        var reply := NewWindowUpdate(AckFlag.(rst := true), id, 0);
        refused := Refuse(View().reg, f, reply).refused;
        writePendingFrames := writePendingFrames + [reply];
      }
      return true, [];
    }

    /** Gives a frame to its stream, if there is one and it listens and has room. */
    method RouteFrame(f: Frame, ready: bool) returns (full: bool)
      modifies this`streams, this`handles, this`readPendingFrames, this`blocked
      ensures View() == Route(old(View()), f, ready)
      ensures blocked == if full then old(blocked) + {f.Id()} else old(blocked)
    {
      var id := f.Id();
      full := false;
      if id in streams {
        if id !in handles || handles[id].dropped {
          streams := streams - {id};
        } else if ready || handles[id].inbox == [] {
          handles := handles[id := Deliver(handles[id], f)];
        } else {
          readPendingFrames := readPendingFrames + [f];
          blocked := blocked + {id};
          full := true;
        }
      }
    }

    /** The body of the loop; goOn is false where the source returns from the middle of it. */
    method DistributeOne(frame: Frame, waits: bool, ready: bool, k: nat)
      returns (goOn: bool, full: bool, out: seq<Frame>)
      requires taken != [] && frame == taken[0] && waits == (frame.Id() in blocked)
      modifies this
      ensures (View(), out) == DistributeNext(old(View()), ready, k)
      ensures taken == if goOn then old(taken)[1..] else []
      ensures goOn ==> blocked == if full then old(blocked) + {frame.Id()} else old(blocked)
    {
      hide Route, DistributeSyn;
      goOn, full, out := true, false, [];
      taken := taken[1..];
      if waits {
        readPendingFrames := readPendingFrames + [frame];
        return;
      }
      if frame.FlagsOf().syn {
        ghost var s0 := View();
        goOn, out := HandleSyn(frame, k);
        if !goOn {
          assert DistributeSyn(s0, frame, ready, k) == (View(), out);
          return;
        }
        assert DistributeSyn(s0, frame, ready, k) == (Route(View(), frame, ready), []);
      }
      full := RouteFrame(frame, ready);
    }

    /** A whole pass over the frames that wait. */
    method DistributeToSubstream(w: Weather) returns (out: seq<Frame>)
      modifies this
      ensures (View(), out) == RunPass(BeginPass(old(View()), []), w, 0)
    {
      hide DistributeNext;
      var blockSubstream: set<StreamId> := {};
      var buf := readPendingFrames;
      readPendingFrames := [];
      blocked := {};
      taken := buf;
      assert buf + [] == buf;
      out := [];
      ghost var start := View();
      assert [] + RunPass(start, w, 0).1 == RunPass(start, w, 0).1;
      var i := 0;
      while i < |buf|
        invariant i <= |buf| && taken == buf[i..] && blocked == blockSubstream
        invariant RunPass(start, w, 0) == (RunPass(View(), w, i).0, out + RunPass(View(), w, i).1)
      {
        var frame := buf[i];
        ghost var before := View();
        var goOn, full, sent := DistributeOne(frame, frame.Id() in blockSubstream, w.ready(i), w.takes(i));
        assert RunPass(before, w, i) == (RunPass(View(), w, i + 1).0, sent + RunPass(View(), w, i + 1).1);
        Assoc(out, sent, RunPass(View(), w, i + 1).1);
        out := out + sent;
        if !goOn {
          assert out + [] == out;
          return;
        }
        if full {
          blockSubstream := blockSubstream + {frame.Id()};
        }
        i := i + 1;
      }
      assert out + [] == out;
    }

    method HandleStreamMessage(f: Frame, w: Weather) returns (out: seq<Frame>)
      modifies this
      ensures (View(), out) == RunPass(BeginPass(old(View()), [f]), w, 0)
    {
      readPendingFrames := readPendingFrames + [f];
      assert readPendingFrames + [] == readPendingFrames;
      out := DistributeToSubstream(w);
    }

    method HandlePing(f: Frame, k: nat) returns (out: seq<Frame>)
      modifies this`writePendingFrames, this`pings
      ensures (View(), out) == YamuxSession.HandlePing(old(View()), f, k)
    {
      out := [];
      if f.FlagsOf().syn {
        out := SendFrame(NewPing(AckFlag, f.Length()), k);
      } else if f.FlagsOf().ack {
        var id := f.Length();
        pings := pings - {id};
        pings := map j | j in pings && j >= id :: pings[j];
        assert pings == Unsettled(old(pings), id);
      }
    }

    method HandleGoAway(k: nat) returns (out: seq<Frame>)
      modifies this`writePendingFrames, this`localGoAway, this`remoteGoAway
      ensures (View(), out) == YamuxSession.HandleGoAway(old(View()), k)
    {
      out := [];
      remoteGoAway := true;
      writePendingFrames := [];
      if !localGoAway {
        out := SendGoAwayWithCode(Normal, k);
      }
    }

    /** A frame of a stream starts a pass; the others are answered on the spot. */
    method HandleFrame(f: Frame, w: Weather, k: nat) returns (out: seq<Frame>)
      modifies this
      ensures var (s, sent) := HandleFrameFromPeer(old(View()), f, k);
        (View(), out) == if f.OnStream() then RunPass(s, w, 0) else (s, sent)
    {
      hide RunPass;
      match f.Ty() {
        case Ping => out := HandlePing(f, k);
        case GoAway => out := HandleGoAway(k);
        case _ => out := HandleStreamMessage(f, w);
      }
    }

    /** The next event of a stream. */
    method RecvEvent(k: nat) returns (out: seq<Frame>)
      requires events != []
      modifies this
      ensures (View(), out) == HandleEvent(old(View()), k)
    {
      var event := events[0];
      events := events[1..];
      out := [];
      match event {
        case FrameEvent(f) => out := SendFrame(f, k);
        case ClosedEvent(id) => streams := streams - {id};
        case GoAwayEvent => out := SendGoAwayWithCode(ProtocolError, k);
      }
    }

    /** The interval fired: a ping, or the end of the wait for an answer to our go-away. */
    method TimerFired(now: nat, k: nat) returns (out: seq<Frame>, overdue: bool)
      modifies this
      ensures (View(), out, overdue) == Tick(old(View()), now, k)
    {
      out, overdue := [], false;
      if localGoAway {
        remoteGoAway := true;
      } else {
        out, overdue := KeepAlive(now, k);
      }
    }

    method KeepAlive(now: nat, k: nat) returns (out: seq<Frame>, overdue: bool)
      requires !localGoAway
      modifies this`writePendingFrames, this`pings, this`pingId
      ensures (View(), out, overdue) == Tick(old(View()), now, k)
    {
      if exists id | id in pings :: now - pings[id] > TIMEOUT {
        return [], true;
      }
      pingId := Wrap32(pingId + 1);
      out := SendFrame(NewPing(SynFlag, pingId), k);
      pings := pings[pingId := now];
      overdue := false;
    }

    /** Sends what waits to be sent, and distributes what waits to be distributed, if anything does. */
    method Flush(k: nat, w: Weather) returns (out: seq<Frame>)
      modifies this
      ensures old(readPendingFrames) == [] && old(writePendingFrames) == [] ==> View() == old(View()) && out == []
      ensures old(readPendingFrames) != [] || old(writePendingFrames) != [] ==>
        var (s, first) := YamuxSession.SendAll(old(View()), k);
        var (s', more) := RunPass(BeginPass(s, []), w, 0);
        (View(), out) == (s', first + more)
    {
      hide RunPass;
      out := [];
      if readPendingFrames != [] || writePendingFrames != [] {
        out := SendAll(k);
        var more := DistributeToSubstream(w);
        out := out + more;
      }
    }

    /** Closes the session from this side, unless it is over. */
    method Shutdown(k: nat) returns (out: seq<Frame>)
      modifies this
      ensures (View(), out) ==
        if old(IsDead()) then (old(View()), []) else YamuxSession.SendGoAwayWithCode(old(View()), Normal, k)
    {
      out := [];
      if !IsDead() {
        writePendingFrames := [];
        out := SendGoAwayWithCode(Normal, k);
      }
    }
  }
}
