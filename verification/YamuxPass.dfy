/**
 * A whole pass of distribute_to_substream, over a session in any state. Whether the channel of a
 * stream has room for the i-th frame of the pass, and how many frames the socket takes while the
 * i-th frame is being answered, are functions of i.
 */
module YamuxPass {
  import opened ByteStrings
  import opened YamuxFrame
  import opened YamuxStream
  import opened YamuxQueues
  import opened YamuxSession

  /** What the surroundings answer during a pass. */
  datatype Weather = Weather(ready: nat -> bool, takes: nat -> nat)

  /** The pass, from the i-th frame on; all frames that reached the socket. */
  function RunPass(s: Session, w: Weather, i: nat): (r: (Session, seq<Frame>))
    decreases |s.taken|
  {
    if s.taken == [] then (s, [])
    else
      var (s1, out) := DistributeNext(s, w.ready(i), w.takes(i));
      TakenShrinks(s, w.ready(i), w.takes(i));
      var (s2, more) := RunPass(s1, w, i + 1);
      (s2, out + more)
  }

  lemma TakenShrinks(s: Session, ready: bool, k: nat)
    requires s.taken != []
    ensures DistributeNext(s, ready, k).0.taken == if StopsEarly(s) then [] else s.taken[1..]
  {
    hide CreateHandle, Route, Refuse;
  }

  /** The two early returns: a new stream after our go-away, and a new stream that already exists. */
  predicate StopsEarly(s: Session)
    requires s.taken != []
  {
    var f := s.taken[0];
    && f.Id() !in s.blocked && f.FlagsOf().syn
    && (s.localGoAway ||
        (|s.reg.streams| < s.reg.config.maxStreamCount && |s.pendingStreams| < s.reg.config.acceptBacklog
         && f.Id() in s.reg.streams))
  }

  /** The pass looks at every frame. */
  predicate RunsToEnd(s: Session, w: Weather, i: nat)
    decreases |s.taken|
  {
    s.taken == [] ||
    (!StopsEarly(s)
     && (TakenShrinks(s, w.ready(i), w.takes(i));
         RunsToEnd(DistributeNext(s, w.ready(i), w.takes(i)).0, w, i + 1)))
  }

  predicate OnStreamsOnly(fs: seq<Frame>) {
    forall i :: 0 <= i < |fs| ==> fs[i].OnStream()
  }

  // --------------------------------------------------------------- one stream

  /**
   * What a pass is to one stream: whether the session holds its channel and the stream still listens
   * at the other end, what the channel holds, what waits, and whether a frame found no room.
   */
  datatype Lane = Lane(live: bool, inbox: seq<Frame>, waiting: seq<Frame>, blocked: bool)

  function LaneOf(s: Session, id: StreamId): (l: Lane) {
    var live := id in s.reg.streams && id in s.reg.handles && !s.reg.handles[id].dropped;
    Lane(live, if live then s.reg.handles[id].inbox else [], Select(s.readPending, id), id in s.blocked)
  }

  /** One frame, as its own stream sees it; to every other stream it is nothing. */
  function LaneStep(l: Lane, f: Frame, id: StreamId, ready: bool): (l': Lane) {
    if f.Id() != id then l
    else if l.blocked then l.(waiting := l.waiting + [f])
    else if ready || l.inbox == [] then l.(inbox := l.inbox + [f])
    else l.(waiting := l.waiting + [f], blocked := true)
  }

  function LaneRun(l: Lane, fs: seq<Frame>, w: Weather, i: nat, id: StreamId): (l': Lane)
    decreases |fs|
  {
    if fs == [] then l else LaneRun(LaneStep(l, fs[0], id, w.ready(i)), fs[1..], w, i + 1, id)
  }

  lemma RouteOnLane(s: Session, f: Frame, ready: bool, id: StreamId)
    requires f.OnStream() && LaneOf(s, id).live && f.Id() !in s.blocked
    ensures LaneOf(Route(s, f, ready), id) == LaneStep(LaneOf(s, id), f, id, ready)
  {
    AppendSelect(s.readPending, f, id);
    hide Select;
    var fid := f.Id();
    if fid != id {
      OtherLane(s, f, ready, id);
    } else if ready || s.reg.handles[id].inbox == [] {
      assert LaneOf(Route(s, f, ready), id).inbox == s.reg.handles[id].inbox + [f];
    }
  }

  lemma OtherLane(s: Session, f: Frame, ready: bool, id: StreamId)
    requires f.OnStream() && LaneOf(s, id).live && f.Id() != id
    ensures LaneOf(Route(s, f, ready), id) == LaneOf(s, id)
  {
    AppendSelect(s.readPending, f, id);
    hide Select;
    var other, reg := f.Id(), s.reg;
    if other !in reg.streams {
    } else if other !in reg.handles || reg.handles[other].dropped {
      assert id in reg.streams - {other};
    } else if ready || reg.handles[other].inbox == [] {
      assert reg.handles[other := Deliver(reg.handles[other], f)][id] == reg.handles[id];
    } else {
      assert id in s.blocked + {other} <==> id in s.blocked;
    }
  }

  lemma AppendSelect(fs: seq<Frame>, f: Frame, id: StreamId)
    requires f.OnStream()
    ensures Select(fs + [f], id) == if f.Id() == id then Select(fs, id) + [f] else Select(fs, id)
  {
    SelectAppend(fs, [f], id);
    SelectOne(f, id);
  }

  /** A frame that opens a stream, and does not end the pass, is then routed like any other. */
  lemma SynRoutes(s: Session, f: Frame, ready: bool, k: nat, id: StreamId) returns (s1: Session)
    requires LaneOf(s, id).live && !s.localGoAway
    requires |s.reg.streams| < s.reg.config.maxStreamCount && |s.pendingStreams| < s.reg.config.acceptBacklog ==>
      f.Id() !in s.reg.streams
    ensures DistributeSyn(s, f, ready, k).0 == Route(s1, f, ready)
    ensures LaneOf(s1, id) == LaneOf(s, id) && s1.blocked == s.blocked
  {
    hide CreateHandle, Route, Select;
    if |s.reg.streams| < s.reg.config.maxStreamCount && |s.pendingStreams| < s.reg.config.acceptBacklog {
      s1 := AddStream(s, f.Id(), false).value.(pendingStreams := s.pendingStreams + [f.Id()]);
    } else {
      var reply := NewWindowUpdate(AckFlag.(rst := true), f.Id(), 0);
      s1 := s.(reg := Refuse(s.reg, f, reply), writePending := s.writePending + [reply]);
    }
  }

  lemma RoundOnLane(s: Session, ready: bool, k: nat, id: StreamId)
    requires s.taken != [] && s.taken[0].OnStream() && !StopsEarly(s) && LaneOf(s, id).live
    ensures LaneOf(DistributeNext(s, ready, k).0, id) == LaneStep(LaneOf(s, id), s.taken[0], id, ready)
  {
    var f, s0 := s.taken[0], s.(taken := s.taken[1..]);
    hide Select, Route, DistributeSyn;
    if f.Id() in s.blocked {
      AppendSelect(s.readPending, f, id);
    } else if f.FlagsOf().syn {
      var s1 := SynRoutes(s0, f, ready, k, id);
      hide DistributeSyn;
      assert LaneOf(s0, id) == LaneOf(s, id);
      RouteOnLane(s1, f, ready, id);
    } else {
      assert LaneOf(s0, id) == LaneOf(s, id);
      RouteOnLane(s0, f, ready, id);
    }
  }

  /**
   * A pass that looks at every frame does to a live stream what the stream's own frames do, in
   * order, with the room its own channel has. No other stream comes into it.
   */
  lemma {:induction false} PassOnLane(s: Session, w: Weather, i: nat, id: StreamId)
    requires RunsToEnd(s, w, i) && OnStreamsOnly(s.taken) && LaneOf(s, id).live
    ensures LaneOf(RunPass(s, w, i).0, id) == LaneRun(LaneOf(s, id), s.taken, w, i, id)
    decreases |s.taken|
  {
    if s.taken != [] {
      TakenShrinks(s, w.ready(i), w.takes(i));
      RoundOnLane(s, w.ready(i), w.takes(i), id);
      hide DistributeNext, StopsEarly, LaneOf;
      PassOnLane(DistributeNext(s, w.ready(i), w.takes(i)).0, w, i + 1, id);
    }
  }

  /** The stream's own channel has room whenever one of its frames comes up. */
  ghost predicate OwnRoom(fs: seq<Frame>, w: Weather, i: nat, id: StreamId) {
    forall j: nat :: j < |fs| && fs[j].Id() == id ==> w.ready(i + j)
  }

  /** The frames given to the channel, then those that wait, are those that came, in order. */
  lemma {:induction false} LaneKeepsOrder(l: Lane, fs: seq<Frame>, w: Weather, i: nat, id: StreamId)
    requires OnStreamsOnly(fs) && (l.blocked || l.waiting == [])
    ensures var l' := LaneRun(l, fs, w, i, id);
      && l.inbox <= l'.inbox && l'.live == l.live
      && l'.inbox + l'.waiting == (l.inbox + l.waiting) + Select(fs, id)
      && (l.blocked ==> l'.inbox == l.inbox)
      && (!l.blocked && OwnRoom(fs, w, i, id) ==> l'.waiting == [])
    decreases |fs|
  {
    if fs == [] {
      assert (l.inbox + l.waiting) + [] == l.inbox + l.waiting;
    } else {
      var l1 := LaneStep(l, fs[0], id, w.ready(i));
      LaneKeepsOrder(l1, fs[1..], w, i + 1, id);
      if OwnRoom(fs, w, i, id) {
        OwnRoomTail(fs, w, i, id);
      }
      hide LaneRun, OwnRoom;
      if fs[0].Id() == id {
        assert Select(fs, id) == [fs[0]] + Select(fs[1..], id);
        hide Select;
        StepKeepsOrder(l, fs[0], id, w.ready(i), Select(fs[1..], id));
      } else {
        assert [] + Select(fs[1..], id) == Select(fs[1..], id);
      }
    }
  }

  lemma StepKeepsOrder(l: Lane, f: Frame, id: StreamId, ready: bool, later: seq<Frame>)
    requires f.Id() == id && (l.blocked || l.waiting == [])
    ensures var l1 := LaneStep(l, f, id, ready);
      && (l1.inbox + l1.waiting) + later == (l.inbox + l.waiting) + ([f] + later)
      && (l1.blocked || l1.waiting == [])
  {
    var l1 := LaneStep(l, f, id, ready);
    assert l1.inbox + l1.waiting == (l.inbox + l.waiting) + [f];
    Assoc(l.inbox + l.waiting, [f], later);
  }

  lemma OwnRoomTail(fs: seq<Frame>, w: Weather, i: nat, id: StreamId)
    requires fs != [] && OwnRoom(fs, w, i, id)
    ensures OwnRoom(fs[1..], w, i + 1, id) && (fs[0].Id() == id ==> w.ready(i))
  {
    assert w.ready(i) == w.ready(i + 0);
    forall j: nat | j < |fs[1..]| && fs[1..][j].Id() == id
      ensures w.ready(i + 1 + j)
    {
      assert fs[j + 1].Id() == id && i + (j + 1) == i + 1 + j;
    }
  }

  /**
   * For every stream open throughout a pass: what it is given ++ what is left waiting is what was
   * waiting before ++ what came in, and nothing is left waiting if its own channel had room.
   */
  lemma PassDelivers(s: Session, more: seq<Frame>, w: Weather, id: StreamId)
    requires OnStreamsOnly(s.readPending + more) && RunsToEnd(BeginPass(s, more), w, 0) && LaneOf(s, id).live
    ensures var s' := RunPass(BeginPass(s, more), w, 0).0;
      var before, after := LaneOf(s, id).inbox, LaneOf(s', id).inbox;
      && LaneOf(s', id).live && before <= after
      && after[|before|..] + Select(s'.readPending, id) == Select(s.readPending, id) + Select(more, id)
      && (OwnRoom(s.readPending + more, w, 0, id) ==> Select(s'.readPending, id) == [])
  {
    var s0, all := BeginPass(s, more), s.readPending + more;
    var before := LaneOf(s, id).inbox;
    PassOnLane(s0, w, 0, id);
    LaneKeepsOrder(LaneOf(s0, id), all, w, 0, id);
    SelectAppend(s.readPending, more, id);
    var l' := LaneRun(LaneOf(s0, id), all, w, 0, id);
    assert before + [] == before;
    assert l'.inbox == before + l'.inbox[|before|..];
    Assoc(before, l'.inbox[|before|..], l'.waiting);
    Cancel(before, l'.inbox[|before|..] + l'.waiting, Select(all, id));
  }

  lemma Cancel<T>(a: seq<T>, b: seq<T>, c: seq<T>)
    requires a + b == a + c
    ensures b == c
  {
    assert (a + b)[|a|..] == b && (a + c)[|a|..] == c;
  }
}
