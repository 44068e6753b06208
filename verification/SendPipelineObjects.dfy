/** The stages of the way of a message as the objects they are, each proved to do what SendPipeline says. */
module SendPipelineObjects {
  import opened ByteStrings
  import opened SendPipeline
  import opened SendPipelineRuns

  /** The counter a session shares with its streams. */
  class SessionContext {
    var pendingDataSize: usize

    constructor ()
      ensures pendingDataSize == 0
    {
      pendingDataSize := 0;
    }

    method IncrPendingDataSize(size: nat)
      modifies this
      ensures pendingDataSize == Increased(old(pendingDataSize), size)
    {
      pendingDataSize := (pendingDataSize + size) % USIZE;
    }

    method DecrPendingDataSize(size: nat)
      modifies this
      ensures pendingDataSize == Decreased(old(pendingDataSize), size)
    {
      pendingDataSize := (pendingDataSize - size) % USIZE;
    }
  }

  /** The session's buffer in front of the channel to a protocol stream. */
  class PriorityBuffer<T> {
    var highBuffer: seq<T>
    var normalBuffer: seq<T>

    constructor ()
      ensures View() == NoLanes()
    {
      highBuffer, normalBuffer := [], [];
    }

    ghost function View(): (l: Lanes<T>)
      reads this
    {
      Lanes(highBuffer, normalBuffer)
    }

    method PushHigh(item: T)
      modifies this
      ensures View() == old(View()).Push(High, item)
    {
      highBuffer := highBuffer + [item];
    }

    method PushNormal(item: T)
      modifies this
      ensures View() == old(View()).Push(Normal, item)
    {
      normalBuffer := normalBuffer + [item];
    }

    method Clear()
      modifies this
      ensures View() == NoLanes()
    {
      highBuffer, normalBuffer := [], [];
    }

    /** Sends to a channel that takes up to room entries and then is full, or broken. */
    method TrySend(room: nat, broken: bool) returns (moved: Lanes<T>, r: SendResult)
      modifies this
      ensures (moved, View(), r) == SendPipeline.TrySend(old(View()), room, broken)
    {
      ghost var high, normal := highBuffer, normalBuffer;
      moved := Lanes([], []);
      while highBuffer != []
        invariant moved.high + highBuffer == high && moved.normal == [] && normalBuffer == normal
        invariant |moved.high| <= room
        decreases |highBuffer|
      {
        var event := highBuffer[0];
        highBuffer := highBuffer[1..];
        if |moved.high| == room {
          TakenSoFar(View(), [event], moved.high, high, normal);
          if broken {
            Clear();
            return moved, Disconnected;
          }
          highBuffer := [event] + highBuffer;
          return moved, SendPending;
        }
        moved := moved.(high := moved.high + [event]);
      }
      assert moved.high == high;
      while normalBuffer != []
        invariant highBuffer == [] && moved.high == high && moved.normal + normalBuffer == normal
        invariant |high| + |moved.normal| <= room
        decreases |normalBuffer|
      {
        var event := normalBuffer[0];
        normalBuffer := normalBuffer[1..];
        if |moved.high| + |moved.normal| == room {
          assert normal[..|moved.normal|] == moved.normal && normal[|moved.normal|..] == [event] + normalBuffer;
          if broken {
            Clear();
            return moved, Disconnected;
          }
          normalBuffer := [event] + normalBuffer;
          return moved, SendPending;
        }
        moved := moved.(normal := moved.normal + [event]);
      }
      assert moved.normal == normal;
      return moved, SendOk;
    }

    lemma TakenSoFar(now: Lanes<T>, next: seq<T>, taken: seq<T>, high: seq<T>, normal: seq<T>)
      requires taken + (next + now.high) == high
      ensures high[..|taken|] == taken && high[|taken|..] == next + now.high
    {
    }
  }

  /** The session puts an event behind those that wait for a stream, by its priority, and tries to send. */
  method OfferEvent(buffer: PriorityBuffer<Event>, p: Priority, e: Event, room: nat, broken: bool)
    returns (moved: Lanes<Event>)
    modifies buffer
    ensures forall s: Sub :: s.buffer == old(buffer.View()) ==>
      Offer(s, p, e, room, broken) == s.(buffer := buffer.View(), channel := Both(s.channel, moved))
  {
    if p == High {
      buffer.PushHigh(e);
    } else {
      buffer.PushNormal(e);
    }
    var r;
    moved, r := buffer.TrySend(room, broken);
  }

  /** How the sink answers when asked for room for a frame, and then, if it has none, to flush. */
  datatype Sink = Ready | NotReady(flushes: bool) | Failing

  datatype Outcome = Done | Blocked | Broke

  ghost function Other(p: Priority): (q: Priority) { if p == High then Normal else High }

  /** A protocol stream: its two write buffers, in front of a yamux stream. network is history. */
  class Substream {
    const context: SessionContext
    var highWriteBuf: seq<Bytes>
    var writeBuf: seq<Bytes>
    var dead: bool
    var network: seq<Passed>

    constructor (context: SessionContext)
      ensures this.context == context && Write() == NoLanes() && !dead && network == []
    {
      this.context := context;
      highWriteBuf, writeBuf, dead, network := [], [], false, [];
    }

    ghost function Write(): (l: Lanes<Bytes>)
      reads this
    {
      Lanes(highWriteBuf, writeBuf)
    }

    method PushFront(p: Priority, frame: Bytes)
      modifies this`highWriteBuf, this`writeBuf
      ensures Write() == if p == High then Lanes([frame] + old(highWriteBuf), old(writeBuf))
                         else Lanes(old(highWriteBuf), [frame] + old(writeBuf))
    {
      if p == High {
        highWriteBuf := [frame] + highWriteBuf;
      } else {
        writeBuf := [frame] + writeBuf;
      }
    }

    method PushBack(p: Priority, frame: Bytes)
      modifies this`highWriteBuf, this`writeBuf
      ensures Write() == old(Write()).Push(p, frame)
    {
      if p == High {
        highWriteBuf := highWriteBuf + [frame];
      } else {
        writeBuf := writeBuf + [frame];
      }
    }

    method PopFront(p: Priority) returns (frame: Bytes)
      requires Write().At(p) != []
      modifies this`highWriteBuf, this`writeBuf
      ensures [frame] + Write().At(p) == old(Write()).At(p) && Write().At(Other(p)) == old(Write()).At(Other(p))
    {
      if p == High {
        frame := highWriteBuf[0];
        highWriteBuf := highWriteBuf[1..];
      } else {
        frame := writeBuf[0];
        writeBuf := writeBuf[1..];
      }
    }

    /** One frame: passed on and taken off the counter, put back, or lost to a failure. */
    method SendInner(frame: Bytes, p: Priority, sink: Sink) returns (o: Outcome)
      modifies this`highWriteBuf, this`writeBuf, this`network, context
      ensures match sink
        case Ready => o == Done && Write() == old(Write())
                      && network == old(network) + [Passed(p, frame, |old(highWriteBuf)|)]
                      && context.pendingDataSize == Decreased(old(context.pendingDataSize), |frame|)
        case NotReady(flushes) => o == (if flushes then Blocked else Broke) && network == old(network)
                                  && context.pendingDataSize == old(context.pendingDataSize)
                                  && Write() == (if p == High then Lanes([frame] + old(highWriteBuf), old(writeBuf))
                                                 else Lanes(old(highWriteBuf), [frame] + old(writeBuf)))
        case Failing => o == Broke && network == old(network) && Write() == old(Write())
                        && context.pendingDataSize == old(context.pendingDataSize)
    {
      match sink {
        case Ready =>
          network := network + [Passed(p, frame, |highWriteBuf|)];
          context.DecrPendingDataSize(|frame|);
          return Done;
        case NotReady(flushes) =>
          PushFront(p, frame);
          return if flushes then Blocked else Broke;
        case Failing =>
          return Broke;
      }
    }

    /** Drains one write buffer; the number of frames it passed on. */
    method DrainLane(p: Priority, room: nat, ending: Ending) returns (n: nat, o: Outcome)
      modifies this`highWriteBuf, this`writeBuf, this`network, context
      ensures var lane := old(Write()).At(p);
        && n == Min(room, |lane|)
        && o == (if n == |lane| then Done else if ending == Waits then Blocked else Broke)
        && Write().At(p) == lane[if n < |lane| && ending == Loses then n + 1 else n..]
        && network == old(network) + Passing(p, lane, n, |old(highWriteBuf)|)
        && context.pendingDataSize == Decreased(old(context.pendingDataSize), TotalBytes(lane[..n]))
      ensures var q := Other(p); Write().At(q) == old(Write()).At(q)
    {
      ghost var lane, start, count, others := Write().At(p), network, context.pendingDataSize, |highWriteBuf|;
      n := 0;
      o := Done;
      Decrease0(count);
      assert start + Passing(p, lane, 0, others) == start;
      hide TotalBytes, Decreased, Passing;
      while (if p == High then highWriteBuf else writeBuf) != []
        invariant n <= |lane| && n <= room && o == Done
        invariant Write().At(p) == lane[n..]
        invariant network == start + Passing(p, lane, n, others)
        invariant var q := Other(p); Write().At(q) == old(Write()).At(q)
        invariant context.pendingDataSize == Decreased(count, TotalBytes(lane[..n]))
        decreases |lane| - n
      {
        var frame := PopFront(p);
        assert frame == lane[n] && Write().At(p) == lane[n + 1..];
        o := SendInner(frame, p, if n < room then Ready else if ending == Loses then Failing
                                 else NotReady(ending == Waits));
        if o != Done {
          assert [lane[n]] + lane[n + 1..] == lane[n..];
          return;
        }
        PassingMore(start, p, lane, n, others);
        DecreaseMore(count, lane, n);
        n := n + 1;
      }
      assert lane[..n] == lane;
    }

    /** Drains the high buffer, and then, if all of it went, the normal one, and flushes. */
    method SendData(room: nat, ending: Ending) returns (ok: bool)
      modifies this`highWriteBuf, this`writeBuf, this`network, context
      ensures var w := old(Write());
        var (n, rest, fine) := SendPipeline.SendData(w, room, ending);
        && Write() == rest && ok == fine && network == old(network) + Served(w, n)
        && context.pendingDataSize == Decreased(old(context.pendingDataSize), LaneBytes(w.Taken(n)))
    {
      ghost var w, count, start := Write(), context.pendingDataSize, network;
      hide TotalBytes, Passing;
      var n, o := DrainLane(High, room, ending);
      if o != Done {
        ServedHigh(w, n);
        return o == Blocked;
      }
      assert Write() == Lanes([], w.normal);
      var k, last := DrainLane(Normal, room - n, ending);
      ServedBoth(start, w, k);
      DecreaseTwice(count, TotalBytes(w.high), TotalBytes(w.normal[..k]));
      return last == Blocked || (last == Done && ending != FlushFails);
    }

    /** An event from the session: a frame to write, or the end. */
    method HandleProtoEvent(e: Event, p: Priority, room: nat, ending: Ending)
      modifies this, context
      ensures match e
        case CloseStream => Write() == old(Write()).(normal := []) && dead && network == old(network)
                            && context.pendingDataSize == old(context.pendingDataSize)
        case Data(bytes) =>
          var w := old(Write()).Push(p, bytes);
          var (n, rest, fine) := SendPipeline.SendData(w, room, ending);
          && Write() == rest && dead == (old(dead) || !fine) && network == old(network) + Served(w, n)
          && context.pendingDataSize == Decreased(old(context.pendingDataSize), LaneBytes(w.Taken(n)))
    {
      match e {
        case Data(bytes) =>
          PushBack(p, bytes);
          var ok := SendData(room, ending);
          if !ok {
            dead := true;
          }
        case CloseStream =>
          writeBuf := [];
          dead := true;
      }
    }
  }

  lemma PassingMore(start: seq<Passed>, p: Priority, lane: seq<Bytes>, n: nat, others: nat)
    requires n < |lane|
    ensures (start + Passing(p, lane, n, others)) + [Passed(p, lane[n], if p == High then |lane[n + 1..]| else others)]
         == start + Passing(p, lane, n + 1, others)
  {
  }

  /** A drain that stops in the high queue. */
  lemma ServedHigh(w: Lanes<Bytes>, n: nat)
    requires n <= |w.high|
    ensures Served(w, n) == Passing(High, w.high, n, |w.high|)
    ensures LaneBytes(w.Taken(n)) == TotalBytes(w.high[..n])
  {
    NothingTotal();
  }

  /** A drain that goes through all of the high queue. */
  lemma ServedBoth(start: seq<Passed>, w: Lanes<Bytes>, k: nat)
    requires k <= |w.normal|
    ensures start + Served(w, |w.high| + k)
         == (start + Passing(High, w.high, |w.high|, |w.high|)) + Passing(Normal, w.normal, k, 0)
    ensures w.high[..|w.high|] == w.high && w.normal[..|w.normal|] == w.normal
    ensures LaneBytes(w.Taken(|w.high| + k)) == TotalBytes(w.high) + TotalBytes(w.normal[..k])
  {
    NothingTotal();
    assert w.high[..|w.high|] == w.high && w.normal[..0] == [];
  }

  lemma NothingTotal()
    ensures TotalBytes([]) == 0
  {
  }

  lemma Decrease0(n: usize)
    ensures TotalBytes([]) == 0 && Decreased(n, 0) == n
  {
  }

  lemma DecreaseTwice(n: usize, a: nat, b: nat)
    ensures Decreased(Decreased(n, a), b) == Decreased(n, a + b)
  {
    ModStep(n - a, 0 - b);
  }

  lemma DecreaseMore(count: usize, lane: seq<Bytes>, n: nat)
    requires n < |lane|
    ensures Decreased(Decreased(count, TotalBytes(lane[..n])), |lane[n]|) == Decreased(count, TotalBytes(lane[..n + 1]))
  {
    assert lane[..n + 1] == lane[..n] + [lane[n]];
    FlattenSnoc(lane[..n], lane[n]);
    DecreaseTwice(count, TotalBytes(lane[..n]), |lane[n]|);
  }

  // ---------------------------------------------------------------- the service

  /** A filter is a closure with state: its answer may depend on the sessions it was asked about before. */
  datatype Target = Single(id: nat) | Multi(ids: seq<nat>) | Filter(accepts: (seq<nat>, nat) -> bool) | All

  function Count(ids: seq<nat>, id: nat): (n: nat) {
    if ids == [] then 0 else (if ids[0] == id then 1 else 0) + Count(ids[1..], id)
  }

  lemma {:induction false} CountSnoc(ids: seq<nat>, last: nat, id: nat)
    ensures Count(ids + [last], id) == Count(ids, id) + (if last == id then 1 else 0)
  {
    if ids == [] {
      assert [] + [last] == [last] && [last][1..] == [];
    } else {
      CountSnoc(ids[1..], last, id);
      assert (ids + [last])[0] == ids[0] && (ids + [last])[1..] == ids[1..] + [last];
    }
  }

  lemma CountNext(ids: seq<nat>, i: nat)
    requires i < |ids|
    ensures forall id :: Count(ids[..i + 1], id) == Count(ids[..i], id) + (if ids[i] == id then 1 else 0)
  {
    assert ids[..i + 1] == ids[..i] + [ids[i]];
    forall id: nat
      ensures Count(ids[..i + 1], id) == Count(ids[..i], id) + (if ids[i] == id then 1 else 0)
    {
      CountSnoc(ids[..i], ids[i], id);
    }
  }

  lemma NothingCounted()
    ensures forall id :: Count([], id) == 0
  {
  }

  /** The filter, asked about sessions in this order, says yes to the session. */
  predicate SaysYes(accepts: (seq<nat>, nat) -> bool, order: seq<nat>, id: nat) {
    exists i :: 0 <= i < |order| && order[i] == id && accepts(order[..i], id)
  }

  /** How many copies of a message a session is sent, if the sessions are gone through in this order. */
  function Copies(t: Target, order: seq<nat>, id: nat): (n: nat) {
    match t
    case Single(only) => if id == only then 1 else 0
    case Multi(ids) => Count(ids, id)
    case Filter(accepts) => if SaysYes(accepts, order, id) then 1 else 0
    case All => 1
  }

  /** Each session comes once. */
  ghost predicate Enumerates(order: seq<nat>, ids: set<nat>) {
    && (forall id :: id in order <==> id in ids)
    && (forall i, j :: 0 <= i < j < |order| ==> order[i] != order[j])
  }

  function PostedTimes(s: Peer, n: nat, p: Priority, m: Message, arrives: bool): (s': Peer) {
    if n == 0 then s else Posted(PostedTimes(s, n - 1, p, m, arrives), p, m, arrives)
  }

  class Service {
    var sessions: map<nat, Peer>

    /** One copy for one session, if there is such a session. */
    method SendTo(id: nat, p: Priority, m: Message, arrives: bool)
      modifies this
      ensures sessions == if id in old(sessions) then old(sessions)[id := Posted(old(sessions)[id], p, m, arrives)]
                          else old(sessions)
    {
      if id in sessions {
        sessions := sessions[id := Posted(sessions[id], p, m, arrives)];
      }
    }

    /** A message, changed by the hook of its protocol if it has one, for the sessions of the target. */
    method HandleMessage(target: Target, proto: nat, p: Priority, data: Bytes, beforeSend: Option<Bytes -> Bytes>,
                         arrives: nat -> bool)
      returns (order: seq<nat>)
      modifies this
      ensures sessions.Keys == old(sessions).Keys
      ensures target.Filter? || target.All? ==> Enumerates(order, sessions.Keys)
      ensures var m := Message(proto, if beforeSend.Some? then beforeSend.value(data) else data);
        forall id :: id in sessions ==>
          sessions[id] == PostedTimes(old(sessions)[id], Copies(target, order, id), p, m, arrives(id))
    {
      order := [];
      var m := Message(proto, if beforeSend.Some? then beforeSend.value(data) else data);
      match target {
        case Single(id) => SendTo(id, p, m, arrives(id));
        case Multi(ids) => SendToMany(ids, p, m, arrives);
        case Filter(accepts) => order := SendToAll(accepts, p, m, arrives);
        case All => order := SendToAll((_, _) => true, p, m, arrives);
      }
    }

    method SendToMany(ids: seq<nat>, p: Priority, m: Message, arrives: nat -> bool)
      modifies this
      ensures sessions.Keys == old(sessions).Keys
      ensures forall id :: id in sessions ==>
        sessions[id] == PostedTimes(old(sessions)[id], Count(ids, id), p, m, arrives(id))
    {
      hide Posted, Count;
      assert forall id :: Count([], id) == 0 by { NothingCounted(); }
      for i := 0 to |ids|
        invariant sessions.Keys == old(sessions).Keys
        invariant forall id :: id in sessions ==>
          sessions[id] == PostedTimes(old(sessions)[id], Count(ids[..i], id), p, m, arrives(id))
      {
        SendTo(ids[i], p, m, arrives(ids[i]));
        CountNext(ids, i);
      }
      assert ids[..|ids|] == ids;
    }

    /** Goes through the map of sessions, in whatever order, and sends to those the filter says yes to. */
    method SendToAll(accepts: (seq<nat>, nat) -> bool, p: Priority, m: Message, arrives: nat -> bool)
      returns (order: seq<nat>)
      modifies this
      ensures sessions.Keys == old(sessions).Keys && Enumerates(order, sessions.Keys)
      ensures forall id :: id in sessions ==>
        sessions[id] == PostedTimes(old(sessions)[id], if SaysYes(accepts, order, id) then 1 else 0, p, m, arrives(id))
    {
      hide Posted, SaysYes;
      var rest := sessions.Keys;
      order := [];
      while rest != {}
        invariant sessions.Keys == old(sessions).Keys && rest <= sessions.Keys
        invariant Enumerates(order, sessions.Keys - rest)
        invariant forall id :: id in sessions ==>
          sessions[id] == if id !in rest && SaysYes(accepts, order, id)
                          then Posted(old(sessions)[id], p, m, arrives(id)) else old(sessions)[id]
        decreases |rest|
      {
        var id :| id in rest;
        rest := rest - {id};
        if accepts(order, id) {
          SendTo(id, p, m, arrives(id));
        }
        AskedNext(accepts, order, id);
        order := order + [id];
      }
      forall id | id in sessions
        ensures sessions[id]
          == PostedTimes(old(sessions)[id], if SaysYes(accepts, order, id) then 1 else 0, p, m, arrives(id))
      {
        assert PostedTimes(old(sessions)[id], 0, p, m, arrives(id)) == old(sessions)[id];
      }
    }
  }

  /** Asking about one more session changes the answer for no other. */
  lemma AskedNext(accepts: (seq<nat>, nat) -> bool, order: seq<nat>, next: nat)
    requires next !in order
    ensures SaysYes(accepts, order + [next], next) == accepts(order, next)
    ensures forall id :: id != next ==> SaysYes(accepts, order + [next], id) == SaysYes(accepts, order, id)
  {
    var more := order + [next];
    assert more[..|order|] == order;
    assert forall i :: 0 <= i <= |order| ==> more[..i] == order[..i];
  }
}
