/**
 * Nothing is lost on the way unless something on the way fails or is closed; every stage serves high
 * priority first; and a dead stream says nothing more.
 */
module SendPipelineWhole {
  import opened ByteStrings
  import opened SendPipeline
  import opened SendPipelineLaws
  import opened SendPipelineRuns

  // ------------------------------------------------------------------ nothing is lost

  /**
   * A step in which nothing breaks and nothing is closed: messages are posted to open protocols and
   * arrive, and whatever else fails, no frame is lost by the sink.
   */
  predicate Gentle(s: Peer, step: Step) {
    match step
    case Post(_, m, arrives) => arrives && m.proto in s.protoStreams
    case OpenProtocol(_) => true
    case Forward(_, broken) => !broken
    case Retry(_, _, broken) => !broken
    case TakeEvent(_, _, ending) => ending != Loses
    case FlushStream(_, _, ending) => ending != Loses
    case _ => false
  }

  predicate GentleRun(s: Peer, steps: seq<Step>)
    decreases |steps|
  {
    steps == [] || (Gentle(s, steps[0]) && GentleRun(Next(s, steps[0]), steps[1..]))
  }

  ghost predicate Known(ms: seq<Message>, streams: map<nat, nat>) {
    forall i :: 0 <= i < |ms| ==> ms[i].proto in streams
  }

  /** Nobody has asked the stream to close. */
  ghost predicate NoClose(es: seq<Event>) { forall i :: 0 <= i < |es| ==> es[i].Data? }

  ghost predicate Unasked(sub: Sub) {
    NoClose(sub.channel.high) && NoClose(sub.channel.normal) && NoClose(sub.buffer.high) && NoClose(sub.buffer.normal)
  }

  /** The stream is the one of its protocol, and nothing for it is missing. */
  ghost predicate Intact(s: Peer, i: nat)
    requires i < |s.subs|
  {
    var sub := s.subs[i];
    && sub.proto in s.protoStreams && s.protoStreams[sub.proto] == i && Unasked(sub)
    && forall p :: Line(sub, p) + Of(s.inbox.At(p), sub.proto) == Of(s.posted.At(p), sub.proto)
  }

  ghost predicate Whole(s: Peer) {
    && Mapped(s)
    && (forall p :: Known(s.inbox.At(p), s.protoStreams) && Known(s.posted.At(p), s.protoStreams))
    && (forall i :: 0 <= i < |s.subs| ==> Intact(s, i))
    && Queued(s) == Outstanding(s)
  }

  lemma {:induction false} NoneOfUnknown(ms: seq<Message>, streams: map<nat, nat>, proto: nat)
    requires Known(ms, streams) && proto !in streams
    ensures Of(ms, proto) == []
  {
    if ms != [] {
      NoneOfUnknown(ms[1..], streams, proto);
    }
  }

  lemma PostIntact(s: Peer, p: Priority, m: Message, i: nat)
    requires i < |s.subs| && Intact(s, i)
    ensures Intact(Posted(s, p, m, true), i)
  {
    var s', sub := Posted(s, p, m, true), s.subs[i];
    forall q
      ensures Line(sub, q) + Of(s'.inbox.At(q), sub.proto) == Of(s'.posted.At(q), sub.proto)
    {
      OfAppend(s.inbox.At(q), [m], sub.proto);
      OfAppend(s.posted.At(q), [m], sub.proto);
      Assoc(Line(sub, q), Of(s.inbox.At(q), sub.proto), Of([m], sub.proto));
      hide Line, Of;
    }
  }

  lemma PostCounts(s: Peer, p: Priority, m: Message)
    ensures var s' := Posted(s, p, m, true);
      Queued(s') == Queued(s) + |m.bytes| && Outstanding(s') == Outstanding(s) + |m.bytes|
  {
    PushBodies(s.posted, p, m);
    PushBodies(s.inbox, p, m);
    hide Bodies, AllQueued, AllSent;
  }

  lemma PushKnown(l: Lanes<Message>, p: Priority, m: Message, streams: map<nat, nat>)
    requires m.proto in streams && forall q :: Known(l.At(q), streams)
    ensures forall q :: Known(l.Push(p, m).At(q), streams)
  {
    assert Known(l.At(High), streams) && Known(l.At(Normal), streams);
  }

  lemma PostWhole(s: Peer, p: Priority, m: Message)
    requires Whole(s) && m.proto in s.protoStreams
    ensures Whole(Posted(s, p, m, true))
  {
    PostCounts(s, p, m);
    PushKnown(s.inbox, p, m, s.protoStreams);
    PushKnown(s.posted, p, m, s.protoStreams);
    hide Intact, Queued, Outstanding, Known;
    forall i | 0 <= i < |s.subs|
      ensures Intact(Posted(s, p, m, true), i)
    {
      PostIntact(s, p, m, i);
    }
  }

  lemma OpenIntact(s: Peer, proto: nat, i: nat)
    requires Whole(s) && proto !in s.protoStreams && i <= |s.subs|
    ensures Intact(Next(s, OpenProtocol(proto)), i)
  {
    var s' := Next(s, OpenProtocol(proto));
    if i < |s.subs| {
      assert Intact(s, i) && s'.subs[i] == s.subs[i];
      hide Line, Of, Queued, Outstanding;
    } else {
      forall p
        ensures Line(NewSub(proto), p) + Of(s.inbox.At(p), proto) == Of(s.posted.At(p), proto)
      {
        NoneOfUnknown(s.inbox.At(p), s.protoStreams, proto);
        NoneOfUnknown(s.posted.At(p), s.protoStreams, proto);
        assert Line(NewSub(proto), p) == [];
      }
    }
  }

  lemma OpenCounts(s: Peer, proto: nat)
    ensures var s' := Next(s, OpenProtocol(proto)); Queued(s') == Queued(s) && Outstanding(s') == Outstanding(s)
  {
    SumsSnoc(s.subs, NewSub(proto));
    assert SubQueued(NewSub(proto)) == 0 && SubSent(NewSub(proto)) == 0;
    hide Bodies, AllQueued, AllSent, SubQueued, SubSent;
  }

  lemma OpenWhole(s: Peer, proto: nat)
    requires Whole(s)
    ensures Whole(Next(s, OpenProtocol(proto)))
  {
    if proto !in s.protoStreams {
      var s' := Next(s, OpenProtocol(proto));
      OpenCounts(s, proto);
      hide Intact, Queued, Outstanding;
      forall i | 0 <= i < |s'.subs|
        ensures Intact(s', i)
      {
        OpenIntact(s, proto, i);
      }
    }
  }

  lemma SubCounts(s: Peer, i: nat, sub: Sub, size: nat)
    requires i < |s.subs| && (forall p :: Line(sub, p) == Line(s.subs[i], p))
    requires SubSent(sub) == SubSent(s.subs[i]) + size
    ensures var s' := WithSub(s, i, sub);
      Queued(s') == Queued(s) - size && Outstanding(s') == Outstanding(s) - size
  {
    LineBytes(sub);
    LineBytes(s.subs[i]);
    SumsUpdate(s.subs, i, sub);
    hide Line, Bodies, AllQueued, AllSent, SubQueued, SubSent, TotalBytes;
  }

  lemma SubIntact(s: Peer, i: nat, sub: Sub, j: nat)
    requires i < |s.subs| && j < |s.subs| && Intact(s, j)
    requires sub.proto == s.subs[i].proto && Unasked(sub) && forall p :: Line(sub, p) == Line(s.subs[i], p)
    ensures Intact(WithSub(s, i, sub), j)
  {
    hide Line, Of, Unasked;
  }

  /** One stream passes things on, and keeps its line. */
  lemma SubWhole(s: Peer, i: nat, sub: Sub, size: nat)
    requires Whole(s) && i < |s.subs| && sub.proto == s.subs[i].proto && Unasked(sub)
    requires (forall p :: Line(sub, p) == Line(s.subs[i], p)) && SubSent(sub) == SubSent(s.subs[i]) + size
    ensures Whole(WithSub(s, i, sub)) && Whole(WithSub(s, i, sub).(pending := Decreased(s.pending, size)))
  {
    var s' := WithSub(s, i, sub);
    SubCounts(s, i, sub, size);
    assert Intact(s, i);
    hide Intact, Queued, Outstanding, SubSent, Known, Unasked;
    forall j | 0 <= j < |s.subs|
      ensures Intact(s', j)
    {
      SubIntact(s, i, sub, j);
    }
    SameWhole(s', s'.(pending := Decreased(s.pending, size)));
  }

  lemma SameWhole(s: Peer, s': Peer)
    requires Whole(s) && s' == s.(pending := s'.pending)
    ensures Whole(s')
  {
    SameCounts(s, s');
    hide Line, Of, Queued, Outstanding;
    forall j | 0 <= j < |s.subs|
      ensures Intact(s', j)
    {
      assert Intact(s, j);
    }
  }

  lemma DistributeUnasked(sub: Sub, room: nat, broken: bool)
    requires Unasked(sub)
    ensures Unasked(Distribute(sub, room, broken))
  {
  }

  lemma FlushUnasked(sub: Sub, room: nat, ending: Ending)
    requires Unasked(sub)
    ensures Unasked(Flush(sub, room, ending).0)
  {
    hide SendData, Served, LaneBytes;
  }

  lemma TakeUnasked(sub: Sub, room: nat, ending: Ending)
    requires Unasked(sub)
    ensures Unasked(Take(sub, room, ending).0)
    ensures sub.channel.Size() > 0 ==> sub.channel.At(sub.channel.First())[0].Data?
  {
    hide SendData, Served, LaneBytes;
  }

  lemma FlushWhole(s: Peer, i: nat, room: nat, ending: Ending)
    requires Whole(s) && i < |s.subs| && ending != Loses
    ensures var (sub, size) := Flush(s.subs[i], room, ending);
      Whole(WithSub(s, i, sub).(pending := Decreased(s.pending, size)))
  {
    assert Intact(s, i);
    FlushUnasked(s.subs[i], room, ending);
    hide Whole, Unasked, Line, Flush, SubSent;
    var (sub, size) := Flush(s.subs[i], room, ending);
    forall p
      ensures Line(sub, p) == Line(s.subs[i], p)
    {
      FlushLine(s.subs[i], room, ending, p);
    }
    FlushLine(s.subs[i], room, ending, High);
    SubWhole(s, i, sub, size);
  }

  lemma TakeWhole(s: Peer, i: nat, room: nat, ending: Ending)
    requires Whole(s) && i < |s.subs| && ending != Loses
    ensures var (sub, size) := Take(s.subs[i], room, ending);
      Whole(WithSub(s, i, sub).(pending := Decreased(s.pending, size)))
  {
    assert Intact(s, i);
    TakeUnasked(s.subs[i], room, ending);
    var (sub, size) := Take(s.subs[i], room, ending);
    assert s.subs[i].channel.Size() == 0 ==> sub == s.subs[i];
    hide Whole, Unasked, Line, Take, SubSent;
    forall p
      ensures Line(sub, p) == Line(s.subs[i], p)
    {
      TakeLine(s.subs[i], room, ending, p);
    }
    TakeLine(s.subs[i], room, ending, High);
    SubWhole(s, i, sub, size);
  }

  lemma RetryWhole(s: Peer, i: nat, room: nat)
    requires Whole(s) && i < |s.subs|
    ensures Whole(WithSub(s, i, Distribute(s.subs[i], room, false)))
  {
    assert Intact(s, i);
    DistributeUnasked(s.subs[i], room, false);
    var sub := Distribute(s.subs[i], room, false);
    assert sub.sent == s.subs[i].sent;
    hide Whole, Unasked, Line, Distribute;
    forall p
      ensures Line(sub, p) == Line(s.subs[i], p)
    {
      DistributeLine(s.subs[i], room, false, p);
    }
    SubWhole(s, i, sub, 0);
  }

  /** The session takes a message and offers it to the stream of its protocol. */
  lemma ForwardIntact(s: Peer, room: nat, j: nat)
    requires Whole(s) && s.inbox.Size() > 0 && j < |s.subs|
    ensures Intact(Forwarded(s, room, false), j)
  {
    var p := s.inbox.First();
    var m, s' := s.inbox.At(p)[0], Forwarded(s, room, false);
    assert Known(s.inbox.At(p), s.protoStreams);
    var i, sub := s.protoStreams[m.proto], s.subs[j];
    assert Intact(s, j) && Intact(s, i);
    if j == i {
      PushUnasked(sub, p, m.bytes);
      DistributeUnasked(sub.(buffer := sub.buffer.Push(p, Data(m.bytes))), room, false);
    }
    assert Unasked(s'.subs[j]);
    forall q
      ensures Line(s'.subs[j], q) + Of(s'.inbox.At(q), sub.proto) == Of(s'.posted.At(q), sub.proto)
    {
      HeadLeaves(s, p, q);
      OfOne(m, sub.proto);
      NoneOf(sub.proto);
      var head := if q == p then [m] else [];
      OfAppend(head, s'.inbox.At(q), sub.proto);
      hide Line, Of, Offer;
      if j == i {
        OfferLine(sub, p, Data(m.bytes), room, false, q);
      }
      assert Line(sub, q) + [] == Line(sub, q);
      Assoc(Line(sub, q), Of(head, sub.proto), Of(s'.inbox.At(q), sub.proto));
    }
  }

  lemma PushUnasked(sub: Sub, p: Priority, bytes: Bytes)
    requires Unasked(sub)
    ensures Unasked(sub.(buffer := sub.buffer.Push(p, Data(bytes))))
  {
  }

  lemma ForwardCounts(s: Peer, room: nat)
    requires Mapped(s) && s.inbox.Size() > 0 && Known(s.inbox.At(s.inbox.First()), s.protoStreams)
    ensures var s' := Forwarded(s, room, false); Queued(s') == Queued(s) && Outstanding(s') == Outstanding(s)
  {
    var p := s.inbox.First();
    var m := s.inbox.At(p)[0];
    var i := s.protoStreams[m.proto];
    var sub, sub' := s.subs[i], Offer(s.subs[i], p, Data(m.bytes), room, false);
    HeadBodies(s.inbox);
    OfferBytes(sub, p, m.bytes, room);
    SumsUpdate(s.subs, i, sub');
    hide AllQueued, AllSent, SubQueued, SubSent, Bodies, Offer;
  }

  lemma OfferBytes(sub: Sub, p: Priority, bytes: Bytes, room: nat)
    ensures var sub' := Offer(sub, p, Data(bytes), room, false);
      SubQueued(sub') == SubQueued(sub) + |bytes| && SubSent(sub') == SubSent(sub)
  {
    var sub' := Offer(sub, p, Data(bytes), room, false);
    OfferSendsNothing(sub, p, Data(bytes), room, false);
    OneTotal(bytes);
    LineBytes(sub);
    LineBytes(sub');
    hide Line, Offer, SubQueued, SubSent, TotalBytes;
    forall q
      ensures TotalBytes(Line(sub', q)) == TotalBytes(Line(sub, q)) + (if q == p then |bytes| else 0)
    {
      OfferLine(sub, p, Data(bytes), room, false, q);
      TotalBytesAppend(Line(sub, q), [bytes]);
      assert Line(sub, q) + [] == Line(sub, q);
    }
  }

  lemma LeftKnown(l: Lanes<Message>, streams: map<nat, nat>)
    requires l.Size() > 0 && forall q :: Known(l.At(q), streams)
    ensures forall q :: Known(l.Left(1).At(q), streams)
  {
    assert Known(l.At(High), streams) && Known(l.At(Normal), streams);
  }

  lemma ForwardKeepsMap(s: Peer, room: nat)
    requires Mapped(s) && s.inbox.Size() > 0
    ensures var s' := Forwarded(s, room, false);
      && Mapped(s') && s'.protoStreams == s.protoStreams && |s'.subs| == |s.subs|
      && s'.inbox == s.inbox.Left(1) && s'.posted == s.posted
  {
    hide Distribute;
  }

  lemma ForwardWhole(s: Peer, room: nat)
    requires Whole(s)
    ensures Whole(Forwarded(s, room, false))
  {
    if s.inbox.Size() > 0 {
      var s' := Forwarded(s, room, false);
      LeftKnown(s.inbox, s.protoStreams);
      assert Known(s.inbox.At(s.inbox.First()), s.protoStreams);
      ForwardCounts(s, room);
      ForwardKeepsMap(s, room);
      hide Intact, Queued, Outstanding, Known, Forwarded;
      forall j | 0 <= j < |s.subs|
        ensures Intact(s', j)
      {
        ForwardIntact(s, room, j);
      }
    }
  }

  lemma NextWhole(s: Peer, step: Step)
    requires Whole(s) && Gentle(s, step)
    ensures Whole(Next(s, step))
  {
    hide Whole;
    match step {
      case Post(p, m, _) => PostWhole(s, p, m);
      case OpenProtocol(proto) => OpenWhole(s, proto);
      case Forward(room, _) => ForwardWhole(s, room);
      case Retry(i, room, _) =>
        if i < |s.subs| {
          RetryWhole(s, i, room);
        }
      case TakeEvent(i, room, ending) =>
        if i < |s.subs| {
          TakeWhole(s, i, room, ending);
        }
      case FlushStream(i, room, ending) =>
        if i < |s.subs| {
          FlushWhole(s, i, room, ending);
        }
    }
  }

  lemma {:induction false} RunWhole(s: Peer, steps: seq<Step>)
    requires Whole(s) && GentleRun(s, steps)
    ensures Whole(Run(s, steps))
    decreases |steps|
  {
    hide Whole, Gentle, Next;
    if steps != [] {
      NextWhole(s, steps[0]);
      RunWhole(Next(s, steps[0]), steps[1..]);
    }
  }

  /**
   * In every run in which nothing breaks or is closed, everything posted for a stream's protocol, of
   * each priority and in order, is what the stream has passed on, then what waits on the way to it,
   * then what the session has not taken yet; and the counter is the number of bytes still queued.
   */
  lemma NothingIsLost(steps: seq<Step>, i: nat, p: Priority)
    requires GentleRun(NewPeer(), steps) && i < |Run(NewPeer(), steps).subs|
    ensures var s := Run(NewPeer(), steps);
      && Line(s.subs[i], p) + Of(s.inbox.At(p), s.subs[i].proto) == Of(s.posted.At(p), s.subs[i].proto)
      && Outstanding(s) == Queued(s) && (Queued(s) < USIZE ==> s.pending == Queued(s))
  {
    assert Whole(NewPeer());
    RunWhole(NewPeer(), steps);
    CounterCoversQueues(steps);
    hide Run, GentleRun, Line, Of, Queued, Outstanding;
    assert Intact(Run(NewPeer(), steps), i);
  }

  // -------------------------------------------------------- high first at every stage

  /** Nothing of normal priority leaves a stage while there is something of high priority in it. */
  lemma HighFirstEverywhere(s: Peer, step: Step, i: nat)
    requires i < |s.subs| && step != EndStream(i)
    ensures var s' := Next(s, step);
      && i < |s'.subs|
      && (|s'.inbox.normal| < |s.inbox.normal| ==> s.inbox.high == [])
      && (|s'.subs[i].channel.normal| < |s.subs[i].channel.normal| ==> s.subs[i].channel.high == [])
      && (|s'.subs[i].channel.normal| > |s.subs[i].channel.normal| ==> s'.subs[i].buffer.high == [])
  {
    match step {
      case TakeEvent(j, room, ending) =>
        if j < |s.subs| {
          TakeServesHigh(s.subs[j], room, ending);
          hide Take;
        }
      case FlushStream(j, room, ending) =>
        if j < |s.subs| {
          FlushKeepsQueues(s.subs[j], room, ending);
          hide Flush;
        }
      case _ =>
    }
  }

  lemma FlushKeepsQueues(sub: Sub, room: nat, ending: Ending)
    ensures var sub' := Flush(sub, room, ending).0; sub'.channel == sub.channel && sub'.buffer == sub.buffer
  {
  }

  lemma TakeServesHigh(sub: Sub, room: nat, ending: Ending)
    ensures var sub' := Take(sub, room, ending).0;
      && sub'.buffer == sub.buffer && |sub'.channel.normal| <= |sub.channel.normal|
      && (|sub'.channel.normal| < |sub.channel.normal| ==> sub.channel.high == [])
  {
  }

  // ------------------------------------------------------------------ dead streams

  lemma NextDead(s: Peer, step: Step, i: nat)
    requires i < |s.subs| && s.subs[i].dead
    ensures var s' := Next(s, step); i < |s'.subs| && s'.subs[i].dead && s'.subs[i].sent == s.subs[i].sent
  {
    hide Take, Flush;
  }

  /** A stream that has failed, or was closed, passes on nothing more. */
  lemma {:induction false} DeadIsSilent(s: Peer, steps: seq<Step>, i: nat)
    requires i < |s.subs| && s.subs[i].dead
    ensures var s' := Run(s, steps); i < |s'.subs| && s'.subs[i].dead && s'.subs[i].sent == s.subs[i].sent
    decreases |steps|
  {
    hide Next;
    if steps != [] {
      NextDead(s, steps[0], i);
      DeadIsSilent(Next(s, steps[0]), steps[1..], i);
    }
  }

  // ------------------------------------------------------------------ closing and ending

  /** Closing an open protocol puts a request to close behind everything of high priority for its stream. */
  lemma CloseIsQueued(s: Peer, proto: nat, room: nat, broken: bool)
    requires Mapped(s) && proto in s.protoStreams
    ensures var i := s.protoStreams[proto];
      var sub, sub' := s.subs[i], Next(s, CloseProtocol(proto, room, broken)).subs[i];
      !broken || sub.buffer.Size() < room ==>
        sub'.channel.high + sub'.buffer.high == (sub.channel.high + sub.buffer.high) + [CloseStream]
  {
    var i := s.protoStreams[proto];
    var sub := s.subs[i].(buffer := s.subs[i].buffer.Push(High, CloseStream));
    var (moved, rest, _) := TrySend(sub.buffer, room, broken);
    assert !broken || sub.buffer.Size() <= room ==> moved.high + rest.high == sub.buffer.high by {
      if sub.buffer.Size() > room {
        ServesInOrder(sub.buffer, room);
        assert sub.buffer.Taken(room).At(High) + sub.buffer.Left(room).At(High) == sub.buffer.At(High);
      }
    }
    hide TrySend;
    Assoc(sub.channel.high, moved.high, rest.high);
    Assoc(sub.channel.high, s.subs[i].buffer.high, [CloseStream]);
  }

  /** A stream that has ended serves no protocol, and every other protocol is served as before. */
  lemma EndedServesNone(s: Peer, i: nat)
    requires i < |s.subs|
    ensures var s' := Next(s, EndStream(i));
      && (forall q :: q in s'.protoStreams <==> q in s.protoStreams && s.protoStreams[q] != i)
      && (forall q :: q in s'.protoStreams ==> s'.protoStreams[q] == s.protoStreams[q])
      && s'.subs[i].dead && SubQueued(s'.subs[i]) == 0
  {
  }
}
