/**
 * Every run of a session: the counter never falls below the bytes that are queued, and each
 * protocol stream passes on the messages of one priority in the order they were posted.
 */
module SendPipelineRuns {
  import opened ByteStrings
  import opened Subsequences
  import opened SendPipeline
  import opened SendPipelineLaws

  // ------------------------------------------------------------------- in order

  /** The messages for one protocol. */
  function Of(ms: seq<Message>, proto: nat): (bs: seq<Bytes>) {
    if ms == [] then [] else (if ms[0].proto == proto then [ms[0].bytes] else []) + Of(ms[1..], proto)
  }

  lemma {:induction false} OfAppend(a: seq<Message>, b: seq<Message>, proto: nat)
    ensures Of(a + b, proto) == Of(a, proto) + Of(b, proto)
  {
    if a == [] {
      assert a + b == b;
    } else {
      var head, tail := if a[0].proto == proto then [a[0].bytes] else [], Of(a[1..], proto);
      assert Of(a + b, proto) == head + (tail + Of(b, proto)) by {
        OfAppend(a[1..], b, proto);
        assert (a + b)[0] == a[0] && (a + b)[1..] == a[1..] + b;
      }
      assert Of(a, proto) == head + tail;
    }
  }

  /** What has reached a stream, then what is still in the channel to the session, as it was posted. */
  ghost predicate LineInOrder(inbox: Lanes<Message>, posted: Lanes<Message>, line: seq<Bytes>, p: Priority,
                              proto: nat)
  {
    IsSubseq(line + Of(inbox.At(p), proto), Of(posted.At(p), proto))
  }

  ghost predicate LinesInOrder(inbox: Lanes<Message>, posted: Lanes<Message>, subs: seq<Sub>) {
    && (forall p, proto :: LineInOrder(inbox, posted, [], p, proto))
    && (forall i, p :: 0 <= i < |subs| ==> LineInOrder(inbox, posted, Line(subs[i], p), p, subs[i].proto))
  }

  ghost predicate InOrder(s: Peer) { LinesInOrder(s.inbox, s.posted, s.subs) }

  /** A protocol is served by a stream of its own. */
  ghost predicate Mapped(s: Peer) {
    forall q :: q in s.protoStreams ==> s.protoStreams[q] < |s.subs| && s.subs[s.protoStreams[q]].proto == q
  }

  lemma LineAdvances(inbox: Lanes<Message>, inbox': Lanes<Message>, posted: Lanes<Message>, line: seq<Bytes>,
                     line': seq<Bytes>, p: Priority, proto: nat, head: seq<Message>)
    requires LineInOrder(inbox, posted, line, p, proto)
    requires inbox.At(p) == head + inbox'.At(p) && IsSubseq(line', line + Of(head, proto))
    ensures LineInOrder(inbox', posted, line', p, proto)
  {
    OfAppend(head, inbox'.At(p), proto);
    var more, rest := Of(head, proto), Of(inbox'.At(p), proto);
    hide Of, IsSubseq;
    SubseqGrow(line', line + more, rest);
    Assoc(line, more, rest);
    SubseqTrans(line' + rest, line + (more + rest), Of(posted.At(p), proto));
  }

  /** Streams only lose entries, or gain the message the session took; nothing is posted. */
  lemma InOrderStep(s: Peer, s': Peer, q: Priority, head: seq<Message>)
    requires InOrder(s) && s'.posted == s.posted && |s'.subs| == |s.subs|
    requires forall p :: s.inbox.At(p) == (if p == q then head else []) + s'.inbox.At(p)
    requires forall i :: 0 <= i < |s.subs| ==>
      s'.subs[i].proto == s.subs[i].proto
      && (s'.subs[i] == s.subs[i] || Kept(s.subs[i], s'.subs[i], q, Of(head, s.subs[i].proto)))
    ensures InOrder(s')
  {
    hide Line, IsSubseq, Of, LineInOrder;
    forall p, proto
      ensures LineInOrder(s'.inbox, s.posted, [], p, proto)
    {
      var h := if p == q then head else [];
      Grown([], Of(h, proto));
      LineAdvances(s.inbox, s'.inbox, s.posted, [], [], p, proto, h);
    }
    forall i, p | 0 <= i < |s'.subs|
      ensures LineInOrder(s'.inbox, s.posted, Line(s'.subs[i], p), p, s'.subs[i].proto)
    {
      var line, line', proto := Line(s.subs[i], p), Line(s'.subs[i], p), s.subs[i].proto;
      var h := if p == q then head else [];
      assert Of([], proto) == [] by { NoneOf(proto); }
      if s'.subs[i] == s.subs[i] {
        Grown(line, Of(h, proto));
      }
      LineAdvances(s.inbox, s'.inbox, s.posted, line, line', p, proto, h);
    }
  }

  lemma Grown(line: seq<Bytes>, more: seq<Bytes>)
    ensures IsSubseq(line, line + more)
  {
    CutOut(line, more, []);
    assert line + [] == line && more + [] == more;
  }

  lemma NoneOf(proto: nat)
    ensures Of([], proto) == []
  {
  }

  /** One stream changes, the inbox does not. */
  lemma SubStepInOrder(s: Peer, i: nat, sub: Sub)
    requires InOrder(s) && Mapped(s) && i < |s.subs|
    requires forall p :: IsSubseq(Line(sub, p), Line(s.subs[i], p))
    requires sub.proto == s.subs[i].proto
    ensures InOrder(WithSub(s, i, sub)) && Mapped(WithSub(s, i, sub))
  {
    hide Line, IsSubseq, LineInOrder;
    var s' := WithSub(s, i, sub);
    assert forall p :: [] + s.inbox.At(p) == s.inbox.At(p);
    NoneOf(sub.proto);
    assert Kept(s.subs[i], sub, High, []) by {
      forall p
        ensures IsSubseq(Line(sub, p), Line(s.subs[i], p) + [])
      {
        assert Line(s.subs[i], p) + [] == Line(s.subs[i], p);
      }
    }
    hide Kept, InOrder;
    InOrderStep(s, s', High, []);
  }

  lemma PostInOrder(s: Peer, p: Priority, m: Message, arrives: bool)
    requires InOrder(s)
    ensures InOrder(Posted(s, p, m, arrives))
  {
    hide Line, IsSubseq, Of, LineInOrder;
    var s' := Posted(s, p, m, arrives);
    forall q, proto
      ensures LineInOrder(s'.inbox, s'.posted, [], q, proto)
    {
      PostLine(s, p, m, arrives, [], q, proto);
    }
    forall i, q | 0 <= i < |s.subs|
      ensures LineInOrder(s'.inbox, s'.posted, Line(s.subs[i], q), q, s.subs[i].proto)
    {
      PostLine(s, p, m, arrives, Line(s.subs[i], q), q, s.subs[i].proto);
    }
  }

  lemma PostLine(s: Peer, p: Priority, m: Message, arrives: bool, line: seq<Bytes>, q: Priority, proto: nat)
    requires LineInOrder(s.inbox, s.posted, line, q, proto)
    ensures var s' := Posted(s, p, m, arrives); LineInOrder(s'.inbox, s'.posted, line, q, proto)
  {
    var inbox, posted := s.inbox.At(q), s.posted.At(q);
    OfAppend(inbox, [m], proto);
    OfAppend(posted, [m], proto);
    var x := Of([m], proto);
    hide Of, IsSubseq;
    if q == p {
      SubseqGrow(line + Of(inbox, proto), Of(posted, proto), x);
      Assoc(line, Of(inbox, proto), x);
      if !arrives {
        Grown(line + Of(inbox, proto), x);
        SubseqTrans(line + Of(inbox, proto), (line + Of(inbox, proto)) + x, Of(posted, proto) + x);
      }
    }
  }

  lemma OpenInOrder(s: Peer, proto: nat)
    requires InOrder(s) && Mapped(s)
    ensures InOrder(Next(s, OpenProtocol(proto))) && Mapped(Next(s, OpenProtocol(proto)))
  {
    var s' := Next(s, OpenProtocol(proto));
    assert forall p :: Line(NewSub(proto), p) == [];
    hide Line, LineInOrder;
    forall i, p | 0 <= i < |s'.subs|
      ensures LineInOrder(s.inbox, s.posted, Line(s'.subs[i], p), p, s'.subs[i].proto)
    {
      if i < |s.subs| {
        assert s'.subs[i] == s.subs[i];
      }
    }
  }

  /** The message the session takes next. */
  predicate Heads(s: Peer, p: Priority) {
    s.inbox.Size() > 0 && p == if s.inbox.high != [] then High else Normal
  }

  lemma HeadLeaves(s: Peer, p: Priority, q: Priority)
    requires Heads(s, p)
    ensures s.inbox.At(p) != []
    ensures s.inbox.At(q) == (if q == p then [s.inbox.At(p)[0]] else []) + s.inbox.Left(1).At(q)
  {
  }

  lemma OfOne(m: Message, proto: nat)
    ensures Of([m], proto) == if m.proto == proto then [m.bytes] else []
  {
    assert Of([m], proto) == (if m.proto == proto then [m.bytes] else []) + Of([], proto);
  }

  lemma OfferKept(sub: Sub, p: Priority, e: Event, room: nat, broken: bool)
    ensures Kept(sub, Offer(sub, p, e, room, broken), p, if e.Data? then [e.bytes] else [])
  {
    hide Line, IsSubseq, Offer;
    var sub', more := Offer(sub, p, e, room, broken), if e.Data? then [e.bytes] else [];
    forall q
      ensures IsSubseq(Line(sub', q), Line(sub, q) + (if q == p then more else []))
    {
      OfferLine(sub, p, e, room, broken, q);
    }
  }

  lemma ForwardInOrder(s: Peer, room: nat, broken: bool)
    requires InOrder(s) && Mapped(s)
    ensures InOrder(Forwarded(s, room, broken)) && Mapped(Forwarded(s, room, broken))
  {
    if s.inbox.Size() > 0 {
      var p := if s.inbox.high != [] then High else Normal;
      forall q
        ensures s.inbox.At(p) != []
        ensures s.inbox.At(q) == (if q == p then [s.inbox.At(p)[0]] else []) + s.inbox.Left(1).At(q)
      {
        HeadLeaves(s, p, q);
      }
      var m, s' := s.inbox.At(p)[0], Forwarded(s, room, broken);
      if m.proto in s.protoStreams && s.protoStreams[m.proto] < |s.subs| {
        var i := s.protoStreams[m.proto];
        OfferKept(s.subs[i], p, Data(m.bytes), room, broken);
        OfOne(m, m.proto);
      }
      hide Line, IsSubseq, LinesInOrder, Kept, Of;
      InOrderStep(s, s', p, [m]);
    }
  }

  // ------------------------------------------------------------------- counted

  /** Nothing is queued or passed on that was not posted, and the counter is what is outstanding. */
  ghost predicate Counted(s: Peer) {
    Queued(s) <= Outstanding(s) && s.pending == Outstanding(s) % USIZE
  }

  lemma {:induction false} SumsUpdate(subs: seq<Sub>, i: nat, sub: Sub)
    requires i < |subs|
    ensures AllQueued(subs[i := sub]) == AllQueued(subs) - SubQueued(subs[i]) + SubQueued(sub)
    ensures AllSent(subs[i := sub]) == AllSent(subs) - SubSent(subs[i]) + SubSent(sub)
  {
    hide SubQueued, SubSent;
    if i == 0 {
      assert subs[i := sub][1..] == subs[1..];
    } else {
      SumsUpdate(subs[1..], i - 1, sub);
      assert subs[i := sub][1..] == subs[1..][i - 1 := sub];
    }
  }

  lemma {:induction false} SumsSnoc(subs: seq<Sub>, sub: Sub)
    ensures AllQueued(subs + [sub]) == AllQueued(subs) + SubQueued(sub)
    ensures AllSent(subs + [sub]) == AllSent(subs) + SubSent(sub)
  {
    if subs == [] {
      assert [] + [sub] == [sub] && [sub][1..] == [];
    } else {
      SumsSnoc(subs[1..], sub);
      assert (subs + [sub])[0] == subs[0] && (subs + [sub])[1..] == subs[1..] + [sub];
    }
  }

  lemma ModStep(a: int, n: int)
    ensures (a % USIZE + n) % USIZE == (a + n) % USIZE
  {
    assert a == USIZE * (a / USIZE) + a % USIZE;
  }

  /** One stream changes; what it passes on is taken off the counter. */
  lemma SubStepCounted(s: Peer, i: nat, sub: Sub, size: nat)
    requires Counted(s) && i < |s.subs|
    requires forall p :: IsSubseq(Line(sub, p), Line(s.subs[i], p))
    requires sub.proto == s.subs[i].proto && SubSent(sub) == SubSent(s.subs[i]) + size
    ensures Counted(WithSub(s, i, sub).(pending := Decreased(s.pending, size)))
    ensures size == 0 ==> Counted(WithSub(s, i, sub))
    ensures size <= SubQueued(s.subs[i])
  {
    StreamCounts(s, i, sub, size);
    SameCounts(WithSub(s, i, sub), WithSub(s, i, sub).(pending := Decreased(s.pending, size)));
    ModStep(Outstanding(s), 0 - size);
    hide Line, IsSubseq, SubSent, Queued, Outstanding, SubQueued;
  }

  lemma StreamCounts(s: Peer, i: nat, sub: Sub, size: nat)
    requires i < |s.subs| && SubSent(sub) == SubSent(s.subs[i]) + size
    requires forall p :: IsSubseq(Line(sub, p), Line(s.subs[i], p))
    ensures var s' := WithSub(s, i, sub);
      && Queued(s') + size <= Queued(s) && Outstanding(s') == Outstanding(s) - size
    ensures size <= SubQueued(s.subs[i])
  {
    SumsUpdate(s.subs, i, sub);
    LineBytes(s.subs[i]);
    LineBytes(sub);
    SubseqBytes(Line(sub, High), Line(s.subs[i], High));
    SubseqBytes(Line(sub, Normal), Line(s.subs[i], Normal));
    hide Line, IsSubseq, TotalBytes, SubQueued, SubSent, AllQueued, AllSent, Bodies;
  }

  lemma {:induction false} MessageBytesAppend(a: seq<Message>, b: seq<Message>)
    ensures MessageBytes(a + b) == MessageBytes(a) + MessageBytes(b)
  {
    if a == [] {
      assert a + b == b;
    } else {
      MessageBytesAppend(a[1..], b);
      assert (a + b)[0] == a[0] && (a + b)[1..] == a[1..] + b;
    }
  }

  lemma PushBodies(l: Lanes<Message>, p: Priority, m: Message)
    ensures Bodies(l.Push(p, m)) == Bodies(l) + |m.bytes|
  {
    MessageBytesAppend(l.high, [m]);
    MessageBytesAppend(l.normal, [m]);
    assert MessageBytes([m]) == |m.bytes| + MessageBytes([]);
  }

  lemma PostCounted(s: Peer, p: Priority, m: Message, arrives: bool)
    requires Counted(s)
    ensures Counted(Posted(s, p, m, arrives))
  {
    PushBodies(s.posted, p, m);
    PushBodies(s.inbox, p, m);
    ModStep(Outstanding(s), |m.bytes|);
    hide Bodies, AllQueued, AllSent;
  }

  lemma OneTotal(b: Bytes)
    ensures TotalBytes([b]) == |b|
  {
    assert Flatten([b]) == b + Flatten<byte>([]);
  }

  lemma HeadBodies(l: Lanes<Message>)
    requires l.Size() > 0
    ensures Bodies(l) == |l.At(if l.high != [] then High else Normal)[0].bytes| + Bodies(l.Left(1))
  {
  }

  lemma ForwardCounted(s: Peer, room: nat, broken: bool)
    requires Counted(s)
    ensures Counted(Forwarded(s, room, broken))
  {
    hide Queued, Outstanding;
    if s.inbox.Size() > 0 {
      var p := if s.inbox.high != [] then High else Normal;
      var m, s1 := s.inbox.At(p)[0], s.(inbox := s.inbox.Left(1));
      if m.proto in s.protoStreams && s.protoStreams[m.proto] < |s.subs| {
        var i := s.protoStreams[m.proto];
        OfferCounts(s, i, p, m, room, broken);
      } else {
        DropCounts(s);
      }
    }
  }

  lemma DropCounts(s: Peer)
    requires s.inbox.Size() > 0
    ensures var s' := s.(inbox := s.inbox.Left(1)); Queued(s') <= Queued(s) && Outstanding(s') == Outstanding(s)
  {
    HeadBodies(s.inbox);
    hide Bodies;
  }

  lemma OfferCounts(s: Peer, i: nat, p: Priority, m: Message, room: nat, broken: bool)
    requires s.inbox.Size() > 0 && p == (if s.inbox.high != [] then High else Normal) && m == s.inbox.At(p)[0]
    requires i < |s.subs|
    ensures var s' := WithSub(s.(inbox := s.inbox.Left(1)), i, Offer(s.subs[i], p, Data(m.bytes), room, broken));
      Queued(s') <= Queued(s) && Outstanding(s') == Outstanding(s)
  {
    var sub := Offer(s.subs[i], p, Data(m.bytes), room, broken);
    HeadBodies(s.inbox);
    OneTotal(m.bytes);
    hide Line, IsSubseq, TotalBytes, SubQueued, SubSent, AllQueued, AllSent, Bodies, Offer;
    OfferKept(s.subs[i], p, Data(m.bytes), room, broken);
    KeptBytes(s.subs[i], sub, p, [m.bytes]);
    hide Kept;
    SumsUpdate(s.subs, i, sub);
    OfferSendsNothing(s.subs[i], p, Data(m.bytes), room, broken);
  }

  lemma OfferSendsNothing(sub: Sub, p: Priority, e: Event, room: nat, broken: bool)
    ensures SubSent(Offer(sub, p, e, room, broken)) == SubSent(sub)
  {
  }

  lemma OpenCounted(s: Peer, proto: nat)
    requires Counted(s)
    ensures Counted(Next(s, OpenProtocol(proto)))
  {
    SumsSnoc(s.subs, NewSub(proto));
  }

  // ------------------------------------------------------------------ every run

  ghost predicate Good(s: Peer) { InOrder(s) && Mapped(s) && Counted(s) }

  lemma OfferCloseGood(s: Peer, i: nat, room: nat, broken: bool)
    requires Good(s) && i < |s.subs|
    ensures Good(WithSub(s, i, Offer(s.subs[i], High, CloseStream, room, broken)))
  {
    var sub := Offer(s.subs[i], High, CloseStream, room, broken);
    forall p
      ensures IsSubseq(Line(sub, p), Line(s.subs[i], p))
    {
      hide Line, IsSubseq, Offer;
      OfferLine(s.subs[i], High, CloseStream, room, broken, p);
      assert Line(s.subs[i], p) + [] == Line(s.subs[i], p);
    }
    assert sub.sent == s.subs[i].sent;
    hide Line, IsSubseq, Offer, InOrder, Mapped, Counted;
    SubStepInOrder(s, i, sub);
    SubStepCounted(s, i, sub, 0);
  }

  lemma SubStepGood(s: Peer, i: nat, sub: Sub, size: nat)
    requires Good(s) && i < |s.subs| && sub.proto == s.subs[i].proto && SubSent(sub) == SubSent(s.subs[i]) + size
    requires forall p :: IsSubseq(Line(sub, p), Line(s.subs[i], p))
    ensures Good(WithSub(s, i, sub).(pending := Decreased(s.pending, size)))
    ensures size == 0 ==> Good(WithSub(s, i, sub))
  {
    hide Line, IsSubseq, LinesInOrder, Counted, SubSent;
    SubStepInOrder(s, i, sub);
    SubStepCounted(s, i, sub, size);
  }

  lemma EndGood(s: Peer, i: nat)
    requires Good(s) && i < |s.subs|
    ensures Good(Next(s, EndStream(i)))
  {
    hide Line, IsSubseq, Good, End, SubSent, Unmapped, Mapped, Counted, LinesInOrder;
    forall p
      ensures IsSubseq(Line(End(s.subs[i]), p), Line(s.subs[i], p))
    {
      ClearLine(s.subs[i], p);
    }
    EndSendsNothing(s.subs[i]);
    SubStepGood(s, i, End(s.subs[i]), 0);
    UnmapGood(WithSub(s, i, End(s.subs[i])), Unmapped(s.protoStreams, i));
  }

  lemma EndSendsNothing(sub: Sub)
    ensures SubSent(End(sub)) == SubSent(sub)
  {
  }

  lemma UnmapGood(s: Peer, fewer: map<nat, nat>)
    requires Good(s) && forall q :: q in fewer ==> q in s.protoStreams && fewer[q] == s.protoStreams[q]
    ensures Good(s.(protoStreams := fewer))
  {
    SameCounts(s, s.(protoStreams := fewer));
    hide LinesInOrder, Queued, Outstanding;
  }

  lemma SameCounts(s: Peer, s': Peer)
    requires s'.inbox == s.inbox && s'.subs == s.subs && s'.posted == s.posted
    ensures Queued(s') == Queued(s) && Outstanding(s') == Outstanding(s)
  {
  }

  lemma RetryGood(s: Peer, i: nat, room: nat, broken: bool)
    requires Good(s) && i < |s.subs|
    ensures Good(WithSub(s, i, Distribute(s.subs[i], room, broken))) && Good(WithSub(s, i, ClearBuffer(s.subs[i])))
  {
    var sub := s.subs[i];
    forall p
      ensures IsSubseq(Line(Distribute(sub, room, broken), p), Line(sub, p))
      ensures IsSubseq(Line(ClearBuffer(sub), p), Line(sub, p))
    {
      DistributeLine(sub, room, broken, p);
      ClearLine(sub, p);
    }
    hide Line, IsSubseq, Good;
    SubStepGood(s, i, Distribute(sub, room, broken), 0);
    SubStepGood(s, i, ClearBuffer(sub), 0);
  }

  lemma TakeGood(s: Peer, i: nat, room: nat, ending: Ending)
    requires Good(s) && i < |s.subs|
    ensures var (sub, size) := Take(s.subs[i], room, ending);
      Good(WithSub(s, i, sub).(pending := Decreased(s.pending, size)))
  {
    hide Line, IsSubseq, Good, SubSent, Take;
    forall p
      ensures IsSubseq(Line(Take(s.subs[i], room, ending).0, p), Line(s.subs[i], p))
    {
      TakeLine(s.subs[i], room, ending, p);
    }
    TakeLine(s.subs[i], room, ending, High);
    SubStepGood(s, i, Take(s.subs[i], room, ending).0, Take(s.subs[i], room, ending).1);
  }

  lemma FlushGood(s: Peer, i: nat, room: nat, ending: Ending)
    requires Good(s) && i < |s.subs|
    ensures var (sub, size) := Flush(s.subs[i], room, ending);
      Good(WithSub(s, i, sub).(pending := Decreased(s.pending, size)))
  {
    hide Line, IsSubseq, Good, SubSent, Flush;
    forall p
      ensures IsSubseq(Line(Flush(s.subs[i], room, ending).0, p), Line(s.subs[i], p))
    {
      FlushLine(s.subs[i], room, ending, p);
    }
    FlushLine(s.subs[i], room, ending, High);
    SubStepGood(s, i, Flush(s.subs[i], room, ending).0, Flush(s.subs[i], room, ending).1);
  }

  lemma NextGood(s: Peer, step: Step)
    requires Good(s)
    ensures Good(Next(s, step))
  {
    hide LinesInOrder, Counted;
    match step
    case Post(p, m, arrives) =>
      PostInOrder(s, p, m, arrives);
      PostCounted(s, p, m, arrives);
    case OpenProtocol(proto) =>
      OpenInOrder(s, proto);
      OpenCounted(s, proto);
    case Forward(room, broken) =>
      ForwardInOrder(s, room, broken);
      ForwardCounted(s, room, broken);
    case CloseProtocol(proto, room, broken) =>
      if proto in s.protoStreams && s.protoStreams[proto] < |s.subs| {
        OfferCloseGood(s, s.protoStreams[proto], room, broken);
      }
    case EndStream(i) =>
      if i < |s.subs| {
        EndGood(s, i);
      }
    case Retry(i, room, broken) =>
      if i < |s.subs| {
        RetryGood(s, i, room, broken);
      }
    case Clear(i) =>
      if i < |s.subs| {
        RetryGood(s, i, 0, false);
      }
    case TakeEvent(i, room, ending) =>
      if i < |s.subs| {
        TakeGood(s, i, room, ending);
      }
    case FlushStream(i, room, ending) =>
      if i < |s.subs| {
        FlushGood(s, i, room, ending);
      }
  }

  lemma {:induction false} RunGood(s: Peer, steps: seq<Step>)
    requires Good(s)
    ensures Good(Run(s, steps))
    decreases |steps|
  {
    hide Good;
    if steps != [] {
      NextGood(s, steps[0]);
      RunGood(Next(s, steps[0]), steps[1..]);
    }
  }

  lemma NewPeerGood()
    ensures Good(NewPeer())
  {
    forall p, proto
      ensures LineInOrder(NewPeer().inbox, NewPeer().posted, [], p, proto)
    {
      NoneOf(proto);
      SubseqSelf<Bytes>([]);
    }
    hide LineInOrder;
  }

  /**
   * In every run, what is queued is never more than what was posted and not passed on, and as long
   * as that fits the counter, the counter says it exactly: so it is never less than what is queued.
   */
  lemma CounterCoversQueues(steps: seq<Step>)
    ensures var s := Run(NewPeer(), steps);
      && Queued(s) <= Outstanding(s)
      && (Outstanding(s) < USIZE ==> s.pending == Outstanding(s) >= Queued(s))
  {
    hide Good, Run, Queued, Outstanding;
    NewPeerGood();
    RunGood(NewPeer(), steps);
    GoodCounter(Run(NewPeer(), steps));
  }

  lemma GoodCounter(s: Peer)
    requires Good(s)
    ensures Queued(s) <= Outstanding(s) && (Outstanding(s) < USIZE ==> s.pending == Outstanding(s))
  {
    hide InOrder, Mapped, Queued, Outstanding;
    SmallMod(Outstanding(s));
  }

  lemma SmallMod(a: int)
    ensures 0 <= a < USIZE ==> a % USIZE == a
  {
  }

  /** Taking what a stream has passed on off the counter never takes more than is there. */
  lemma NeverWraps(steps: seq<Step>, i: nat, room: nat, ending: Ending)
    requires var s := Run(NewPeer(), steps); i < |s.subs| && Outstanding(s) < USIZE
    ensures var s := Run(NewPeer(), steps);
      Take(s.subs[i], room, ending).1 <= s.pending && Flush(s.subs[i], room, ending).1 <= s.pending
  {
    var s := Run(NewPeer(), steps);
    CounterCoversQueues(steps);
    OneOfAll(s.subs, i);
    PassedOnWasQueued(s.subs[i], room, ending);
    hide Run, Take, Flush, SubQueued, AllQueued, Outstanding, Bodies;
  }

  lemma {:induction false} OneOfAll(subs: seq<Sub>, i: nat)
    requires i < |subs|
    ensures SubQueued(subs[i]) <= AllQueued(subs)
  {
    if i > 0 {
      OneOfAll(subs[1..], i - 1);
    }
  }

  lemma PassedOnWasQueued(sub: Sub, room: nat, ending: Ending)
    ensures Take(sub, room, ending).1 <= SubQueued(sub) && Flush(sub, room, ending).1 <= SubQueued(sub)
  {
    forall p
      ensures IsSubseq(Line(Take(sub, room, ending).0, p), Line(sub, p))
      ensures IsSubseq(Line(Flush(sub, room, ending).0, p), Line(sub, p))
      ensures SubSent(Take(sub, room, ending).0) == SubSent(sub) + Take(sub, room, ending).1
      ensures SubSent(Flush(sub, room, ending).0) == SubSent(sub) + Flush(sub, room, ending).1
    {
      TakeLine(sub, room, ending, p);
      FlushLine(sub, room, ending, p);
    }
    hide Line, IsSubseq, Take, Flush, SubSent, SubQueued;
    LineBytes(sub);
    LineBytes(Take(sub, room, ending).0);
    LineBytes(Flush(sub, room, ending).0);
    forall p
      ensures TotalBytes(Line(Take(sub, room, ending).0, p)) <= TotalBytes(Line(sub, p))
      ensures TotalBytes(Line(Flush(sub, room, ending).0, p)) <= TotalBytes(Line(sub, p))
    {
      SubseqBytes(Line(Take(sub, room, ending).0, p), Line(sub, p));
      SubseqBytes(Line(Flush(sub, room, ending).0, p), Line(sub, p));
    }
  }

  /** In every run, what a stream has passed on with one priority was posted in that order. */
  lemma LeavesInOrder(steps: seq<Step>, i: nat, p: Priority)
    requires i < |Run(NewPeer(), steps).subs|
    ensures var s := Run(NewPeer(), steps);
      IsSubseq(OfPriority(s.subs[i].sent, p), Of(s.posted.At(p), s.subs[i].proto))
  {
    NewPeerGood();
    RunGood(NewPeer(), steps);
    var s := Run(NewPeer(), steps);
    var line, rest := Line(s.subs[i], p), Of(s.inbox.At(p), s.subs[i].proto);
    assert LineInOrder(s.inbox, s.posted, line, p, s.subs[i].proto);
    var sent := OfPriority(s.subs[i].sent, p);
    var more := s.subs[i].write.At(p) + (Payloads(s.subs[i].channel.At(p)) + Payloads(s.subs[i].buffer.At(p)));
    hide Of, IsSubseq, Run;
    Grown(sent, more + rest);
    Assoc(sent, more, rest);
    SubseqTrans(sent, line + rest, Of(s.posted.At(p), s.subs[i].proto));
  }

  // ---------------------------------------------------------------- high first

  /** No frame of normal priority was passed on while one of high priority was in the write buffer. */
  ghost predicate HighFirst(sub: Sub) {
    forall j :: 0 <= j < |sub.sent| && sub.sent[j].p == Normal ==> sub.sent[j].waiting == 0
  }

  lemma FlushHighFirst(sub: Sub, room: nat, ending: Ending)
    requires HighFirst(sub)
    ensures HighFirst(Flush(sub, room, ending).0)
  {
    var n, before := SendData(sub.write, room, ending).0, |sub.sent|;
    var sub' := Flush(sub, room, ending).0;
    assert sub'.sent == sub.sent + Served(sub.write, n);
    forall j | 0 <= j < |sub'.sent| && sub'.sent[j].p == Normal
      ensures sub'.sent[j].waiting == 0
    {
      if j < before {
        assert sub'.sent[j] == sub.sent[j];
      } else {
        ServesOneByOne(sub.write, n, j - before);
      }
    }
  }

  lemma TakeHighFirst(sub: Sub, room: nat, ending: Ending)
    requires HighFirst(sub)
    ensures HighFirst(Take(sub, room, ending).0)
  {
    if sub.channel.Size() > 0 {
      var p := if sub.channel.high != [] then High else Normal;
      if sub.channel.At(p)[0].Data? {
        var bytes := sub.channel.At(p)[0].bytes;
        FlushHighFirst(sub.(channel := sub.channel.Left(1), write := sub.write.Push(p, bytes)), room, ending);
      }
    }
  }

  lemma NextHighFirst(s: Peer, step: Step)
    requires forall i :: 0 <= i < |s.subs| ==> HighFirst(s.subs[i])
    ensures forall i :: 0 <= i < |Next(s, step).subs| ==> HighFirst(Next(s, step).subs[i])
  {
    match step {
      case TakeEvent(i, room, ending) =>
        if i < |s.subs| {
          TakeHighFirst(s.subs[i], room, ending);
        }
      case FlushStream(i, room, ending) =>
        if i < |s.subs| {
          FlushHighFirst(s.subs[i], room, ending);
        }
      case _ =>
    }
    hide Take, Flush;
  }

  lemma {:induction false} RunHighFirst(s: Peer, steps: seq<Step>)
    requires forall i :: 0 <= i < |s.subs| ==> HighFirst(s.subs[i])
    ensures forall i :: 0 <= i < |Run(s, steps).subs| ==> HighFirst(Run(s, steps).subs[i])
    decreases |steps|
  {
    hide HighFirst;
    if steps != [] {
      NextHighFirst(s, steps[0]);
      RunHighFirst(Next(s, steps[0]), steps[1..]);
    }
  }

  /** In every run, whenever a frame of normal priority is passed on, the high write buffer is empty. */
  lemma NormalWaitsForHigh(steps: seq<Step>, i: nat, j: nat)
    requires i < |Run(NewPeer(), steps).subs| && j < |Run(NewPeer(), steps).subs[i].sent|
    ensures var passed := Run(NewPeer(), steps).subs[i].sent[j]; passed.p == Normal ==> passed.waiting == 0
  {
    hide Run;
    RunHighFirst(NewPeer(), steps);
    assert HighFirst(Run(NewPeer(), steps).subs[i]);
  }
}
