/** What holds along the way of every message, in every run of a session and its streams. */
module SendPipelineLaws {
  import opened ByteStrings
  import opened Subsequences
  import opened SendPipeline

  // ---------------------------------------------------- one stream, one priority

  /** Everything of one priority that a stream has passed on or that waits for it, oldest first. */
  function Line(s: Sub, p: Priority): (bs: seq<Bytes>) {
    OfPriority(s.sent, p) + (s.write.At(p) + (Payloads(s.channel.At(p)) + Payloads(s.buffer.At(p))))
  }

  lemma {:induction false} PayloadsAppend(a: seq<Event>, b: seq<Event>)
    ensures Payloads(a + b) == Payloads(a) + Payloads(b)
  {
    if a == [] {
      assert a + b == b;
    } else {
      var head, tail := if a[0].Data? then [a[0].bytes] else [], Payloads(a[1..]);
      assert Payloads(a + b) == head + (tail + Payloads(b)) by {
        PayloadsAppend(a[1..], b);
        assert (a + b)[0] == a[0] && (a + b)[1..] == a[1..] + b;
      }
      assert Payloads(a) == head + tail;
    }
  }

  /** Leaving a stretch out of the middle, or the end, of a line. */
  lemma CutOut(a: seq<Bytes>, cut: seq<Bytes>, c: seq<Bytes>)
    ensures IsSubseq(a + c, a + (cut + c))
  {
    SubseqCut(a, cut, c);
    Assoc(a, cut, c);
  }

  lemma DistributeLine(s: Sub, room: nat, broken: bool, p: Priority)
    ensures IsSubseq(Line(Distribute(s, room, broken), p), Line(s, p))
    ensures !broken || s.buffer.Size() <= room ==> Line(Distribute(s, room, broken), p) == Line(s, p)
  {
    var (moved, rest, r) := TrySend(s.buffer, room, broken);
    var s', gone := Distribute(s, room, broken), moved.At(p);
    assert s'.channel.At(p) == s.channel.At(p) + gone && s'.buffer.At(p) == rest.At(p);
    assert s'.sent == s.sent && s'.write == s.write;
    var left := if r == SendOk then [] else s.buffer.Left(room).At(p);
    assert s.buffer.At(p) == gone + left by {
      if r == SendOk {
        assert gone + [] == gone;
      } else {
        ServesInOrder(s.buffer, room);
      }
    }
    hide Payloads, IsSubseq, TrySend, Distribute;
    MoveEvents(s.channel.At(p), gone, left);
    SubseqSelf(Line(s, p));
    if rest.At(p) != left {
      NoPayloads();
      DropTail(OfPriority(s.sent, p), s.write.At(p), Payloads(s.channel.At(p) + gone), Payloads(left));
    }
  }

  /** The session moves as many events as the channel takes. */
  lemma DistributeMoves(s: Sub, room: nat, broken: bool)
    ensures var s' := Distribute(s, room, broken);
      && s'.channel.Size() == s.channel.Size() + Min(room, s.buffer.Size())
      && (broken && s.buffer.Size() > room ==> s'.buffer == NoLanes())
      && (!broken ==> s'.buffer.Size() == s.buffer.Size() - Min(room, s.buffer.Size()))
  {
  }

  lemma MoveEvents(channel: seq<Event>, gone: seq<Event>, left: seq<Event>)
    ensures Payloads(channel + gone) + Payloads(left) == Payloads(channel) + Payloads(gone + left)
  {
    PayloadsAppend(channel, gone);
    PayloadsAppend(gone, left);
    hide Payloads;
    Assoc(Payloads(channel), Payloads(gone), Payloads(left));
  }

  lemma DropTail(sent: seq<Bytes>, write: seq<Bytes>, channel: seq<Bytes>, buffer: seq<Bytes>)
    ensures IsSubseq(sent + (write + (channel + [])), sent + (write + (channel + buffer)))
  {
    var kept := sent + (write + channel);
    CutOut(kept, buffer, []);
    hide IsSubseq;
    assert kept + [] == kept && buffer + [] == buffer && channel + [] == channel;
    assert sent + (write + (channel + buffer)) == kept + buffer;
  }

  lemma NoPayloads()
    ensures Payloads([]) == []
  {
  }

  lemma PushLine(s: Sub, p: Priority, e: Event, q: Priority)
    ensures Line(s.(buffer := s.buffer.Push(p, e)), q) == Line(s, q) + (if q == p && e.Data? then [e.bytes] else [])
  {
    if q == p {
      PayloadsAppend(s.buffer.At(p), [e]);
      assert Payloads([e]) == (if e.Data? then [e.bytes] else []) + Payloads([]);
    }
  }

  /** An event offered goes to the end of its line; nothing overtakes. */
  lemma OfferLine(s: Sub, p: Priority, e: Event, room: nat, broken: bool, q: Priority)
    ensures var line := Line(s, q) + (if q == p && e.Data? then [e.bytes] else []);
      && IsSubseq(Line(Offer(s, p, e, room, broken), q), line)
      && (!broken ==> Line(Offer(s, p, e, room, broken), q) == line)
  {
    PushLine(s, p, e, q);
    hide Line, Distribute, IsSubseq;
    DistributeLine(s.(buffer := s.buffer.Push(p, e)), room, broken, q);
  }

  lemma {:induction false} TotalBytesAppend(a: seq<Bytes>, b: seq<Bytes>)
    ensures TotalBytes(a + b) == TotalBytes(a) + TotalBytes(b)
  {
    FlattenAppend(a, b);
  }

  lemma {:induction false} OfPriorityAppend(a: seq<Passed>, b: seq<Passed>, p: Priority)
    ensures OfPriority(a + b, p) == OfPriority(a, p) + OfPriority(b, p)
  {
    if a == [] {
      assert a + b == b;
    } else {
      var head, tail := if a[0].p == p then [a[0].frame] else [], OfPriority(a[1..], p);
      assert OfPriority(a + b, p) == head + (tail + OfPriority(b, p)) by {
        OfPriorityAppend(a[1..], b, p);
        assert (a + b)[0] == a[0] && (a + b)[1..] == a[1..] + b;
      }
      assert OfPriority(a, p) == head + tail;
    }
  }

  lemma {:induction false} OfPassing(q: Priority, lane: seq<Bytes>, n: nat, others: nat, p: Priority)
    requires n <= |lane|
    ensures OfPriority(Passing(q, lane, n, others), p) == if p == q then lane[..n] else []
    decreases n
  {
    if n > 0 {
      var init, last := Passing(q, lane, n - 1, others), Passing(q, lane, n, others)[n - 1];
      assert Passing(q, lane, n, others) == init + [last];
      OfPassing(q, lane, n - 1, others, p);
      OfPriorityAppend(init, [last], p);
      assert OfPriority([last], p) == (if p == q then [lane[n - 1]] else []) + OfPriority([], p);
      assert lane[..n] == lane[..n - 1] + [lane[n - 1]];
    }
  }

  /** A drain passes on, of each priority, the front part of its queue. */
  lemma ServedOf(w: Lanes<Bytes>, n: nat, p: Priority)
    requires n <= w.Size()
    ensures OfPriority(Served(w, n), p) == w.Taken(n).At(p)
  {
    hide OfPriority, Passing;
    var k := Min(n, |w.high|);
    OfPriorityAppend(Passing(High, w.high, k, |w.high|), Passing(Normal, w.normal, n - k, |w.high| - k), p);
    OfPassing(High, w.high, k, |w.high|, p);
    OfPassing(Normal, w.normal, n - k, |w.high| - k, p);
    TakenParts(w, n, p);
    assert [] + w.normal[..n - k] == w.normal[..n - k] && w.high[..k] + [] == w.high[..k];
  }

  lemma TakenParts<T>(w: Lanes<T>, n: nat, p: Priority)
    requires n <= w.Size()
    ensures var k := Min(n, |w.high|); w.Taken(n).At(p) == if p == High then w.high[..k] else w.normal[..n - k]
  {
    assert w.high[..|w.high|] == w.high && w.normal[..0] == [];
  }

  lemma FlushSent(s: Sub, room: nat, ending: Ending, p: Priority)
    ensures OfPriority(Flush(s, room, ending).0.sent, p)
      == OfPriority(s.sent, p) + s.write.Taken(SendData(s.write, room, ending).0).At(p)
  {
    var n := SendData(s.write, room, ending).0;
    OfPriorityAppend(s.sent, Served(s.write, n), p);
    ServedOf(s.write, n, p);
  }

  lemma FlushCounts(s: Sub, room: nat, ending: Ending)
    ensures var (s', size) := Flush(s, room, ending); SubSent(s') == SubSent(s) + size
  {
    var sent := s.write.Taken(SendData(s.write, room, ending).0);
    FlushSent(s, room, ending, High);
    FlushSent(s, room, ending, Normal);
    hide OfPriority, Served, TotalBytes;
    TotalBytesAppend(OfPriority(s.sent, High), sent.high);
    TotalBytesAppend(OfPriority(s.sent, Normal), sent.normal);
  }

  /** The frame at hand when the sink fails, and is lost; if its priority is the given one. */
  function AtHand(w: Lanes<Bytes>, room: nat, ending: Ending, p: Priority): (lost: seq<Bytes>) {
    if room < w.Size() && ending == Loses && p == w.Left(room).First() then w.Left(room).At(p)[..1] else []
  }

  /**
   * A flush moves as many frames as the sink takes from the front of the write buffers to the network,
   * and counts their bytes.
   * Nothing is lost but the frame at hand when the sink fails; a stream that fails, or cannot flush,
   * is dead.
   */
  lemma FlushLine(s: Sub, room: nat, ending: Ending, p: Priority)
    ensures var (s', size) := Flush(s, room, ending);
      var lost := AtHand(s.write, room, ending, p);
      var (passed, queued) := (OfPriority(s'.sent, p), Line(s', p)[|OfPriority(s'.sent, p)|..]);
      && Line(s', p) == passed + queued && Line(s, p) == passed + (lost + queued)
      && (ending != Loses || s.write.Size() <= room ==> Line(s', p) == Line(s, p))
      && IsSubseq(Line(s', p), Line(s, p)) && SubSent(s') == SubSent(s) + size
      && |s'.sent| == |s.sent| + Min(room, s.write.Size())
      && (s'.dead <==> s.dead || ending == FlushFails || (ending == Loses && room < s.write.Size()))
  {
    var (n, rest, ok) := SendData(s.write, room, ending);
    var s', sent := Flush(s, room, ending).0, s.write.Taken(n);
    FlushCounts(s, room, ending);
    FlushSent(s, room, ending, p);
    var tail := Payloads(s.channel.At(p)) + Payloads(s.buffer.At(p));
    var lost := AtHand(s.write, room, ending, p);
    WriteSplits(s.write, room, ending, p);
    hide Payloads, IsSubseq, LaneBytes, OfPriority, SubSent, Served, AtHand;
    assert s.write.At(p) == sent.At(p) + (lost + rest.At(p));
    MoveAlong(OfPriority(s.sent, p), sent.At(p), lost, rest.At(p), tail);
    assert Line(s', p) == (OfPriority(s.sent, p) + sent.At(p)) + (rest.At(p) + tail);
    assert Line(s', p)[|OfPriority(s'.sent, p)|..] == rest.At(p) + tail;
    assert [] + (rest.At(p) + tail) == rest.At(p) + tail;
    assert ending != Loses || s.write.Size() <= room ==> lost == [] by { NothingAtHand(s.write, room, ending, p); }
  }

  lemma NothingAtHand(w: Lanes<Bytes>, room: nat, ending: Ending, p: Priority)
    ensures ending != Loses || w.Size() <= room ==> AtHand(w, room, ending, p) == []
    ensures ending == Loses && room < w.Size() ==>
      |AtHand(w, room, ending, High)| + |AtHand(w, room, ending, Normal)| == 1
  {
  }

  /** The write buffer of one priority: what goes, what is lost, what is left. */
  lemma WriteSplits(w: Lanes<Bytes>, room: nat, ending: Ending, p: Priority)
    ensures var (n, rest, ok) := SendData(w, room, ending);
      w.At(p) == w.Taken(n).At(p) + (AtHand(w, room, ending, p) + rest.At(p))
  {
    var n := Min(room, w.Size());
    TakenOrLeft(w, n, p);
    if room < w.Size() && ending == Loses {
      LeftStep(w, room, p);
    }
  }

  lemma TakenOrLeft<T>(w: Lanes<T>, n: nat, p: Priority)
    requires n <= w.Size()
    ensures w.At(p) == w.Taken(n).At(p) + w.Left(n).At(p)
    ensures [] + w.Left(n).At(p) == w.Left(n).At(p)
    ensures n == w.Size() ==> w.Left(n) == NoLanes()
  {
    ServesInOrder(w, n);
  }

  /** One entry more is taken from what is left. */
  lemma LeftStep<T>(w: Lanes<T>, n: nat, p: Priority)
    requires n < w.Size()
    ensures var next := w.Left(n);
      next.At(p) == (if p == next.First() then next.At(p)[..1] else []) + w.Left(n + 1).At(p)
  {
    if n < |w.high| {
      assert w.high[n..][..1] + w.high[n + 1..] == w.high[n..];
    } else {
      var k := n - |w.high|;
      assert w.normal[k..][..1] + w.normal[k + 1..] == w.normal[k..];
    }
  }

  lemma MoveAlong(sent: seq<Bytes>, moved: seq<Bytes>, lost: seq<Bytes>, rest: seq<Bytes>, tail: seq<Bytes>)
    ensures IsSubseq((sent + moved) + (rest + tail), sent + ((moved + (lost + rest)) + tail))
    ensures sent + ((moved + (lost + rest)) + tail) == (sent + moved) + (lost + (rest + tail))
  {
    CutOut(sent + moved, lost, rest + tail);
    hide IsSubseq;
    assert sent + ((moved + (lost + rest)) + tail) == (sent + moved) + (lost + (rest + tail));
  }

  /**
   * Taking an event: a message goes to the end of its write buffer, and is flushed with the rest; a
   * request to close clears the normal write buffer, passes on nothing, and the stream is dead.
   */
  lemma TakeLine(s: Sub, room: nat, ending: Ending, p: Priority)
    ensures var (s', size) := Take(s, room, ending);
      && IsSubseq(Line(s', p), Line(s, p)) && SubSent(s') == SubSent(s) + size
      && (s.channel.Size() > 0 ==>
            match s.channel.At(s.channel.First())[0]
            case Data(_) => ending != Loses ==> Line(s', p) == Line(s, p)
            case CloseStream => s'.dead && s'.sent == s.sent && s'.write == Lanes(s.write.high, []))
  {
    if s.channel.Size() == 0 {
      SubseqSelf(Line(s, p));
    } else {
      var q := if s.channel.high != [] then High else Normal;
      var e, s1 := s.channel.At(q)[0], s.(channel := s.channel.Left(1));
      TakenHead(s, q, p);
      match e
      case Data(bytes) =>
        var s2 := s1.(write := s.write.Push(q, bytes));
        FlushLine(s2, room, ending, p);
        HeadMoves(s, q, bytes, p);
      case CloseStream =>
        CloseCuts(s, q, p);
    }
  }

  /** Taking the next event shortens its own queue by one, and leaves the other alone. */
  lemma TakenHead(s: Sub, q: Priority, p: Priority)
    requires s.channel.Size() > 0 && q == if s.channel.high != [] then High else Normal
    ensures s.channel.At(q) != []
    ensures s.channel.Left(1).At(p) == if p == q then s.channel.At(p)[1..] else s.channel.At(p)
  {
  }

  lemma HeadMoves(s: Sub, q: Priority, bytes: Bytes, p: Priority)
    requires s.channel.Size() > 0 && q == if s.channel.high != [] then High else Normal
    requires s.channel.At(q) != [] && s.channel.At(q)[0] == Data(bytes)
    requires s.channel.Left(1).At(p) == if p == q then s.channel.At(p)[1..] else s.channel.At(p)
    ensures Line(s.(channel := s.channel.Left(1), write := s.write.Push(q, bytes)), p) == Line(s, p)
  {
    if p == q {
      var w, rest, tail := s.write.At(p), Payloads(s.channel.At(p)[1..]), Payloads(s.buffer.At(p));
      assert Payloads(s.channel.At(p)) == [bytes] + rest;
      hide Payloads;
      assert (w + [bytes]) + (rest + tail) == w + (([bytes] + rest) + tail);
    }
  }

  lemma CloseCuts(s: Sub, q: Priority, p: Priority)
    requires s.channel.Size() > 0 && q == if s.channel.high != [] then High else Normal
    requires s.channel.At(q) != [] && s.channel.At(q)[0] == CloseStream
    requires s.channel.Left(1).At(p) == if p == q then s.channel.At(p)[1..] else s.channel.At(p)
    ensures var s' := s.(channel := s.channel.Left(1), write := s.write.(normal := []), dead := true);
      IsSubseq(Line(s', p), Line(s, p))
  {
    var rest := Payloads(s.channel.Left(1).At(p));
    assert Payloads(s.channel.At(p)) == rest by {
      if p == q {
        assert Payloads(s.channel.At(p)) == [] + rest;
      }
    }
    hide Payloads, IsSubseq;
    var tail := rest + Payloads(s.buffer.At(p));
    if p == Normal {
      CutOut(OfPriority(s.sent, p), s.write.At(p), tail);
      assert [] + tail == tail;
    } else {
      SubseqSelf(Line(s, p));
    }
  }

  lemma ClearLine(s: Sub, p: Priority)
    ensures IsSubseq(Line(ClearBuffer(s), p), Line(s, p)) && IsSubseq(Line(End(s), p), Line(s, p))
  {
    NoPayloads();
    hide Payloads, IsSubseq;
    var sent, write := OfPriority(s.sent, p), s.write.At(p);
    var channel, buffer := Payloads(s.channel.At(p)), Payloads(s.buffer.At(p));
    var kept := sent + (write + channel);
    CutOut(kept, buffer, []);
    assert kept + [] == kept && buffer + [] == buffer && channel + [] == channel;
    assert Line(s, p) == kept + buffer;
    CutOut(sent, write + (channel + buffer), []);
    assert sent + [] == sent && (write + (channel + buffer)) + [] == write + (channel + buffer);
    var nothing: seq<Bytes> := [];
    assert nothing + (nothing + nothing) == nothing;
    assert Line(End(s), p) == sent + nothing;
  }

  // -------------------------------------------------------------- counting by lines

  lemma {:induction false} SubseqBytes(a: seq<Bytes>, b: seq<Bytes>)
    requires IsSubseq(a, b)
    ensures TotalBytes(a) <= TotalBytes(b)
    decreases |b|
  {
    if a != [] {
      if a[0] == b[0] {
        SubseqBytes(a[1..], b[1..]);
      } else {
        SubseqBytes(a, b[1..]);
      }
    }
  }

  lemma LineBytes(s: Sub)
    ensures SubSent(s) + SubQueued(s) == TotalBytes(Line(s, High)) + TotalBytes(Line(s, Normal))
  {
    LineTotal(s, High);
    LineTotal(s, Normal);
  }

  lemma LineTotal(s: Sub, p: Priority)
    ensures TotalBytes(Line(s, p)) == TotalBytes(OfPriority(s.sent, p)) + TotalBytes(s.write.At(p))
      + TotalBytes(Payloads(s.channel.At(p))) + TotalBytes(Payloads(s.buffer.At(p)))
  {
    hide TotalBytes, Payloads;
    var sent, write := OfPriority(s.sent, p), s.write.At(p);
    var channel, buffer := Payloads(s.channel.At(p)), Payloads(s.buffer.At(p));
    TotalBytesAppend(sent, write + (channel + buffer));
    TotalBytesAppend(write, channel + buffer);
    TotalBytesAppend(channel, buffer);
  }

  /** A line that only lost entries, and gained some bytes at its end. */
  ghost predicate Kept(s: Sub, s': Sub, q: Priority, more: seq<Bytes>) {
    s'.proto == s.proto &&
    forall p :: IsSubseq(Line(s', p), Line(s, p) + (if p == q then more else []))
  }

  lemma KeptBytes(s: Sub, s': Sub, q: Priority, more: seq<Bytes>)
    requires Kept(s, s', q, more)
    ensures SubSent(s') + SubQueued(s') <= SubSent(s) + SubQueued(s) + TotalBytes(more)
  {
    LineBytes(s);
    LineBytes(s');
    hide Line, TotalBytes;
    forall p
      ensures TotalBytes(Line(s', p)) <= TotalBytes(Line(s, p)) + (if p == q then TotalBytes(more) else 0)
    {
      var m := if p == q then more else [];
      SubseqBytes(Line(s', p), Line(s, p) + m);
      TotalBytesAppend(Line(s, p), m);
      assert Line(s, p) + [] == Line(s, p);
    }
  }
}
