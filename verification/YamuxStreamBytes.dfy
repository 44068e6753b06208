/**
 * What reads, peeks and writes mean for the bytes of a stream: a handle is a byte queue on the
 * reading side, and the sequence of accepted bytes on the writing side.
 */
module YamuxStreamBytes {
  import opened ByteStrings
  import opened YamuxFrame
  import opened YamuxStream
  import opened YamuxStreamLaws

  /** All bytes a handle has given to its session. */
  function Emitted(h: Handle): (b: Bytes) { PayloadOf(SentFrames(h)) }

  /** A write sends exactly the bytes it reports, no more than the window allows; otherwise nothing. */
  lemma WriteAccepts(h: Handle, buf: Bytes, link: Link)
    ensures var (h', r) := PollWrite(h, buf, link);
      && Emitted(h') == Emitted(h) + (if r.Wrote? then buf[..Min(r.n, |buf|)] else [])
      && h'.accepted == h.accepted + (if r.Wrote? then buf[..Min(r.n, |buf|)] else [])
      && (r.Wrote? ==> r.n <= |buf| && h'.sendWindow + r.n == RecvFrames(h, link).0.sendWindow
                       && (r.n < |buf| ==> h'.sendWindow == 0))
  {
    var h1 := AfterReceipt(h, link);
    AfterReceiptAccepts(h, link);
    hide RecvFrames, FramesOf, PayloadOf, SendData;
    if h1.state != Reset && h1.state != LocalClosing && h1.state != Closed && h1.sendWindow != 0 {
      SendDataAccepts(h1, buf[..Min(h1.sendWindow, |buf|)], link);
    }
  }

  /** Nothing else is reported to a writer. */
  lemma OnlyWritesAccept(h: Handle, op: HandleOp, link: Link)
    requires !op.Write?
    ensures Apply(h, op, link).accepted == h.accepted
  {
    ReadsAcceptNothing(h, link);
    CloseAcceptsNothing(h, link);
    hide PrepareRead, Close, ReadChunks;
  }

  lemma ReadsAcceptNothing(h: Handle, link: Link)
    ensures PrepareRead(h, link).0.accepted == h.accepted
  {
    hide RecvFrames;
  }

  lemma CloseAcceptsNothing(h: Handle, link: Link)
    ensures Close(h, link).0.accepted == h.accepted
  {
  }

  lemma AfterReceiptAccepts(h: Handle, link: Link)
    ensures var h1 := AfterReceipt(h, link);
      && Emitted(h1) == Emitted(h) && h1.accepted == h.accepted
      && h1.sendWindow == RecvFrames(h, link).0.sendWindow
  {
    EmitOtherFacts(RecvFramesWake(h, link).0.(state := LocalClosing), GoAwayEvent, link);
    hide RecvFrames, FramesOf, PayloadOf;
  }

  lemma SendDataAccepts(h: Handle, data: Bytes, link: Link)
    requires |data| <= MAX_U32
    ensures var (h', ok) := SendData(h, data, link);
      && Emitted(h') == Emitted(h) + (if ok then data else [])
      && h'.accepted == h.accepted && h'.sendWindow == h.sendWindow
  {
    var (h1, flags) := TakeFlags(h);
    EmitFrameFacts(h1, NewData(flags, h.id, data), link);
  }

  /**
   * A read hands out the longest prefix of what has been received and not read that fits, removes
   * exactly that, and hands out nothing only if the caller has no room.
   */
  lemma ReadDequeues(h: Handle, cap: nat, opener: bool, open: bool, link: Link)
    requires Laws(h, opener, open)
    ensures var (h', r) := PollRead(h, cap, link);
      var queue := Unread(PrepareRead(h, link).0);
      && (r.ReadBytes? || r.ReadBrokenPipe? ==>
            && r.bytes == queue[..Min(cap, |queue|)]
            && Unread(h') == queue[Min(cap, |queue|)..]
            && h'.consumed == h.consumed + r.bytes
            && queue != [])
      && (!r.ReadBytes? && !r.ReadBrokenPipe? ==> h'.consumed == h.consumed && Unread(h') == queue)
  {
    PrepareReadLaws(h, opener, open, link);
    var (h1, early) := PrepareRead(h, link);
    hide PrepareRead, Laws, Received;
    assert h1.consumed == h.consumed by { PrepareReadConsumes(h, link); }
    if early.None? {
      assert Queued(h1) && h1.readBuf != [] by { PrepareReadNonEmpty(h, opener, open, link); }
      ReadChunksIsDequeue(h1.readBuf, cap);
      var (out, rest) := ReadChunks(h1.readBuf, cap);
      hide SendWindowUpdate, ReadChunks;
    }
  }

  lemma PrepareReadConsumes(h: Handle, link: Link)
    ensures PrepareRead(h, link).0.consumed == h.consumed
  {
    hide RecvFrames;
  }

  lemma PrepareReadNonEmpty(h: Handle, opener: bool, open: bool, link: Link)
    requires Laws(h, opener, open) && PrepareRead(h, link).1.None?
    ensures Queued(PrepareRead(h, link).0) && PrepareRead(h, link).0.readBuf != []
    ensures Unread(PrepareRead(h, link).0) != []
  {
    PrepareReadLaws(h, opener, open, link);
    hide RecvFrames, Bounded, Accounted, WriterSafe, Opened, Routed, Headroom, PayloadOf;
  }

  /** Taking frames again straight away changes nothing. */
  lemma {:induction false} RecvFramesSettles(h: Handle, link: Link)
    requires !IsProtocolError(RecvFrames(h, link).1)
    ensures var h' := RecvFrames(h, link).0;
      RecvFrames(h', link).0 == h' && !IsProtocolError(RecvFrames(h', link).1)
    decreases |h.inbox|
  {
    if Receiving(h.state) && h.inbox != [] {
      var (h1, e) := HandleFrame(h.(inbox := h.inbox[1..]), h.inbox[0]);
      if e.None? {
        RecvFramesSettles(h1, link);
      }
    }
  }

  /** A peek changes nothing a reader can see, and shows exactly what the next read of that size returns. */
  lemma PeekShowsNextRead(h: Handle, cap: nat, link: Link)
    requires PollPeek(h, cap, link).1.ReadBytes?
    ensures var (h', r) := PollPeek(h, cap, link);
      && h'.consumed == h.consumed
      && PollRead(h', cap, link).1 in {r, ReadBrokenPipe(r.bytes)}
      && PollPeek(h', cap, link) == (h', r)
  {
    var h1 := RecvFrames(h.(readWaker := true), link).0;
    RecvFramesSettles(h.(readWaker := true), link);
    KeepsReader(h.(readWaker := true), link);
    hide RecvFrames;
    assert h1.(readWaker := true) == h1;
  }

  lemma {:induction false} KeepsReader(h: Handle, link: Link)
    ensures RecvFrames(h, link).0.readWaker == h.readWaker
    decreases |h.inbox|
  {
    if Receiving(h.state) && h.inbox != [] {
      var (h1, e) := HandleFrame(h.(inbox := h.inbox[1..]), h.inbox[0]);
      if e.None? {
        KeepsReader(h1, link);
      }
    }
  }

  /** A waiting writer is woken by the very frame that gives it window again. */
  lemma CreditWakes(h: Handle, f: Frame, opener: bool, open: bool)
    requires Laws(h, opener, open) && h.parked && f.Ty() == WindowUpdate
    requires HandleFrame(h, f).1.None?
    ensures h.sendWindow == 0 && h.writeWaker
    ensures !HandleFrame(h, f).0.parked && HandleFrame(h, f).0.sendWindow == f.Length()
  {
  }
}
