/**
 * The stream handle as the object it is: every operation updates its fields in place. View is the
 * value of the handle, and each method is proved to move it exactly as the function of the same
 * name in YamuxStream does. Whether the session still holds its two channel ends is the link
 * argument of each call.
 */
module YamuxStreamHandle {
  import opened ByteStrings
  import opened YamuxFrame
  import opened YamuxStream

  class StreamHandle {
    const id: StreamId
    const maxRecvWindow: u32
    var state: StreamState
    var recvWindow: u32
    var sendWindow: u32
    var readBuf: seq<Bytes>
    var frameReceiver: seq<Frame>
    var writeableWake: bool
    var readableWake: bool
    var dropped: bool
    var eventSender: seq<StreamEvent>
    ghost var handled: seq<Frame>
    ghost var consumed: Bytes
    ghost var accepted: Bytes
    ghost var parked: bool

    ghost function View(): (h: Handle)
      reads this
    {
      Handle(id, state, maxRecvWindow, recvWindow, sendWindow, readBuf, frameReceiver, writeableWake, readableWake,
             dropped, eventSender, handled, consumed, accepted, parked)
    }

    constructor (id: StreamId, state: StreamState, maxWindowSize: u32)
      requires state == Init || state == SynReceived
      ensures View() == NewHandle(id, state, maxWindowSize)
    {
      this.id, this.state, maxRecvWindow := id, state, maxWindowSize;
      recvWindow, sendWindow := INITIAL_STREAM_WINDOW, INITIAL_STREAM_WINDOW;
      readBuf, frameReceiver, eventSender := [], [], [];
      writeableWake, readableWake, dropped := false, false, false;
      handled, consumed, accepted, parked := [], [], [], false;
    }

    // -------------------------------------------------------------- sending

    method SendEvent(e: StreamEvent, link: Link) returns (ok: bool)
      modifies this
      ensures (View(), ok) == Emit(old(View()), e, link)
    {
      ok := link.sessionOpen;
      if ok {
        eventSender := eventSender + [e];
      }
    }

    method GetFlags() returns (flags: Flags)
      modifies this
      ensures (View(), flags) == TakeFlags(old(View()))
    {
      match state {
        case Init =>
          state := SynSent;
          flags := SynFlag;
        case SynReceived =>
          state := Established;
          flags := AckFlag;
        case _ =>
          flags := NoFlags;
      }
    }

    /** The number of unread bytes, summed over the chunks. */
    method BufLen() returns (n: nat)
      ensures n == |Flatten(readBuf)|
    {
      n := 0;
      assert readBuf[..0] == [];
      for i := 0 to |readBuf|
        invariant n == |Flatten(readBuf[..i])|
      {
        assert readBuf[..i + 1] == readBuf[..i] + [readBuf[i]];
        FlattenSnoc(readBuf[..i], readBuf[i]);
        n := n + |readBuf[i]|;
      }
      assert readBuf[..|readBuf|] == readBuf;
    }

    method SendWindowUpdate(link: Link) returns (ok: bool)
      modifies this
      ensures (View(), ok) == YamuxStream.SendWindowUpdate(old(View()), link)
    {
      var bufLen := BufLen();
      var delta := Wrap32(maxRecvWindow - Wrap32(bufLen) - recvWindow);
      var flags := GetFlags();
      if delta < maxRecvWindow / 2 && flags == NoFlags {
        return true;
      }
      recvWindow := Wrap32(recvWindow + delta);
      ok := SendEvent(FrameEvent(NewWindowUpdate(flags, id, delta)), link);
    }

    method SendData(data: Bytes, link: Link) returns (ok: bool)
      requires |data| <= MAX_U32
      modifies this
      ensures (View(), ok) == YamuxStream.SendData(old(View()), data, link)
    {
      var flags := GetFlags();
      ok := SendEvent(FrameEvent(NewData(flags, id, data)), link);
    }

    method SendClose(link: Link) returns (ok: bool)
      modifies this
      ensures (View(), ok) == YamuxStream.SendClose(old(View()), link)
    {
      var flags := GetFlags();
      ok := SendEvent(FrameEvent(NewWindowUpdate(flags.(fin := true), id, 0)), link);
    }

    method SendGoAway(link: Link)
      modifies this
      ensures View() == SendGoAwayEvent(old(View()), link)
    {
      state := LocalClosing;
      var _ := SendEvent(GoAwayEvent, link);
    }

    // ------------------------------------------------------------ receiving

    /** The flags of a frame act on the state one after the other; an unexpected FIN leaves it alone. */
    method ProcessFlags(flags: Flags) returns (ok: bool)
      modifies this`state
      ensures var s := StateAfter(old(state), flags);
        ok == s.Some? && View() == old(View()).(state := if ok then s.value else old(state))
    {
      if flags.ack && state == SynSent {
        state := Established;
      }
      if flags.fin {
        match state {
          case Init => state := RemoteClosing;
          case SynSent => state := RemoteClosing;
          case SynReceived => state := RemoteClosing;
          case Established => state := RemoteClosing;
          case LocalClosing => state := Closed;
          case _ => return false;
        }
      }
      if flags.rst {
        state := Reset;
      }
      ok := true;
    }

    method HandleWindowUpdate(f: Frame) returns (e: Option<StreamError>)
      modifies this
      ensures (View(), e) == YamuxStream.HandleWindowUpdate(old(View()), f)
    {
      var ok := ProcessFlags(f.FlagsOf());
      if !ok {
        return Some(UnexpectedFlag);
      }
      if sendWindow + f.Length() > MAX_U32 {
        return Some(InvalidMsgType);
      }
      sendWindow := sendWindow + f.Length();
      if writeableWake {
        writeableWake, parked := false, false;
      }
      e := None;
    }

    method HandleData(f: Frame) returns (e: Option<StreamError>)
      modifies this
      ensures (View(), e) == YamuxStream.HandleData(old(View()), f)
    {
      var ok := ProcessFlags(f.FlagsOf());
      if !ok {
        return Some(UnexpectedFlag);
      }
      var length := f.Length();
      if length > recvWindow {
        return Some(RecvWindowExceeded);
      }
      if f.body.Some? && length > 0 {
        readBuf := readBuf + [f.body.value];
      }
      recvWindow := recvWindow - length;
      e := None;
    }

    method HandleFrame(f: Frame) returns (e: Option<StreamError>)
      modifies this
      ensures (View(), e) == YamuxStream.HandleFrame(old(View()), f)
    {
      match f.Ty() {
        case WindowUpdate => e := HandleWindowUpdate(f);
        case Data => e := HandleData(f);
        case _ => e := Some(InvalidMsgType);
      }
      if e.None? {
        handled := handled + [f];
      }
    }

    /** Both recv_frames and try_recv_frames; they differ only in whether the caller is registered for a wake-up. */
    method RecvFrames(link: Link) returns (o: RecvOutcome)
      modifies this
      ensures (View(), o) == YamuxStream.RecvFrames(old(View()), link)
    {
      var any := false;
      ghost var all := YamuxStream.RecvFrames(View(), link);
      while true
        invariant var rest := YamuxStream.RecvFrames(View(), link);
          && all.0 == rest.0
          && all.1 == if any && rest.1.Drained? then Drained(true) else rest.1
        decreases |frameReceiver|
      {
        if state == RemoteClosing {
          return Failed(SubStreamRemoteClosing);
        }
        if state == Reset || state == Closed {
          return Failed(SessionShutdown);
        }
        if frameReceiver == [] {
          if link.inboxOpen {
            return Drained(any);
          }
          state := RemoteClosing;
          return Failed(SubStreamRemoteClosing);
        }
        var frame := frameReceiver[0];
        frameReceiver := frameReceiver[1..];
        var e := HandleFrame(frame);
        if e.Some? {
          return Failed(e.value);
        }
        any := true;
      }
    }

    method RecvFramesWake(link: Link) returns (o: RecvOutcome)
      modifies this
      ensures (View(), o) == YamuxStream.RecvFramesWake(old(View()), link)
    {
      var bufLen, before := |readBuf|, state;
      o := RecvFrames(link);
      var closed := state == RemoteClosing && before != RemoteClosing;
      match o {
        case Drained(any) =>
          if closed || (any && bufLen != |readBuf|) {
            readableWake := false;
          }
        case Failed(_) =>
          if closed {
            readableWake := false;
          }
      }
    }

    // -------------------------------------------------------------- reading

    method CheckSelfState() returns (r: SelfState)
      ensures r == YamuxStream.CheckSelfState(View())
    {
      r := Usable;
      if readBuf == [] {
        match state {
          case RemoteClosing => r := EndOfStream;
          case Closed => r := EndOfStream;
          case Reset => r := ConnectionReset;
          case _ =>
        }
      }
    }

    /** The common start of a read and of a peek. */
    method Prepare(link: Link) returns (early: Option<ReadResult>)
      modifies this
      ensures (View(), early) == PrepareRead(old(View()), link)
    {
      var self := CheckSelfState();
      if self.EndOfStream? {
        return Some(ReadEof);
      }
      if self.ConnectionReset? {
        return Some(ReadReset);
      }
      readableWake := true;
      var o := RecvFrames(link);
      if IsProtocolError(o) {
        SendGoAway(link);
        return Some(ReadInvalidData);
      }
      self := CheckSelfState();
      if self.EndOfStream? {
        return Some(ReadEof);
      }
      if self.ConnectionReset? {
        return Some(ReadReset);
      }
      early := if readBuf == [] then Some(ReadPending) else None;
    }

    /**
     * Copies bytes out of the chunks, front to back, cutting the last one short if need be, and
     * then drops the chunks that were used up.
     */
    method TakeBytes(cap: nat) returns (out: Bytes)
      modifies this`readBuf
      ensures (out, readBuf) == ReadChunks(old(readBuf), cap)
    {
      ghost var was := readBuf;
      var drained, index := 0, 0;
      out := [];
      assert was[0..] == was;
      StartCopying(was, cap);
      while index < |readBuf|
        invariant drained <= index <= |readBuf| == |was|
        invariant drained == index || (drained + 1 == index && |out| == cap)
        invariant |out| <= cap
        invariant var (more, rest) := ReadChunks(readBuf[index..], cap - |out|);
          ReadChunks(was, cap) == (out + more, readBuf[drained..index] + rest)
      {
        var chunk := readBuf[index];
        var n := Min(cap - |out|, |chunk|);
        if n == 0 {
          break;
        }
        CopyStep(readBuf, drained, index, n, out, cap);
        out := out + chunk[..n];
        readBuf := readBuf[index := chunk[n..]];
        if n == |chunk| {
          drained := index + 1;
        }
        index := index + 1;
      }
      StopCopying(readBuf, drained, index, out, cap);
      readBuf := readBuf[drained..];
    }

    method PollRead(cap: nat, link: Link) returns (r: ReadResult)
      modifies this
      ensures (View(), r) == YamuxStream.PollRead(old(View()), cap, link)
    {
      hide ReadChunks, PrepareRead, YamuxStream.SendWindowUpdate;
      var early := Prepare(link);
      if early.Some? {
        return early.value;
      }
      var out := TakeBytes(cap);
      consumed := consumed + out;
      match state {
        case RemoteClosing =>
        case Closed =>
        case Reset =>
        case _ =>
          var ok := SendWindowUpdate(link);
          if !ok {
            return ReadBrokenPipe(out);
          }
      }
      r := ReadBytes(out);
    }

    /** Copies bytes out of the chunks without touching them. */
    method CopyBytes(cap: nat) returns (out: Bytes)
      ensures out == ReadChunks(readBuf, cap).0
    {
      out := [];
      assert readBuf[0..] == readBuf;
      StartCopying(readBuf, cap);
      var i := 0;
      while i < |readBuf|
        invariant i <= |readBuf| && |out| <= cap
        invariant ReadChunks(readBuf, cap).0 == out + ReadChunks(readBuf[i..], cap - |out|).0
      {
        var n := Min(cap - |out|, |readBuf[i]|);
        if n == 0 {
          break;
        }
        CopyStep(readBuf, i, i, n, out, cap);
        out := out + readBuf[i][..n];
        i := i + 1;
      }
      StopCopying(readBuf, i, i, out, cap);
    }

    method PollPeek(cap: nat, link: Link) returns (r: ReadResult)
      modifies this
      ensures (View(), r) == YamuxStream.PollPeek(old(View()), cap, link)
    {
      var early := Prepare(link);
      if early.Some? {
        return early.value;
      }
      var out := CopyBytes(cap);
      r := ReadBytes(out);
    }

    // -------------------------------------------------------------- writing

    method PollWrite(buf: Bytes, link: Link) returns (r: WriteResult)
      modifies this
      ensures (View(), r) == YamuxStream.PollWrite(old(View()), buf, link)
    {
      hide YamuxStream.RecvFramesWake, YamuxStream.RecvFrames, TakeFlags;
      var o := RecvFramesWake(link);
      if IsProtocolError(o) {
        SendGoAway(link);
      }
      if state == Reset || state == LocalClosing || state == Closed {
        return WriteBrokenPipe;
      }
      if sendWindow == 0 {
        writeableWake, parked := true, true;
        return WritePending;
      }
      var n := Min(sendWindow, |buf|);
      var ok := SendData(buf[..n], link);
      if !ok {
        return WriteBrokenPipe;
      }
      sendWindow := sendWindow - n;
      accepted := accepted + buf[..n];
      r := Wrote(n);
    }

    // -------------------------------------------------------------- closing

    method Close(link: Link) returns (ok: bool)
      modifies this
      ensures (View(), ok) == YamuxStream.Close(old(View()), link)
    {
      hide YamuxStream.SendClose;
      match state {
        case RemoteClosing =>
          state := Closed;
          ok := SendClose(link);
          if ok {
            ok := SendEvent(ClosedEvent(id), link);
          }
        case Reset =>
          state := Closed;
          ok := SendEvent(ClosedEvent(id), link);
        case Closed =>
          ok := SendEvent(ClosedEvent(id), link);
        case LocalClosing =>
          state := Closed;
          ok := SendEvent(ClosedEvent(id), link);
        case _ =>
          state := LocalClosing;
          ok := SendClose(link);
      }
    }

    method Drop(link: Link)
      modifies this
      ensures View() == DropHandle(old(View()), link)
    {
      dropped := true;
      if link.sessionOpen && state != Closed {
        if state != LocalClosing && state != Reset {
          var flags := GetFlags();
          var _ := SendEvent(FrameEvent(NewWindowUpdate(flags.(rst := true), id, 0)), link);
        }
        var _ := SendEvent(ClosedEvent(id), link);
      }
    }
  }

  // ------------------------------------------------------------ the copy loop

  lemma StartCopying(chunks: seq<Bytes>, cap: nat)
    ensures var (more, rest) := ReadChunks(chunks, cap);
      ReadChunks(chunks, cap) == ([] + more, chunks[0..0] + rest)
  {
    var (more, rest) := ReadChunks(chunks, cap);
    assert [] + more == more && chunks[0..0] + rest == rest;
  }

  /** Copying n bytes of the chunk at index is one step of ReadChunks. */
  lemma CopyStep(chunks: seq<Bytes>, drained: nat, index: nat, n: nat, out: Bytes, cap: nat)
    requires drained <= index < |chunks| && |out| <= cap
    requires drained == index || (drained + 1 == index && |out| == cap)
    requires n == Min(cap - |out|, |chunks[index]|) && n > 0
    ensures var chunk := chunks[index];
      var out' := out + chunk[..n];
      var chunks' := chunks[index := chunk[n..]];
      var drained' := if n == |chunk| then index + 1 else drained;
      var (more, rest) := ReadChunks(chunks[index..], cap - |out|);
      var (more', rest') := ReadChunks(chunks'[index + 1..], cap - |out'|);
      && (out + more, chunks[drained..index] + rest) == (out' + more', chunks'[drained'..index + 1] + rest')
      && chunks'[index + 1..] == chunks[index + 1..]
      && |out'| <= cap && (n < |chunk| ==> |out'| == cap)
  {
    var chunk := chunks[index];
    var chunks' := chunks[index := chunk[n..]];
    assert chunks[index..][0] == chunk && chunks[index..][1..] == chunks[index + 1..];
    assert chunks'[index + 1..] == chunks[index + 1..];
    var (more', rest') := ReadChunks(chunks[index + 1..], cap - |out| - n);
    Assoc(out, chunk[..n], more');
    if n == |chunk| {
      assert chunk[..n] == chunk;
      if drained == index {
        assert chunks'[index + 1..index + 1] == [] && chunks[index..index] == [];
      }
    } else {
      assert drained == index && n == cap - |out|;
      assert more' == [] && rest' == chunks[index + 1..];
      assert chunks'[index..index + 1] == [chunk[n..]] && chunks[index..index] == [];
      assert (out + chunk[..n]) + [] == out + chunk[..n];
      assert [] + ([chunk[n..]] + chunks[index + 1..]) == [chunk[n..]] + chunks[index + 1..];
    }
  }

  /** Where nothing more can be copied, what is left is the rest of the chunks. */
  lemma StopCopying(chunks: seq<Bytes>, drained: nat, index: nat, out: Bytes, cap: nat)
    requires drained <= index <= |chunks| && |out| <= cap
    requires index == |chunks| || Min(cap - |out|, |chunks[index]|) == 0
    ensures ReadChunks(chunks[index..], cap - |out|) == ([], chunks[index..])
    ensures out + [] == out && chunks[drained..index] + chunks[index..] == chunks[drained..]
  {
  }
}
