/**
 * The encrypted stream: one message per frame, sealed and opened under a counter nonce, and read
 * out through a buffer that keeps what did not fit. The cipher itself is a parameter.
 */
module SecioChannel {
  import opened ByteStrings
  import opened SecioNonce

  /** Authenticated encryption: seal gives ciphertext and tag, open undoes it or refuses. */
  datatype Aead = Aead(seal: (Bytes, Bytes, Bytes) -> (Bytes, Bytes),
                       open: (Bytes, Bytes, Bytes, Bytes) -> Option<Bytes>,
                       tagSize: nat,
                       ivSize: nat)

  /** What is asked of the primitive: tags have their fixed size, and open undoes seal. */
  ghost predicate Lawful(a: Aead) {
    forall key: Bytes, iv: Bytes, m: Bytes ::
      |a.seal(key, iv, m).1| == a.tagSize && a.open(key, iv, a.seal(key, iv, m).0, a.seal(key, iv, m).1) == Some(m)
  }

  datatype SecioError = FrameTooShort | NotAuthentic

  /** The frame for a message: the ciphertext, then the tag. */
  function Sealed(a: Aead, key: Bytes, iv: Bytes, m: Bytes): (frame: Bytes) {
    var (text, tag) := a.seal(key, iv, m);
    text + tag
  }

  function Unsealed(a: Aead, key: Bytes, iv: Bytes, frame: Bytes): (r: Result<Bytes, SecioError>) {
    if |frame| < a.tagSize then Failure(FrameTooShort)
    else
      var split := |frame| - a.tagSize;
      match a.open(key, iv, frame[..split], frame[split..])
      case None => Failure(NotAuthentic)
      case Some(m) => Success(m)
  }

  lemma UnsealsSealed(a: Aead, key: Bytes, iv: Bytes, m: Bytes)
    requires Lawful(a)
    ensures Unsealed(a, key, iv, Sealed(a, key, iv, m)) == Success(m)
  {
    var (text, tag) := a.seal(key, iv, m);
    assert |a.seal(key, iv, m).1| == a.tagSize;
    var frame := Sealed(a, key, iv, m);
    assert frame[..|text|] == text && frame[|text|..] == tag;
  }

  /** One direction of a cipher. The nonce moves on before every message, accepted or not. */
  class Cipher {
    const aead: Aead
    const key: Bytes
    const iv: array<byte>

    constructor (aead: Aead, key: Bytes)
      ensures this.aead == aead && this.key == key && fresh(iv) && iv[..] == Nonce(aead.ivSize, 0)
    {
      this.aead, this.key := aead, key;
      iv := new byte[aead.ivSize](_ => 0);
      new;
      assert iv[..] == Zeros(aead.ivSize);
    }

    method Encrypt(input: Bytes) returns (output: Bytes)
      modifies iv
      ensures iv[..] == Advance(old(iv[..]))
      ensures output == Sealed(aead, key, iv[..], input)
    {
      NonceAdvance(iv);
      var (text, tag) := aead.seal(key, iv[..], input);
      output := text + tag;
    }

    method Decrypt(input: Bytes) returns (r: Result<Bytes, SecioError>)
      modifies iv
      ensures iv[..] == Advance(old(iv[..]))
      ensures r == Unsealed(aead, key, iv[..], input)
    {
      NonceAdvance(iv);
      if |input| < aead.tagSize {
        return Failure(FrameTooShort);
      }
      var cryptDataLen := |input| - aead.tagSize;
      match aead.open(key, iv[..], input[..cryptDataLen], input[cryptDataLen..]) {
        case None => r := Failure(NotAuthentic);
        case Some(m) => r := Success(m);
      }
    }
  }

  // ------------------------------------------------------------- the stream

  /** What the framed socket answers when asked for the next frame. */
  datatype Incoming = FrameIn(frame: Bytes) | SocketFailed | SocketEnded | NotReady

  datatype ReadOutcome = Filled(bytes: Bytes) | Refused(error: SecioError) | SocketError | BrokenPipe | Pending

  /** The reading half: the nonce of the last frame opened, and the plaintext that did not fit. */
  datatype Reader = Reader(iv: Bytes, recvBuf: Bytes)

  /** poll_read, given room for cap bytes. */
  function Polled(a: Aead, key: Bytes, r: Reader, cap: nat, next: Incoming): (res: (Reader, ReadOutcome)) {
    var copied := Min(cap, |r.recvBuf|);
    if copied > 0 then (r.(recvBuf := r.recvBuf[copied..]), Filled(r.recvBuf[..copied]))
    else
      match next
      case FrameIn(frame) =>
        var iv := Advance(r.iv);
        (match Unsealed(a, key, iv, frame)
         case Failure(e) => (r.(iv := iv), Refused(e))
         case Success(m) =>
           if |m| <= cap then (r.(iv := iv), Filled(m))
           else (Reader(iv, m[cap..]), Filled(m[..cap])))
      case SocketFailed => (r, SocketError)
      case SocketEnded => (r, BrokenPipe)
      case NotReady => (r, Pending)
  }

  /** Whether poll_read gets as far as asking the socket. */
  predicate AsksSocket(r: Reader, cap: nat) {
    cap == 0 || r.recvBuf == []
  }

  /**
   * The outcome of a read. Left-over plaintext is handed out without asking the socket; if the socket
   * is asked, its failure, its end and its having nothing are told as such, a frame is refused exactly
   * if it does not open, and the nonce moves on with every frame and with nothing else.
   */
  lemma ReadOutcomes(a: Aead, key: Bytes, r: Reader, cap: nat, next: Incoming)
    ensures var (r', o) := Polled(a, key, r, cap, next);
      var asks := AsksSocket(r, cap);
      && (o == SocketError <==> asks && next == SocketFailed)
      && (o == BrokenPipe <==> asks && next == SocketEnded)
      && (o == Pending <==> asks && next == NotReady)
      && (o.Refused? <==> asks && next.FrameIn? && Unsealed(a, key, Advance(r.iv), next.frame).Failure?)
      && (o == Refused(FrameTooShort) <==> asks && next.FrameIn? && |next.frame| < a.tagSize)
      && (o.Filled? ==> |o.bytes| <= cap)
      && (!o.Filled? ==> r'.recvBuf == r.recvBuf)
      && r'.iv == (if asks && next.FrameIn? then Advance(r.iv) else r.iv)
  {
  }

  /** What the socket does with a frame: it has room, then takes it or not and flushes or not, or it has none. */
  datatype Room = Open(takes: bool, flushes: bool) | Full | Broken

  datatype WriteOutcome = Wrote(n: nat) | WritePending | WriteFailed

  class SecureStream {
    const decodeCipher: Cipher
    const encodeCipher: Cipher
    var recvBuf: Bytes

    constructor (decodeCipher: Cipher, encodeCipher: Cipher)
      ensures this.decodeCipher == decodeCipher && this.encodeCipher == encodeCipher && recvBuf == []
    {
      this.decodeCipher, this.encodeCipher, recvBuf := decodeCipher, encodeCipher, [];
    }

    ghost function View(): (r: Reader)
      reads this, decodeCipher.iv
    {
      Reader(decodeCipher.iv[..], recvBuf)
    }

    /** Moves what fits out of the internal buffer. */
    method Drain(cap: nat) returns (out: Bytes)
      modifies this
      ensures |out| == Min(cap, |old(recvBuf)|) && old(recvBuf) == out + recvBuf
    {
      if recvBuf == [] {
        return [];
      }
      var n := Min(cap, |recvBuf|);
      out := recvBuf[..n];
      recvBuf := recvBuf[n..];
    }

    method PollRead(cap: nat, next: Incoming) returns (r: ReadOutcome)
      modifies this, decodeCipher.iv
      ensures (View(), r) ==
        Polled(decodeCipher.aead, decodeCipher.key, old(View()), cap, next)
    {
      ghost var before := recvBuf;
      var out := Drain(cap);
      assert out == before[..|out|] && recvBuf == before[|out|..];
      if out != [] {
        return Filled(out);
      }
      match next {
        case FrameIn(frame) =>
          var decoded := decodeCipher.Decrypt(frame);
          if decoded.Failure? {
            return Refused(decoded.error);
          }
          var m := decoded.value;
          if |m| <= cap {
            return Filled(m);
          }
          recvBuf := m;
          out := Drain(cap);
          assert out == m[..cap] && recvBuf == m[cap..];
          return Filled(out);
        case SocketFailed => return SocketError;
        case SocketEnded => return BrokenPipe;
        case NotReady => return Pending;
      }
    }

    /**
     * One frame per write, of the whole buffer, if the socket has room. The nonce moves on with
     * every frame that is sealed, also with one the socket then refuses; a frame it took stays taken
     * when the flush after it fails.
     */
    method PollWrite(buf: Bytes, room: Room) returns (r: WriteOutcome, frame: Option<Bytes>)
      modifies encodeCipher.iv
      ensures encodeCipher.iv[..] == if room.Open? then Advance(old(encodeCipher.iv[..])) else old(encodeCipher.iv[..])
      ensures frame == if room.Open? && room.takes
        then Some(Sealed(encodeCipher.aead, encodeCipher.key, encodeCipher.iv[..], buf)) else None
      ensures r.WritePending? <==> room.Full?
      ensures r == Wrote(|buf|) <==> room == Open(true, true)
    {
      match room {
        case Open(takes, flushes) =>
          var out := encodeCipher.Encrypt(buf);
          if !takes {
            return WriteFailed, None;
          }
          return if flushes then Wrote(|buf|) else WriteFailed, Some(out);
        case Full => return WritePending, None;
        case Broken => return WriteFailed, None;
      }
    }
  }

  // ---------------------------------------------------------- both ends together

  /**
   * One direction of a connection: the writer's nonce, the frames on the way, and the reader.
   * written and read record the messages given to poll_write and the bytes poll_read returned.
   */
  datatype Channel = Channel(iv: Bytes, wire: seq<Bytes>, reader: Reader, written: seq<Bytes>, read: Bytes)

  datatype Act = Write(buf: Bytes) | Read(cap: nat)

  function Fresh(a: Aead): (c: Channel) {
    Channel(Nonce(a.ivSize, 0), [], Reader(Nonce(a.ivSize, 0), []), [], [])
  }

  function Outcome(a: Aead, key: Bytes, c: Channel, cap: nat): (res: (Reader, ReadOutcome)) {
    Polled(a, key, c.reader, cap, if c.wire == [] then NotReady else FrameIn(c.wire[0]))
  }

  function Step(a: Aead, key: Bytes, c: Channel, act: Act): (c': Channel) {
    match act
    case Write(buf) =>
      var iv := Advance(c.iv);
      c.(iv := iv, wire := c.wire + [Sealed(a, key, iv, buf)], written := c.written + [buf])
    case Read(cap) =>
      var (reader, r) := Outcome(a, key, c, cap);
      var wire := if AsksSocket(c.reader, cap) && c.wire != [] then c.wire[1..] else c.wire;
      c.(wire := wire, reader := reader, read := if r.Filled? then c.read + r.bytes else c.read)
  }

  function Run(a: Aead, key: Bytes, c: Channel, acts: seq<Act>): (c': Channel)
    decreases |acts|
  {
    if acts == [] then c else Run(a, key, Step(a, key, c, acts[0]), acts[1..])
  }

  /** How many messages the reader has opened. */
  function Opened(c: Channel): (n: int) { |c.written| - |c.wire| }

  /** The two nonces are in lock-step: each frame on the way is sealed under the nonce it will be opened with. */
  ghost predicate InStep(a: Aead, key: Bytes, c: Channel) {
    && Opened(c) >= 0
    && c.iv == Nonce(a.ivSize, |c.written|)
    && c.reader.iv == Nonce(a.ivSize, Opened(c))
    && forall j :: 0 <= j < |c.wire| ==>
         c.wire[j] == Sealed(a, key, Nonce(a.ivSize, Opened(c) + j + 1), c.written[Opened(c) + j])
  }

  lemma StepInStep(a: Aead, key: Bytes, c: Channel, act: Act)
    requires Lawful(a) && InStep(a, key, c)
    ensures InStep(a, key, Step(a, key, c, act))
    ensures act.Read? ==> !Outcome(a, key, c, act.cap).1.Refused?
  {
    if act.Read? && c.wire != [] {
      UnsealsSealed(a, key, Advance(c.reader.iv), c.written[Opened(c)]);
    }
  }

  /** No read of the run refuses a frame. */
  predicate NeverRefused(a: Aead, key: Bytes, c: Channel, acts: seq<Act>)
    decreases |acts|
  {
    acts == [] ||
    (&& (acts[0].Read? ==> !Outcome(a, key, c, acts[0].cap).1.Refused?)
     && NeverRefused(a, key, Step(a, key, c, acts[0]), acts[1..]))
  }

  /** In every run, no frame is refused, and the two ends stay in lock-step. */
  lemma {:induction false} RunInStep(a: Aead, key: Bytes, c: Channel, acts: seq<Act>)
    requires Lawful(a) && InStep(a, key, c)
    ensures InStep(a, key, Run(a, key, c, acts)) && NeverRefused(a, key, c, acts)
    decreases |acts|
  {
    if acts != [] {
      StepInStep(a, key, c, acts[0]);
      RunInStep(a, key, Step(a, key, c, acts[0]), acts[1..]);
    }
  }

  /** The bytes still to come: those that did not fit, then the messages on the way. */
  function ToCome(c: Channel): (b: Bytes)
    requires Opened(c) >= 0
  {
    c.reader.recvBuf + Flatten(c.written[Opened(c)..])
  }

  /** Nothing is lost: what was read, and what is to come, is what was written. */
  ghost predicate Whole(c: Channel) {
    Opened(c) >= 0 && c.read + ToCome(c) == Flatten(c.written)
  }

  /**
   * The one read that loses bytes: it has no room, there is plaintext left from an earlier frame,
   * and a frame with something in it has arrived, which takes the place of that plaintext.
   */
  predicate Overwrites(c: Channel, act: Act)
    requires Opened(c) >= 0
  {
    act == Read(0) && c.reader.recvBuf != [] && c.wire != [] && c.written[Opened(c)] != []
  }

  /** The number of bytes that are neither read nor to come. */
  function Missing(c: Channel): (n: int)
    requires Opened(c) >= 0
  {
    |Flatten(c.written)| - |c.read| - |ToCome(c)|
  }

  lemma WriteKeeps(a: Aead, key: Bytes, c: Channel, buf: Bytes)
    requires InStep(a, key, c)
    ensures var c' := Step(a, key, c, Write(buf));
      && Flatten(c'.written) == Flatten(c.written) + buf
      && Opened(c') == Opened(c) && ToCome(c') == ToCome(c) + buf
  {
    FlattenSnoc(c.written, buf);
    assert (c.written + [buf])[Opened(c)..] == c.written[Opened(c)..] + [buf];
    FlattenSnoc(c.written[Opened(c)..], buf);
    Assoc(c.reader.recvBuf, Flatten(c.written[Opened(c)..]), buf);
  }

  /** A read moves bytes from the front of what is to come to the end of what was read. */
  lemma ReadMoves(a: Aead, key: Bytes, c: Channel, cap: nat)
    requires Lawful(a) && InStep(a, key, c)
    ensures var c' := Step(a, key, c, Read(cap));
      && Opened(c') >= 0 && c'.written == c.written
      && if Overwrites(c, Read(cap))
         then c'.read == c.read && c.reader.recvBuf + ToCome(c') == ToCome(c)
         else c'.read + ToCome(c') == c.read + ToCome(c)
  {
    var c', k := Step(a, key, c, Read(cap)), Opened(c);
    if c.reader.recvBuf != [] && cap > 0 {
      var copied := Min(cap, |c.reader.recvBuf|);
      MovePrefix(c.read, c.reader.recvBuf, copied, Flatten(c.written[k..]));
    } else if c.wire != [] {
      var m, rest := c.written[k], Flatten(c.written[k + 1..]);
      UnsealsSealed(a, key, Advance(c.reader.iv), m);
      assert c.written[k..] == [m] + c.written[k + 1..];
      assert Flatten(c.written[k..]) == m + rest;
      hide Flatten;
      if |m| <= cap {
        if c.reader.recvBuf == [] {
          assert c'.read + ToCome(c') == c.read + (m + rest) by {
            assert ToCome(c') == rest;
            Assoc(c.read, m, rest);
          }
          assert ToCome(c) == m + rest;
        } else {
          assert m == [] && c.read + m == c.read && m + rest == rest;
        }
      } else {
        MovePrefix(c.read, m, cap, rest);
        if c.reader.recvBuf == [] {
          assert ToCome(c) == m + rest;
        } else {
          assert m[..0] == [] && m[0..] == m && c.read + [] == c.read;
        }
      }
    } else {
      assert c.read + [] == c.read;
    }
  }

  lemma MovePrefix(read: Bytes, b: Bytes, n: nat, rest: Bytes)
    requires n <= |b|
    ensures (read + b[..n]) + (b[n..] + rest) == read + (b + rest)
  {
    Regroup(read, b[..n], b[n..], rest);
    assert b[..n] + b[n..] == b;
  }

  lemma StepMissing(a: Aead, key: Bytes, c: Channel, act: Act)
    requires Lawful(a) && InStep(a, key, c)
    ensures var c' := Step(a, key, c, act);
      && Opened(c') >= 0
      && Missing(c') == Missing(c) + (if Overwrites(c, act) then |c.reader.recvBuf| else 0)
      && (Whole(c) && !Overwrites(c, act) ==> Whole(c'))
  {
    match act
    case Write(buf) =>
      WriteKeeps(a, key, c, buf);
      hide Flatten;
      Assoc(c.read, ToCome(c), buf);
    case Read(cap) =>
      ReadMoves(a, key, c, cap);
      hide Flatten;
      var c' := Step(a, key, c, act);
      if !Overwrites(c, act) {
        assert |c'.read + ToCome(c')| == |c.read + ToCome(c)|;
      } else {
        assert |c.reader.recvBuf + ToCome(c')| == |ToCome(c)|;
      }
  }

  /** No step of the run is the one that loses bytes. */
  predicate NeverOverwrites(a: Aead, key: Bytes, c: Channel, acts: seq<Act>)
    decreases |acts|
  {
    acts == [] ||
    (Opened(c) >= 0 && !Overwrites(c, acts[0]) && NeverOverwrites(a, key, Step(a, key, c, acts[0]), acts[1..]))
  }

  lemma {:induction false} RunMissing(a: Aead, key: Bytes, c: Channel, acts: seq<Act>)
    requires Lawful(a) && InStep(a, key, c) && Missing(c) >= 0
    ensures var c' := Run(a, key, c, acts);
      && Opened(c') >= 0 && Missing(c') >= Missing(c)
      && (NeverOverwrites(a, key, c, acts) && Whole(c) ==> Whole(c'))
      && (!NeverOverwrites(a, key, c, acts) ==> Missing(c') > 0)
    decreases |acts|
  {
    if acts != [] {
      StepInStep(a, key, c, acts[0]);
      StepMissing(a, key, c, acts[0]);
      RunMissing(a, key, Step(a, key, c, acts[0]), acts[1..]);
    }
  }

  /**
   * A run delivers exactly the bytes written, in order, what is still to come included, if and only
   * if no read without room was made while plaintext was left over and a non-empty frame was there.
   */
  lemma DeliversExactly(a: Aead, key: Bytes, acts: seq<Act>)
    requires Lawful(a)
    ensures Whole(Run(a, key, Fresh(a), acts)) <==> NeverOverwrites(a, key, Fresh(a), acts)
  {
    RunMissing(a, key, Fresh(a), acts);
    var c' := Run(a, key, Fresh(a), acts);
    if Whole(c') {
      assert |c'.read + ToCome(c')| == |Flatten(c'.written)|;
    }
  }

  /** Readers that always leave room lose nothing. */
  lemma {:induction false} RoomIsEnough(a: Aead, key: Bytes, c: Channel, acts: seq<Act>)
    requires Lawful(a) && InStep(a, key, c) && Read(0) !in acts
    ensures NeverOverwrites(a, key, c, acts)
    decreases |acts|
  {
    if acts != [] {
      StepInStep(a, key, c, acts[0]);
      RoomIsEnough(a, key, Step(a, key, c, acts[0]), acts[1..]);
    }
  }

  /** The loss is real: two messages, a short read, and a read without room. */
  lemma ReadWithoutRoomLoses(a: Aead, key: Bytes)
    requires Lawful(a)
    ensures !Whole(Run(a, key, Fresh(a), [Write([1, 2]), Write([3]), Read(1), Read(0)]))
  {
    var acts := [Write([1, 2]), Write([3]), Read(1), Read(0)];
    var c0 := Fresh(a);
    var c1 := Step(a, key, c0, acts[0]);
    var c2 := Step(a, key, c1, acts[1]);
    var c3 := Step(a, key, c2, acts[2]);
    StepInStep(a, key, c0, acts[0]);
    StepInStep(a, key, c1, acts[1]);
    UnsealsSealed(a, key, Advance(c2.reader.iv), [1, 2]);
    assert Overwrites(c3, acts[3]);
    assert acts[1..][0] == acts[1] && acts[1..][1..][0] == acts[2] && acts[1..][1..][1..][0] == acts[3];
    assert !NeverOverwrites(a, key, c3, acts[1..][1..][1..]);
    assert !NeverOverwrites(a, key, c2, acts[1..][1..]);
    assert !NeverOverwrites(a, key, c1, acts[1..]);
    DeliversExactly(a, key, acts);
  }
}
