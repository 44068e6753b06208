# Verification of tentacle

Dafny models of the parts of tentacle where two ends, or several queues, have to stay consistent, and
proofs of what they keep. `dafny verify dfyconfig.toml` checks the whole project.

## What is modelled

**yamux.** Two sessions, each with its stream handles, joined by two wires. A state holds every queue
a frame passes through: the events of the handles, the write queue, the wire, the frames waiting to be
distributed, the channel of each stream and its read buffer. A run is any sequence of actions of the
two sides, their users and their sockets; how much a socket takes and whether a channel has room are
arguments of the actions, and a socket error is the end of the session. `YamuxStream` and
`YamuxSession` say what each operation does to a value; `YamuxStreamHandle` and `YamuxLiveSession` are
the same operations as methods that update an object in place, proved equal to them.
`YamuxTransport` states, for one stream and direction, how emitted, queued, travelling and arrived
frames hang together; `YamuxSteps`, `YamuxDistribution` and `YamuxActions` show that every action
keeps it; `YamuxTheorems` draws the conclusions. `YamuxStreamResults` says what the
results of reads and writes tell the owner of a handle. `YamuxCodec` is the resumable frame decoder,
`YamuxPass` a whole pass of `distribute_to_substream` over a session in any state, `YamuxSlots` what
becomes of the slots of its stream table.

**The secure channel.** `SecioNonce` is the little-endian counter, `SecioChannel` the sealing and
opening of frames and the buffered read, for any cipher whose `open` undoes its `seal`.

**Binary codecs.** `Molecule` is the offset-header layout of tables and dynamic vectors;
`HandshakeTables`, `Discovery` and `DiscoveryForms` are the messages built on it. `Multiaddr` and `MultiaddrAddress`
are multiaddress components and addresses.

**Negotiation.** `Negotiation` and `HandshakeContext` are the choice of algorithms at both ends of a
secio handshake, for any hash function.

**Sending.** `SendPipeline` is the way of a message from the service to a protocol stream, with its
priorities and the shared byte counter; `SendPipelineWhole` says when nothing is lost on it.

## Notes

- Window and length arithmetic is modulo 2^32 where the source casts or subtracts without a check.
  The counter of pending bytes is modulo 2^64.
- A session needs a window of at least 256 KiB, which `Session::new` asserts.
- A stream that both sides closed, this side first, is dropped without the session being told, and keeps
  its slot (`ClosedByBothIsNotTold`, `SlotIsLost`).
- A frame is thrown away when a session goes away, ends, or loses a stream. `Intact` says that this
  has not happened to a direction of a stream; equalities need it, inequalities do not.
- The error kinds of the molecule readers are not told apart, because every caller discards them.
- Varints follow the multiformats definition: shortest form, and in range for their width.
- The negotiation is said to go by the larger of two hashes. On a tie the code prefers the other end's
  proposal, at both ends; `TieComesApart`, `TieExists` and `AgreementIff` say what follows.
- Strings are their UTF-8 bytes; `Utf8` says which byte strings are well-formed.

## Model

| member | source | states |
|---|---|---|
| `YamuxTheorems.RunOk` | yamux/src/session.rs:644-730 | The invariant over two sessions, their handles and the two wires holds after every sequence of actions of both sides, their users and their sockets |
| `YamuxTheorems.CreditConserved` | yamux/src/stream.rs:149-164 | In every reachable state: the sender's window, the data on its way and the credit on its way back never exceed the receiver's window, and equal it while nothing has been thrown away |
| `YamuxTheorems.NoProtocolError` | yamux/src/stream.rs:179-302 | Between two conforming sessions no GoAway with an error is on a wire or queued, no handle asks for one, and every handle accepts whatever is queued for it |
| `YamuxTheorems.NoDuplicateStream` | yamux/src/session.rs:315-344 | Opening a stream never meets an id that is in use |
| `YamuxTheorems.DataFitsDecoder` | yamux/src/frame.rs:296-302 | No Data frame on a wire is longer than the decoder at its end accepts |
| `YamuxTheorems.DecodeWire` | yamux/src/frame.rs:259-351 | However the bytes of a wire are cut into chunks, the decoder at its end, fed them one after the other with its retained header, hands out exactly the frames that were sent, without an error |
| `YamuxTheorems.WireDecodes` | yamux/src/frame.rs:259-351 | The bytes of a wire, read by the limits of the session at its end, are exactly the frames that were sent, with nothing left over |
| `YamuxTheorems.FramesArriveInOrder` | yamux/src/session.rs:411-509 | What has arrived at one end of a stream is a prefix of what the other end emitted; what is on the way is a subsequence of the rest, and all of it while nothing was thrown away |
| `YamuxTheorems.EndToEnd` | yamux/src/stream.rs:447-582 | The bytes read at one end are a prefix of the bytes writes at the other end reported as accepted; once nothing is on the way, read and unread bytes are all of them |
| `YamuxTheorems.SynIsAnsweredOnce` | yamux/src/session.rs:428-463 | In every reachable state a stream of the peer has been answered exactly if something of it arrived: one request, first, and one answer, first, an ACK or a RST; a refusal is all that is ever sent |
| `YamuxTheorems.TraceGrammar` | yamux/src/stream.rs:94-215 | In every reachable state: a handle's first frame carries SYN or ACK, no later one does, at most one carries FIN, and no data follows it |
| `YamuxTheorems.StuckMeansUnread` | yamux/src/stream.rs:149-164 | A writer without window, with nothing under way in either direction, faces a reader with more than half a window unread, unless that reader stopped receiving |
| `YamuxTheorems.DrainingGrants` | yamux/src/stream.rs:473-513 | Reading all of it grants the whole window again, in one update |
| `YamuxStreamTrace.AnyPeer` | yamux/src/stream.rs:149-268 | Whatever the peer sends: unread bytes and window stay within the configured window, the window arithmetic is exact, the buffer is the queue of bytes received and not read, and no writer waits unregistered |
| `YamuxStreamTrace.AnyPeerGrammar` | yamux/src/stream.rs:94-121 | Whatever the peer sends: one FIN at most and no data after it, while the session holds the handle's channel |
| `YamuxStreamTrace.SecondFin` | yamux/src/stream.rs:284-297 | That the session holds the channel is needed: a new handle that is closed, and reads after the channel ended, sends a second FIN when closed again |
| `YamuxStreamTrace.ApplyGood` | yamux/src/stream.rs:217-302 | An operation on a handle that fits what is queued refuses nothing, only shifts frames from the channel, and emits "closed" only when closed |
| `YamuxStreamTrace.RecvFramesAccepts` | yamux/src/stream.rs:251-302 | Frames that fit the windows are all accepted, whatever their flags and however many |
| `YamuxStreamLaws.ApplyLaws` | yamux/src/stream.rs:446-625 | Every operation of the owner keeps every law of a handle |
| `YamuxStreamLaws.RecvFramesLaws` | yamux/src/stream.rs:270-302 | The receive loop keeps the laws, moves bytes from the window to the buffer, and never finds a flag unexpected |
| `YamuxStreamLaws.HandleFrameLaws` | yamux/src/stream.rs:217-268 | Exactly when a frame is refused, and for what; a refused frame changes no window |
| `YamuxStreamLaws.WindowUpdateLaws` | yamux/src/stream.rs:149-164 | A window update announces exactly the window it grants, or the update may be left out |
| `YamuxStreamLaws.ReadChunksIsDequeue` | yamux/src/stream.rs:473-494 | The chunk list is a byte queue: a read takes the longest prefix that fits and leaves the rest in non-empty chunks |
| `YamuxStreamBytes.ReadDequeues` | yamux/src/stream.rs:447-516 | A read returns the longest fitting prefix of what is unread, removes exactly that, and otherwise changes nothing the reader sees |
| `YamuxStreamBytes.PeekShowsNextRead` | yamux/src/stream.rs:390-436 | A peek shows exactly what the next read of that size returns, and peeking twice shows the same |
| `YamuxStreamBytes.WriteAccepts` | yamux/src/stream.rs:520-582 | A write sends, and records as accepted, exactly the bytes it reports, within the window, and stops short only at the end of the window |
| `YamuxStreamBytes.OnlyWritesAccept` | yamux/src/stream.rs:446-625 | No other operation reports bytes as accepted |
| `YamuxStreamBytes.CreditWakes` | yamux/src/stream.rs:238-249 | The frame that gives a waiting writer window again is the one that wakes it |
| `YamuxStreamResults.WriteResults` | yamux/src/stream.rs:520-582 | Exactly when a write reports a broken pipe, has to wait, or is done, and how much it takes; one that has to wait has registered the writer and sent nothing |
| `YamuxStreamResults.WriterStaysRegistered` | yamux/src/stream.rs:557-562 | No wake-up is lost: after a write that has to wait, whatever happens, the writer is registered until a window update is taken |
| `YamuxStreamResults.ReadResults` | yamux/src/stream.rs:368-516 | Exactly when a read or a peek reports a reset, the end, invalid data, bytes, or has to wait; one that has to wait has registered the reader and found nothing unread on a stream that still receives |
| `YamuxStreamResults.BrokenPipeIff` | yamux/src/stream.rs:496-513 | Exactly when a read with bytes to return reports a broken pipe |
| `YamuxStreamResults.ReadsTellTruly` | yamux/src/stream.rs:368-387 | In every run from a new handle: a reset is reported only after a frame with RST, the end only after FIN, a close of the owner or the end of the channel, and waiting only if neither FIN nor RST has come |
| `YamuxStreamResults.ResetIsSeen` | yamux/src/stream.rs:179-201 | In every run: after a frame with RST, and no close since, every read and peek with nothing unread reports the reset, and every write a broken pipe |
| `YamuxStreamResults.EndIsSeen` | yamux/src/stream.rs:179-201 | In every run: after a frame with FIN every read and peek with nothing unread reports the end |
| `YamuxStreamResults.TakesAll` | yamux/src/stream.rs:270-302 | The receive loop takes frames in order, and leaves one only if it refused one or the stream has stopped receiving |
| `YamuxStreamResults.GrantsAreWorthwhile` | yamux/src/stream.rs:149-164 | In every run, whatever the peer sends: no window update after the announcement grants less than half of the configured window |
| `YamuxStreamEnds.CloseTells` | yamux/src/stream.rs:94-121 | Closing sends FIN exactly if this side has not ended the stream, and tells the session exactly if both sides are done; without a session it closes, sends nothing and fails |
| `YamuxStreamEnds.DropTells` | yamux/src/stream.rs:597-624 | Dropping resets the stream exactly if this side has not ended it, and tells the session unless the handle is closed; without a session it sends nothing |
| `YamuxStreamEnds.DropIsKnownIff` | yamux/src/stream.rs:597-624 | The session has been told of a dropped handle if and only if it was there and the handle not closed when dropped, or it had been told before |
| `YamuxStreamEnds.ClosedByBothIsNotTold` | yamux/src/stream.rs:191-193 | The exception is real: a new handle is closed here, then by the peer, then dropped, and the session is never told |
| `YamuxTheorems.TableIsTrue` | yamux/src/session.rs:588-602 | In every reachable state of a session that is there: a stream neither closed nor dropped has its slot, one of whose end the session has heard has none |
| `YamuxSlots.ToldIsFreed` | yamux/src/session.rs:588-602 | In every run of a session, whatever its peer sends: a stream whose handle has told the session of its end, with no such event still queued, has no slot |
| `YamuxSlots.FreedForAReason` | yamux/src/session.rs:464-602 | A slot is emptied only by the event that tells of its stream's end, by a frame that finds the handle dropped, or with the session |
| `YamuxSlots.DroppedIsFreed` | yamux/src/session.rs:464-500 | A frame that finds the handle of its stream dropped frees the slot |
| `YamuxSlots.LimitsHold` | yamux/src/session.rs:428-463 | In every run, whatever the peer asks for: no more streams wait than the backlog allows, and no more are in the table than configured, but for streams of this side |
| `YamuxSlots.IdsInTurn` | yamux/src/session.rs:315-327 | In every run, whatever the peer sends: ids of this side are given out without a gap |
| `YamuxSlots.SlotIsLost` | yamux/src/session.rs:588-602 | In any configuration eight actions of a new session lead to a stream whose handle is dropped, which still has its slot in the table, with nothing under way that would free it |
| `YamuxSlots.RunLost` | yamux/src/session.rs:464-500 | In every run that does not drop the session, and brings no more frames of that stream, the slot stays taken |
| `YamuxSlots.LostSlotsShutOut` | yamux/src/session.rs:428-463 | Once as many slots are lost as the configuration allows streams, no run accepts another stream of the peer |
| `YamuxStreamEnds.ReaderIsWoken` | yamux/src/stream.rs:337-365 | When a writer takes the frames, a waiting reader is woken if there is something new, unless the stream was reset or closed or a frame refused, and only then |
| `YamuxSessionLaws.PingIsAnswered` | yamux/src/session.rs:518-541 | A ping is answered once, with its own number; an answer settles exactly the pings in flight with numbers up to its own |
| `YamuxSessionLaws.GoAwayIsAnsweredOnce` | yamux/src/session.rs:543-563 | A go-away is answered with a normal one, unless this side went first, and the session is over |
| `YamuxSessionLaws.GoesAwayAlone` | yamux/src/session.rs:257-274 | Going away throws away what was queued and sends one code |
| `YamuxSessionLaws.TimerPingsOrEnds` | yamux/src/session.rs:293-313 | The timer ends a session that waits for an answer to its go-away, reports a ping in flight for more than 30 seconds, or sends a ping with a new number, in flight from now on beside those that were, none of them overdue |
| `YamuxSessionLaws.EventIsHeard` | yamux/src/session.rs:588-602 | A frame of a stream is queued behind the others; the end of a stream takes that stream and no other out of the table; a complaint sends a go-away with a protocol error |
| `YamuxSessionLaws.RequestIsGrantedIff` | yamux/src/session.rs:428-463 | Exactly when a request for a stream is granted, what is then there, and what is answered otherwise |
| `YamuxSessionLaws.OpeningSucceedsIff` | yamux/src/session.rs:277-344 | Exactly when opening fails and with what; otherwise which id is used and what is announced |
| `YamuxSessionLaws.SendsWhatFits` | yamux/src/session.rs:349-373 | A live session hands the socket as many queued frames as it takes, oldest first |
| `YamuxStreamHandle.StreamHandle.SendWindowUpdate` | yamux/src/stream.rs:149-164 | The object, with its sum over the chunks, ends up as the specified update says, for which WindowUpdateLaws holds |
| `YamuxStreamHandle.StreamHandle.ProcessFlags` | yamux/src/stream.rs:179-201 | ACK, FIN and RST act on the state in turn; an unexpected FIN changes nothing |
| `YamuxStreamHandle.StreamHandle.HandleFrame` | yamux/src/stream.rs:217-268 | The object ends up as the specified handling of a frame says, for which HandleFrameLaws holds |
| `YamuxStreamHandle.StreamHandle.RecvFrames` | yamux/src/stream.rs:270-335 | The receive loops, with their early returns, end up where the recursive specification does, for which RecvFramesLaws holds |
| `YamuxStreamHandle.StreamHandle.RecvFramesWake` | yamux/src/stream.rs:337-365 | Receiving for a writer: object and outcome are the specified ones, for which ReaderIsWoken holds |
| `YamuxStreamHandle.StreamHandle.TakeBytes` | yamux/src/stream.rs:473-494 | The copy loop over the chunks, with the index of the last chunk used up, dequeues |
| `YamuxStreamHandle.StreamHandle.CopyBytes` | yamux/src/stream.rs:416-425 | The copy loop of a peek yields what the loop of a read would take, and leaves the chunks alone |
| `YamuxStreamHandle.StreamHandle.PollRead` | yamux/src/stream.rs:447-516 | Object and result are those of the specified read, for which ReadDequeues, ReadResults and ReadsTellTruly hold |
| `YamuxStreamHandle.StreamHandle.PollPeek` | yamux/src/stream.rs:390-436 | Object and result are those of the specified peek, for which PeekShowsNextRead, ReadResults and ReadsTellTruly hold |
| `YamuxStreamHandle.StreamHandle.PollWrite` | yamux/src/stream.rs:520-582 | Object and result are those of the specified write, for which WriteAccepts, WriteResults and WriterStaysRegistered hold |
| `YamuxStreamHandle.StreamHandle.Close` | yamux/src/stream.rs:94-121 | Object and events are those of the specified close, for which CloseTells holds |
| `YamuxStreamHandle.StreamHandle.Drop` | yamux/src/stream.rs:597-624 | Object and events are those of the specified drop, for which DropTells holds |
| `YamuxPass.PassOnLane` | yamux/src/session.rs:411-509 | A pass that looks at every frame does to a live stream only what that stream's own frames and its own channel do; no other stream comes into it |
| `YamuxPass.LaneKeepsOrder` | yamux/src/session.rs:419-427 | For one stream: frames given, then frames left waiting, are the frames that came, in order |
| `YamuxPass.PassDelivers` | yamux/src/session.rs:411-509 | For every stream open throughout a pass: frames given ++ frames left = frames that waited ++ frames that came; none is left if its own channel had room |
| `YamuxLiveSession.LiveSession.SendAll` | yamux/src/session.rs:349-373 | The send loop passes on a front part of the queue; a session that is over loses one frame |
| `YamuxLiveSession.LiveSession.SendGoAwayWithCode` | yamux/src/session.rs:257-274 | Going away clears the queue, sends the code and marks this side |
| `YamuxLiveSession.LiveSession.CreateStream` | yamux/src/session.rs:315-344 | A new stream of either side, or the error, with the announcement of its window |
| `YamuxLiveSession.LiveSession.OpenStream` | yamux/src/session.rs:277-286 | Opening, or the reason not to, for which OpeningSucceedsIff and NoDuplicateStream hold |
| `YamuxLiveSession.LiveSession.HandleSyn` | yamux/src/session.rs:428-463 | A request for a stream: accepted, refused, or the end of the pass, as RequestIsGrantedIff says |
| `YamuxLiveSession.LiveSession.RouteFrame` | yamux/src/session.rs:464-505 | A frame given to its stream, kept waiting, or dropped with its stream |
| `YamuxLiveSession.LiveSession.DistributeToSubstream` | yamux/src/session.rs:411-509 | The loop over the taken frames, with its early returns, is the specified pass |
| `YamuxLiveSession.LiveSession.HandleFrame` | yamux/src/session.rs:395-408 | A frame of a stream starts a whole pass; ping and go-away are answered on the spot, as PingIsAnswered and GoAwayIsAnsweredOnce say |
| `YamuxLiveSession.LiveSession.HandleGoAway` | yamux/src/session.rs:543-563 | The session ends up as specified, for which GoAwayIsAnsweredOnce holds |
| `YamuxLiveSession.LiveSession.HandlePing` | yamux/src/session.rs:518-541 | Object and answer are the specified ones, with the pings in flight cut off at the answer; PingIsAnswered holds |
| `YamuxLiveSession.LiveSession.TimerFired` | yamux/src/session.rs:293-313 | The search for an overdue ping, the new ping, and the end of a wait, as TimerPingsOrEnds says |
| `YamuxLiveSession.LiveSession.RecvEvent` | yamux/src/session.rs:588-602 | An event of a stream is heard as EventIsHeard says; ToldIsFreed and TableIsTrue hold for it |
| `YamuxLiveSession.LiveSession.Flush` | yamux/src/session.rs:217-223 | Sending and distributing, if anything waits |
| `YamuxActions.ActStep` | yamux/src/session.rs:203-618 | Every action of a session keeps the two-session invariant |
| `YamuxActions.UseStep` | yamux/src/stream.rs:446-625 | Using a handle keeps it |
| `YamuxActions.DistributeStep` | yamux/src/session.rs:420-506 | One round of the distribution loop keeps it |
| `YamuxDistribution.SynIsFresh` | yamux/src/session.rs:428-454 | A request for a stream is seen once, and only for ids of the peer |
| `YamuxDistribution.NotSynNotFresh` | yamux/src/session.rs:464-500 | A frame of an unknown stream is never the first of one that could still open |
| `YamuxSteps.HandleFits` | yamux/src/stream.rs:254-256 | What has arrived from a conforming peer fits the windows it was sent under |
| `YamuxCodec.HeaderOnWire` | yamux/src/frame.rs:313-350 | Where the parts of a header are on the wire: version, type, and big-endian flags, stream id and length, with the flag bits in their order |
| `YamuxCodec.HeaderRefusedIff` | yamux/src/frame.rs:268-310 | Exactly why a header is refused: version, then type, then the length of a Data frame |
| `YamuxCodec.HeaderRoundTrip` | yamux/src/frame.rs:268-310 | An accepted header reads back as itself |
| `YamuxCodec.ParseAppend` | yamux/src/frame.rs:263-331 | Parsing can be resumed anywhere, errors included |
| `YamuxCodec.RoundTrip` | yamux/src/frame.rs:263-351 | Encoded frames within the limit read back as themselves, with nothing left over |
| `YamuxCodec.ParsedIsEncoded` | yamux/src/frame.rs:263-351 | Nothing else reads as frames: what was read is their encoding, and each is within the limit |
| `YamuxCodec.FrameCodec.Decode` | yamux/src/frame.rs:263-331 | The decoder with its retained header hands out exactly the first whole frame, keeps what is incomplete, and retains only headers of Data frames with a body to wait for |
| `YamuxCodec.FrameCodec.Encode` | yamux/src/frame.rs:334-350 | Encoding appends the frame |
| `YamuxCodec.DecodeStream` | yamux/src/frame.rs:259-351 | Under every division into chunks, the decoder hands out the frames, and reports the error, of the whole byte string |
| `SecioNonce.NonceAdvance` | secio/src/crypto/mod.rs:89-98 | The carry loop in place |
| `SecioNonce.AdvanceIsSuccessor` | secio/src/crypto/mod.rs:82-98 | Advancing adds one modulo 256 to the length |
| `SecioNonce.NoncesRepeat` | secio/src/crypto/mod.rs:89-98 | Two messages share a nonce exactly when their numbers agree modulo 256 to the length |
| `SecioNonce.NoncesDistinct` | secio/src/crypto/openssl_impl.rs:48-49 | The nonces of the first 256^length messages are all different (section 3.1 of RFC 5116) |
| `SecioChannel.Cipher.Encrypt` | secio/src/crypto/openssl_impl.rs:48-56 | The nonce moves on, and the output is ciphertext and tag |
| `SecioChannel.Cipher.Decrypt` | secio/src/crypto/openssl_impl.rs:64-79 | The nonce moves on, even for a frame that is too short or not authentic |
| `SecioChannel.UnsealsSealed` | secio/src/crypto/openssl_impl.rs:42-79 | A frame opens, under the nonce it was sealed with, to its message |
| `SecioChannel.SecureStream.Drain` | secio/src/codec/secure_stream.rs:132-145 | The buffer is split into what fits, handed out, and the rest, kept |
| `SecioChannel.ReadOutcomes` | secio/src/codec/secure_stream.rs:158-197 | Each outcome of a read, exactly by the left-over plaintext and the answer of the socket; the nonce moves on with every frame and nothing else |
| `SecioChannel.SecureStream.PollRead` | secio/src/codec/secure_stream.rs:158-197 | Object and result are those of the specified read, for every answer of the socket; ReadOutcomes and DeliversExactly hold for it |
| `SecioChannel.SecureStream.PollWrite` | secio/src/codec/secure_stream.rs:204-220 | One sealed frame per write; the nonce moves on with every frame sealed, taken by the socket or not; what is reported for every answer of the socket, errors included |
| `SecioChannel.RunInStep` | secio/src/crypto/openssl_impl.rs:48-79 | In every run of the two ends the nonces stay in lock-step and no read refuses a frame |
| `SecioChannel.DeliversExactly` | secio/src/codec/secure_stream.rs:132-216 | Bytes read, buffered and on the way are the bytes written, in order, if and only if no read without room met left-over plaintext and a non-empty frame |
| `SecioChannel.RoomIsEnough` | secio/src/codec/secure_stream.rs:164-186 | Readers that always leave room never do that |
| `SecioChannel.ReadWithoutRoomLoses` | secio/src/codec/secure_stream.rs:179-188 | The loss is real: a run in which bytes disappear |
| `Molecule.PassesIffLaid` | protocols/discovery/src/protocol_mol.rs:419-464 | A slice passes the header check with given items exactly when it is their layout and they fit in 32 bits |
| `Molecule.ItemInBounds` | protocols/discovery/src/protocol_mol.rs:394-405 | Every unchecked access to a slice that passes is in bounds and hits the item |
| `Molecule.BytesPassIffLaid` | protocols/discovery/src/protocol_mol.rs:156-174 | A slice passes for a byte vector exactly when it is the layout of its bytes |
| `Molecule.WriteItems` | protocols/discovery/src/protocol_mol.rs:495-521 | The writer of tables and dynamic vectors, with its offsets, writes the layout |
| `Molecule.WriteBytes` | protocols/discovery/src/protocol_mol.rs:201-207 | The writer of byte vectors |
| `Discovery.RoundTrip` | protocols/discovery/src/protocol.rs:48-162 | Decoding undoes encoding for every message that fits and whose addresses are multiaddresses |
| `DiscoveryForms.DecodeIff` | protocols/discovery/src/protocol.rs:126-162 | A byte string decodes to a message if and only if it is laid out from it, tables possibly with further fields, vectors exactly, and every address a multiaddress |
| `Discovery.EncodeMessage` | protocols/discovery/src/protocol.rs:48-123 | The nested encoding loops write the message |
| `Discovery.DecodeMessage` | protocols/discovery/src/protocol.rs:126-162 | The nested decoding loops, with their early returns, read the message |
| `HandshakeTables.ByteTableIff` | secio/src/handshake/handshake_mol.rs:1291-1331 | A table of byte vectors passes in compatible mode, with given contents, exactly when it is laid out from them and any further fields |
| `HandshakeTables.DecodeProposeIff` | secio/src/handshake/handshake_struct.rs:71-80 | Exactly the layouts of a proposal, with any further fields, decode to it |
| `HandshakeTables.ProposeRoundTrip` | secio/src/handshake/handshake_struct.rs:25-80 | Decoding undoes encoding |
| `HandshakeTables.DecodeExchangeIff` | secio/src/handshake/handshake_struct.rs:111-117 | The same for Exchange |
| `HandshakeTables.ExchangeRoundTrip` | secio/src/handshake/handshake_struct.rs:95-117 | Decoding undoes encoding |
| `HandshakeTables.DecodePublicKeyIff` | secio/src/handshake/handshake_struct.rs:143-163 | Exactly the encoding of a key decodes to it |
| `MultiaddrVarint.ReadsBack` | multiaddr/src/protocol.rs:124-127 | A varint reads back, whatever follows |
| `MultiaddrVarint.Canonical` | multiaddr/src/protocol.rs:124-127 | Only the encoding of a number decodes to it |
| `Multiaddr.CheckP2pAccepts` | multiaddr/src/protocol.rs:330-345 | Exactly the SHA-256 multihashes pass |
| `Multiaddr.ReadsBack` | multiaddr/src/protocol.rs:115-261 | A well-formed component reads back and leaves what follows |
| `Multiaddr.Canonical` | multiaddr/src/protocol.rs:115-199 | Only what was written for a well-formed component reads as one |
| `Multiaddr.WriteToBytes` | multiaddr/src/protocol.rs:203-261 | Writing appends the component |
| `MultiaddrAddress.AddressesAreEncodings` | multiaddr/src/lib.rs:191-204 | The byte strings that pass are exactly the encodings of lists of well-formed components |
| `MultiaddrAddress.TryFrom` | multiaddr/src/lib.rs:280-292 | The check loop accepts exactly the multiaddresses |
| `MultiaddrAddress.Iter.Next` | multiaddr/src/lib.rs:235-249 | Iteration yields the components in order |
| `MultiaddrAddress.Address.FromIter` | multiaddr/src/lib.rs:191-204 | The components of an address made from a list are the list |
| `MultiaddrAddress.Address.Push` | multiaddr/src/lib.rs:59-64 | Pushing adds a component at the end |
| `MultiaddrAddress.Address.Pop` | multiaddr/src/lib.rs:77-92 | Popping takes the last component off, and restores the bytes from before it was pushed |
| `MultiaddrAddress.Address.Replace` | multiaddr/src/lib.rs:119-147 | Replacing changes the chosen component only, and fails exactly when there is none or no replacement |
| `Negotiation.SplitJoin` | secio/src/support.rs:33-78 | Splitting at commas undoes joining |
| `Negotiation.Proposition` | secio/src/support.rs:33-56 | The text built by the loop is the names with commas between them |
| `Negotiation.CompareIsLarger` | secio/src/handshake/handshake_context.rs:186 | Byte strings compare by the first byte that differs, and then by length |
| `Negotiation.SelectFirst` | secio/src/support.rs:58-78 | The search with early return finds the first common known name |
| `Negotiation.SelectOnPrinted` | secio/src/support.rs:33-169 | On printed proposals the choice is the preferred end's first entry that the other end lists |
| `HandshakeContext.Arrives` | secio/src/handshake/handshake_context.rs:88-162 | The proposal and the key of an end arrive as they were sent |
| `HandshakeContext.OrderingsReverse` | secio/src/handshake/handshake_context.rs:168-186 | The hashes one end compares are the other's, the other way round |
| `HandshakeContext.OrderingIsLarger` | secio/src/handshake/handshake_context.rs:168-186 | The ordering is Greater exactly if the hash of the other's key and this end's nonce is the larger: at the first byte that differs, or because it is longer |
| `HandshakeContext.PreferenceByHash` | secio/src/handshake/handshake_context.rs:141-260 | For offers that are lists: when an end fails and why; otherwise it takes its own first choices that the other has too exactly if that hash is the larger, and the other end's if not |
| `HandshakeContext.MalformedIff` | secio/src/handshake/handshake_context.rs:141-162 | Exactly what cannot be read as a proposal with a key fails as malformed |
| `HandshakeContext.Agreement` | secio/src/handshake/handshake_context.rs:141-260 | If the hashes differ, both ends choose the same three algorithms or fail for the same reason |
| `HandshakeContext.TieComesApart` | secio/src/handshake/handshake_context.rs:168-246 | With equal hashes the two ends can choose differently |
| `HandshakeContext.TieExists` | secio/src/handshake/handshake_context.rs:168-246 | Such ends exist for every hash function: where one key extends the other, and the nonces make up for it |
| `HandshakeContext.TieNeedsCollision` | secio/src/handshake/handshake_context.rs:89-98 | With nonces of one length, as every end draws them, different keys tie only if the hash collides |
| `HandshakeContext.AgreementIff` | secio/src/handshake/handshake_context.rs:164-246 | The ends agree on every pair of offers exactly when the hashes differ or the keys are the same |
| `SendPipeline.ServesInOrder` | tentacle/src/substream.rs:152-168 | One drain takes a front part of each queue, and of the normal one only once the high one is empty |
| `SendPipelineRuns.NormalWaitsForHigh` | tentacle/src/substream.rs:152-168 | In every run, whenever a frame of normal priority is passed on, the stream's high write buffer is empty at that moment |
| `SendPipelineLaws.ServedOf` | tentacle/src/substream.rs:152-168 | The single sequence of frames a drain passes on holds, of each priority, the front part of its queue |
| `SendPipelineLaws.OfferLine` | tentacle/src/session.rs:561-571 | An event offered goes to the end of its line, and if the channel is not broken nothing else changes; nothing overtakes, nothing is made up |
| `SendPipelineLaws.FlushLine` | tentacle/src/substream.rs:128-168 | A drain moves as many frames as the sink takes from the front of the buffers to the network and counts exactly their bytes; the line stays as it was, but for the one frame at hand when the sink fails; exactly when the stream is dead |
| `SendPipelineLaws.TakeLine` | tentacle/src/substream.rs:256-285 | Taking an event keeps its line, unless the sink loses a frame; a request to close clears the normal buffer only, and the stream is dead |
| `SendPipelineRuns.CounterCoversQueues` | tentacle/src/context.rs:93-102 | In every run the counter is what was posted and not passed on, and never less than what is queued, as long as that fits 64 bits |
| `SendPipelineRuns.NeverWraps` | tentacle/src/context.rs:99-102 | Taking passed-on bytes off the counter never takes more than is there |
| `SendPipelineRuns.LeavesInOrder` | tentacle/src/buffer.rs:57-106 | In every run the frames of one priority, picked out of the one sequence a stream has passed on, were posted in that order |
| `SendPipelineWhole.NothingIsLost` | tentacle/src/substream.rs:128-168 | In every run in which nothing breaks or is closed: what a stream passed on, what waits on the way to it and what its session has not taken are, in order, what was posted; and the counter is the bytes queued |
| `SendPipelineWhole.HighFirstEverywhere` | tentacle/src/buffer.rs:57-106 | In every step, nothing of normal priority leaves the channel to the session, the session's buffer or the channel to the stream while something of high priority is in it |
| `SendPipelineWhole.DeadIsSilent` | tentacle/src/substream.rs:256-285 | In every run a stream that has failed or was closed passes on nothing more |
| `SendPipelineWhole.CloseIsQueued` | tentacle/src/session.rs:598-612 | Closing a protocol puts the request behind everything of high priority for its stream |
| `SendPipelineWhole.EndedServesNone` | tentacle/src/session.rs:517-522 | A stream that has ended serves no protocol; every other protocol is served as before |
| `SendPipelineObjects.PriorityBuffer.TrySend` | tentacle/src/buffer.rs:57-106 | The two loops, with putting back and clearing |
| `SendPipelineObjects.OfferEvent` | tentacle/src/session.rs:561-571 | An event is pushed by its priority and the buffer tried; OfferLine holds for it |
| `SendPipelineObjects.SessionContext.IncrPendingDataSize` | tentacle/src/context.rs:93-96 | Adding to the counter, modulo 2^64 |
| `SendPipelineObjects.SessionContext.DecrPendingDataSize` | tentacle/src/context.rs:99-102 | Taking off the counter, modulo 2^64; NeverWraps holds for it |
| `SendPipelineObjects.Substream.SendInner` | tentacle/src/substream.rs:128-149 | One frame passed on and counted, with the state of the high buffer at that moment; put back, whether or not the flush then fails; or lost |
| `SendPipelineObjects.Substream.SendData` | tentacle/src/substream.rs:152-168 | The two drain loops and the flush, with every way they can fail: the frames passed on are appended high first, then normal; FlushLine and NothingIsLost hold for it |
| `SendPipelineObjects.Substream.HandleProtoEvent` | tentacle/src/substream.rs:256-285 | A message is queued and drained, and any failure, also of the flush, ends the stream; a close clears the normal buffer |
| `SendPipelineObjects.Service.HandleMessage` | tentacle/src/service.rs:475-556 | Each session is sent, and counts, exactly as many copies as its target kind says; a filter, with state of its own, is asked about each session once |

## Left out

- Wakers, executors, channels and sockets: their answers are arguments; a writer's waker is kept only as registered or not.
- Timers: that the interval fires, and when, is an action.
- Cryptographic primitives and hash functions: parameters, with the laws they need.
- The LengthDelimitedCodec around secio frames and discovery messages: library code, taken as a FIFO of frames.
- `RingAeadCipher` and the in-place decryption: same contract as the openssl cipher, except that a frame that is too short leaves the nonce alone.
- `verify_nonce`, ephemeral keys, signatures and the key schedule of the handshake.
- Text forms of multiaddresses: base58, base32 and IP parsing are library code.
- Service dialling, listening, protocol selection, UPnP and transports: I/O.
- `SubstreamReadPart` and `SubstreamWritePart`: the same drain loops as `Substream`.
- The identify and ping protocols: the same codec shapes as discovery.
- Aliasing between a session and the handles it has given away: the session object keeps the other ends of its channels as values.
- MultiaddrVarint.Canonical: rests on the varint library refusing a last byte that is zero or out of range for the width; that library is not part of the repository.
- Multiaddr.Canonical: rests on the same refusal, through the varints of its components.
- Multiaddr.CheckP2pAccepts: rests on the same refusal, through the code and the length of the multihash.
- MultiaddrAddress.AddressesAreEncodings: rests on the same refusal, through Multiaddr.Canonical.
- YamuxLiveSession.LiveSession.SendAll: an error of the socket, which loses the frame at hand and is passed up to the owner of the session, is modelled as the session being dropped.
- SecioChannel.RunInStep: a run has no frame that was sealed and then refused by the socket; after such an error the connection is given up.
- YamuxTheorems.StuckMeansUnread: says nothing about fairness; that a reader does read, and that frames do move, is up to the users and the executor.
- SendPipelineRuns.CounterCoversQueues: an inequality, because messages for protocols that are not open, and buffers that are cleared, are not taken off the counter.
- YamuxPass.PassDelivers: for passes that run to the end; the two early returns throw away the rest of the pass.
