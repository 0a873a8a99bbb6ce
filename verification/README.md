# Ghost: a verified model of the tunnel

Ghost carries IP packets through a stack of layers: a stream multiplexer, a frame codec, a write
coalescer that pads what it emits, a sealed framing with one AEAD frame per write, and the wire; the
receiver undoes the same layers in reverse. This project models that stack and the state machines
around it, and proves what they promise.

The main results:

- **Delivery.** For every run of a client and a server joined by two directions of the full stack,
  under any interleaving of streams, pings, padding, flushes, timers, cover traffic, closes and reads:
  on every stream that no act of the run closes, the messages sent are those enqueued at the receiver
  followed by those in flight, byte for byte and in order; after a close, all messages before it;
  always a prefix. Packet boundaries survive (`Delivery`). As deployed this is so exactly for chunks of
  up to 60133 bytes and up to 2^31 streams a side (`Limits`); over a bare transport for every size.
- **The stack is a queue.** One direction of encoder, coalescer, sealed framing, wire and decoder
  refines a FIFO queue of frames into which only PADDING is inserted, and it refuses a frame exactly
  when buffer and frame exceed one sealed frame (`Links`).
- **Settling.** Without new sends every run does a bounded amount of work. From every state a run
  reaches, boundedly many dispatches and callbacks lead to rest, and then every stream that no act
  closed has been delivered in full, and boundedly many reads with buffers of any positive sizes take
  all of it (`Quiescence`); what is on its way to an end that has closed its tunnel stays there
  (`Strands`).
- **The program's objects.** The cipher, the coalescer, encoder and decoder, streams and connections
  are classes updated in place; each method is proved to compute the layer's function or to be a
  step of the two-endpoint system. Two stacks wired crosswise after the handshake start that system,
  and when both ends act, in any order and on any of their streams, what the objects hold is what
  that run of it ends in: delivery is proved of the objects themselves (`FrameCiphers`, `Coalescers`,
  `FrameIO`, `Endpoints`, `Tunnels`).
- **Around the stack.** The bitmap replay window against the ideal one; the server's session
  registry; the client's session rotation and its packet writer, which accounts for every packet and
  writes each to the session active when it looked; the TUN router, by the addresses in the packets;
  the handshake handler that restores what it consumed; the asymmetry padding, where it lands and its
  fixpoint.

| file | content |
|---|---|
| `Bytes`, `Io` | bytes, big-endian integers, errors, a byte transport whose reads return any amount |
| `Codec`, `FrameIO` | frames, printing and parsing, the encoder and decoder |
| `Crypto`, `SealedRuns`, `FrameCiphers` | the sealed framing: one operation, whole runs, the objects |
| `Coalesce`, `CoalesceRuns`, `Coalescers` | the coalescer: one operation, whole runs, the object |
| `Links`, `LinkRuns` | one direction of the stack as a queue of frames: one operation, whole runs |
| `Streams`, `Mux`, `Endpoints`, `Tunnels` | streams and connections as values, as objects, and two of them joined |
| `Network`, `Delivery`, `Limits`, `Quiescence`, `Strands`, `Endings` | two endpoints: steps and invariant, delivery, its limits, settling, closing |
| `Replay`, `Registry`, `Rotation`, `Clients`, `Router`, `Handshake`, `Asymmetry` | the other components |

Sizes and configuration are the program's own: 8-byte headers, payloads up to 65535, sealed frames up
to 61440 bytes plus a 16-byte tag, flushes at 1300 bytes padded to between 1100 and 1450. Random
draws, timers, the outcome of stopping a timer, the bytes a read returns and the order in which
goroutines act are arbitrary. A `Wire` holds the bytes that will arrive before its stream ends.

Two places where the code does not do all that its layers suggest are stated exactly. The multiplexer
sends frames of up to 65535 bytes, the sealed framing takes 61440: `Links.RefusedExactlyWhenTooLong`
says when a frame is refused, `LinkRuns.LargestSafePayload` and `Limits.LargestFaithful` that 60133
bytes is the most that never is and never costs a stream anything, and `LinkRuns.LargeFramesAreLost`
and `Limits.LargeChunkLosesStream` what any larger one can do. `parseLengthPrefixed` computes a slice
end in 16 bits: `Handshake.ParserAgreesExactlyBelowWrap` says when it agrees with the reader, and
`Handshake.ParserWraps` gives an input on which it does not.

Smaller ones: stream ids wrap, so the open after 2^31 others displaces a stream
(`Limits.ReusedIdLosesStream`); a late `unregister` takes a successor's route (`Router.LateUnregisterHitsSuccessor`), and
`Router.BridgeKeepsRouteExactly` says exactly when a bridge keeps its own; a stream registered after
its connection closed may never end (`Endings.LateStreamWaits`), and
`Endings.EndedExactlyWithoutLateStreams` says when all do; the statistics leave out the bytes that
Close flushes (`closingBytes` in `Coalesce.AccountsSound`); and a comment on the cover interval
(internal/shaper/coalesce.go:39) says that zero disables cover traffic, where the code replaces zero by
25 seconds, as `Coalesce.Defaults` does.

## Model

| member | source | states |
|---|---|---|
| Codec.DecodeEncode | internal/mux/codec.go:24-42 | one printed frame followed by anything parses back to it and leaves exactly the rest |
| Codec.EncodeDecode | internal/mux/codec.go:58-88 | whatever parses is the print of a version-1 frame followed by the rest |
| Codec.Layout | internal/mux/codec.go:30-35 | every byte of a printed frame: version, type, stream id and length most significant byte first, payload |
| Codec.DecodeAllEncodeAll | internal/mux/codec.go:24-88 | a reader of the printed frames obtains exactly those frames and stops at the end, for payloads up to 65535 |
| Codec.EncodeAllDecodeAll | internal/mux/codec.go:58-88 | bytes that parse to their end are the print of what was parsed |
| Codec.CompleteIffPrinted | internal/mux/codec.go:58-88 | the byte strings that parse to their end are exactly the prints of frame lists |
| Codec.DecodeAllAppend | internal/mux/codec.go:58-88 | parsing distributes over concatenation at frame boundaries |
| Codec.UniqueDecoding | internal/mux/codec.go:24-88 | a print that begins another print is the print of its first frames: no ambiguous prefix |
| Codec.BytesConsumed | internal/mux/codec.go:58-88 | reading n frames consumes exactly 8 bytes plus the payload of each |
| Io.ReadFull | internal/mux/codec.go:60-78 | a full read returns the next bytes, or those left and the right error, however reads split them |
| FrameIO.Build | internal/mux/codec.go:30-35 | the buffer filled by index is the frame's encoding |
| FrameIO.Encoder.WriteFrame | internal/mux/codec.go:24-42 | the whole new state of coalescer, nonce and wire, and the error, are those of sending the frame down the stack |
| FrameIO.Decoder.ReadFrame | internal/mux/codec.go:58-88 | frame, error and new receiving state are those of reading one frame up the stack, for any chunking |
| FrameIO.BareDecoder.ReadFrame | internal/mux/codec.go:58-88 | on a bare transport: the first frame of the bytes to come, consuming just that, or the error for each way they can fail to hold one |
| Crypto.OpenSeal | internal/auth/session.go:35-58 | a sealed plaintext opens exactly under its own key and nonce |
| Crypto.OpenSealedFrame | internal/crypto/frame_cipher.go:108-135 | a sealed frame at the front passes the length checks and is taken whole; it is accepted exactly when sealed in the receiver's own state |
| Crypto.OpenNextByLength | internal/crypto/frame_cipher.go:108-128 | for every announced length, bytes and state: which error a frame is refused with and what is left on the wire; it opens exactly if its bytes are the seal of that plaintext in the receiver's state |
| Crypto.CleanAppend | internal/crypto/frame_cipher.go:64-92 | a frame sealed under the next free nonce extends the plaintexts on the wire by its own |
| Crypto.SendIntact | internal/crypto/frame_cipher.go:64-92 | a write adds exactly its plaintext to what the receiver can read, or nothing if it reports an error; nonce difference stays the frames in flight |
| Crypto.ReadIntact | internal/crypto/frame_cipher.go:97-135 | a read returns the next bytes that can be obtained, as many as fit or all that is open, and opens a frame only if nothing is; otherwise the end of the stream, or of the reader's own closing |
| Crypto.ReadFullIntact | internal/crypto/frame_cipher.go:97-135 | a full read returns exactly the next n bytes however sealed frames cut them |
| Crypto.ReadFullShort | internal/mux/codec.go:60-78 | if fewer bytes can be obtained, it takes those and reports the end, unexpected if the stream ended after some of them |
| SealedRuns.RoundTrip | internal/crypto/frame_cipher.go:64-140 | for every run, the reader's closing included: bytes written are bytes read, then held, then sealed on the wire, in order; the nonces differ by the frames in flight |
| SealedRuns.OnlyAPrefixGetsThrough | internal/crypto/frame_cipher.go:97-135 | with sealed frames dropped, repeated, reordered or foreign, and reads carrying on after errors, what is read is a prefix of what was sent; once all is consumed, exactly the frames that were awaited when they came |
| SealedRuns.UndisturbedAllAccepted | internal/crypto/frame_cipher.go:97-135 | frames that arrive as sealed are all accepted |
| FrameCiphers.Session.Encrypt | internal/auth/session.go:35-44 | seals under the current nonce and advances it; only an exhausted nonce fails |
| FrameCiphers.Session.Decrypt | internal/auth/session.go:49-58 | opens under the current nonce; the nonce advances exactly when opening succeeds |
| SealedRuns.NoncesCount | internal/auth/session.go:60-75 | what the two nonces tell: the sender's has advanced once per write that became a sealed frame, so a write is refused for its nonce exactly after MAX_NONCE - start of them; the receiver's once per plaintext opened, and those are the bytes read and held |
| FrameCiphers.FrameCipher.Write | internal/crypto/frame_cipher.go:64-92 | error, nonce and bytes put on the wire are those of the sealed framing's send; on a closed connection the frame is sealed and refused |
| FrameCiphers.FrameCipher.Open | internal/crypto/frame_cipher.go:108-128 | takes and opens the next sealed frame, with the error and the bytes left for each way it can fail |
| FrameCiphers.FrameCipher.Read | internal/crypto/frame_cipher.go:97-135 | bytes returned, error, nonce, leftover buffer and wire are those of the sealed framing's read, before and after closing |
| FrameCiphers.FrameCipher.Close | internal/crypto/frame_cipher.go:138-140 | the inner connection is closed in both directions: nothing more is written or taken off it, what is open can still be read |
| FrameCiphers.FrameCipher.Fill | internal/mux/codec.go:60-78 | repeated reads until the buffer is full compute the full read of the sealed framing |
| Coalesce.Defaults | internal/shaper/coalesce.go:44-60 | every setting is kept or replaced by its default, with the condition for that; all are kept exactly when they all make sense |
| Coalesce.DefaultsSettle | internal/shaper/coalesce.go:44-60 | defaulting twice is defaulting once; the largest size ends up below the smallest exactly when that is set above 1450 and above the largest |
| Coalesce.FlushSize | internal/shaper/coalesce.go:157-218 | a flush is the whole buffer and at most one padding frame last; unpadded at least target - 8 bytes, padded exactly the target (or the largest padding frame) |
| Coalesce.TargetReaches | internal/shaper/coalesce.go:170-174 | the size aimed at is any size between the two bounds, for some draw, and no other |
| Coalesce.FlushCounts | internal/shaper/coalesce.go:157-218 | a flush counts itself once with its bytes and its padding; it forgets the timer, whose callback still comes exactly if Stop was too late |
| Coalesce.WriteMoves | internal/shaper/coalesce.go:115-138 | accepted bytes wait after the buffered ones, or leave after them in one emission exactly when the threshold is reached; a closed coalescer refuses and changes nothing |
| Coalesce.TimerMoves | internal/shaper/coalesce.go:141-149 | a callback, also a stale one, emits the buffer exactly if the coalescer is open and holds any |
| Coalesce.CoverMoves | internal/shaper/coalesce.go:222-242 | a tick emits one padding frame of the size drawn exactly if the coalescer is open and empty, and otherwise changes nothing |
| Coalesce.CloseMoves | internal/shaper/coalesce.go:245-263 | the first Close emits exactly what is buffered, unpadded; another changes nothing |
| Coalesce.FlushSound | internal/shaper/coalesce.go:157-218 | a flush keeps the state sound and its accounts exact |
| Coalesce.WriteSound | internal/shaper/coalesce.go:115-138 | open: buffer below the threshold, a non-empty buffer has a callback pending, totals account for every byte |
| Coalesce.TimerSound | internal/shaper/coalesce.go:141-149 | the same after a callback, including one whose Stop came too late |
| Coalesce.CoverSound | internal/shaper/coalesce.go:229-240 | the same after a cover tick |
| Coalesce.CloseSound | internal/shaper/coalesce.go:245-263 | after Close nothing is buffered and no timer is known |
| Coalesce.ArmedCount | internal/shaper/coalesce.go:115-149 | a write arms at most one callback, and none if it flushes; a callback runs once |
| CoalesceRuns.Transparent | internal/shaper/coalesce.go:110-263 | for every run of writes, timers, cover and Close: emissions are whole frames with at most one PADDING last, they decode to the written frames in order with only PADDING inserted, the rest is buffered, nothing is stranded |
| Coalescers.BuildPadding | internal/shaper/coalesce.go:201-205 | the bytes filled in place are the encoding of a PADDING frame on stream 0 |
| Coalescers.CoalescingConn.Write | internal/shaper/coalesce.go:115-138 | new state, emission through the cipher, count and error are those of the coalescer's write |
| Coalescers.CoalescingConn.TimerFlush | internal/shaper/coalesce.go:141-149 | the same for a timer callback |
| Coalescers.CoalescingConn.FlushLocked | internal/shaper/coalesce.go:157-218 | the same for a flush, padded or not |
| Coalescers.CoalescingConn.AppendPadding | internal/shaper/coalesce.go:168-211 | appends the padding frame that reaches the target, or nothing |
| Coalescers.CoalescingConn.CoverTick | internal/shaper/coalesce.go:229-240 | the same for a tick of the cover loop |
| Coalescers.CoalescingConn.Close | internal/shaper/coalesce.go:245-263 | the same for Close, which leaves the inner connection closed, and with it both directions |
| Coalescers.CoalescingConn.Stats | internal/shaper/coalesce.go:266-270 | the totals reported balance: bytes out, buffered and flushed by Close are bytes accepted, padding and eight per padded flush; padded flushes are flushes of at least one padding byte |
| Links.ShipIsEnqueue | internal/shaper/coalesce.go:110-218 | whatever the coalescer accepts and emits, the frames in flight grow only at the end, by the accepted frames and then at most one padding frame |
| Links.SendIsEnqueue | internal/mux/codec.go:24-42 | sending a frame that fits enqueues it and at most one padding frame |
| Links.TimerIsPadding | internal/shaper/coalesce.go:141-149 | a timer callback changes the queue by at most one padding frame |
| Links.CoverIsPadding | internal/shaper/coalesce.go:222-242 | so does a cover tick |
| Links.ShutLosesNothing | internal/shaper/coalesce.go:245-263 | closing keeps every frame in flight |
| Links.ClosedRefuses | internal/shaper/coalesce.go:119-121 | a closed direction refuses every frame unchanged |
| Links.CutKeeps | internal/shaper/coalesce.go:262 | an end that closes leaves everything on its way to it where it is |
| Links.ReceiveIsDequeue | internal/mux/codec.go:58-88 | the receiver obtains the first frame in flight, whole; or is told of the end, exactly when it can obtain no other: of the stream's when nothing that left the sender remains, of its own closing when it closed |
| Links.ReadFrameDecodes | internal/mux/codec.go:58-88 | on an honest wire the decoder obtains the frame, the rest and the error that parsing the written bytes gives, wherever writes and sealed frames cut them |
| Links.RefusedExactlyWhenTooLong | internal/crypto/frame_cipher.go:68-70 | an open direction refuses a frame if and only if buffer, header and payload exceed 61440 bytes; the buffer is then lost |
| LinkRuns.RunKeepsGood | internal/shaper/coalesce.go:110-263 | over every run of one direction, with frames of every size and refusals, both ends go on agreeing and everything on its way is whole frames |
| LinkRuns.LargestSafePayload | internal/crypto/frame_cipher.go:33-70 | as deployed, a frame of n payload bytes is accepted on every reachable open direction if and only if n <= 60133 |
| LinkRuns.LargeFramesAreLost | internal/mux/stream.go:86-103 | every larger frame the multiplexer allows is refused when it follows a frame of 1291 bytes, which is lost with it |
| Streams.ArriveSound | internal/mux/stream.go:130-151 | queue, offset, error and history stay consistent when an event arrives |
| Streams.ReadSound | internal/mux/stream.go:53-74 | and when a reader takes part or all of a message |
| Streams.ReadStaysInMessage | internal/mux/stream.go:61-71 | a read never spans two messages; it fills the caller's buffer or gets all that is left of the message, so a reader with room gets one whole message |
| Streams.ReadReports | internal/mux/stream.go:53-74 | a read returns bytes exactly while messages are queued, the end exactly after them, and waits exactly if there is neither |
| Streams.ReadersGetEverything | internal/mux/stream.go:53-74 | with buffers of any positive sizes, as many reads as bytes and messages are queued empty the queue, and then everything enqueued has been read in order |
| Streams.Conserved | internal/mux/stream.go:53-74 | bytes enqueued are the bytes read followed by the bytes still queued |
| Streams.EndIsPermanent | internal/mux/stream.go:130-151 | the end is reported exactly when every message was read, never goes away, and stops deliveries |
| Streams.ChunksConcat | internal/mux/stream.go:85-104 | the chunks of a write are its bytes, and all but the last are 65535 bytes |
| Streams.OneMessageIff | internal/mux/stream.go:85-104 | a write is one message if and only if it is not empty and at most 65535 bytes |
| Mux.IdsCollideOnlyAfterWrap | internal/mux/conn.go:115-121 | ids of the two sides never meet; on one side two opens share an id if and only if a multiple of 2^31 opens lies between |
| Mux.OpenSound | internal/mux/conn.go:115-135 | below 2^31 opens a new stream has an id of its own parity that no other stream has |
| Mux.CloseStreamSound | internal/mux/stream.go:108-126 | closing ends the stream's own reader after what is queued and its writers, sends at most one STREAM_CLOSE, changes no other stream, and keeps the connection sound |
| Mux.CloseSound | internal/mux/conn.go:169-179 | ending every stream in the table keeps the connection sound |
| Mux.DispatchSound | internal/mux/conn.go:200-254 | so does every arriving frame that is in its place |
| Mux.DispatchLedger | internal/mux/conn.go:200-254 | an arriving frame adds exactly itself to what was seen, and its reply, if accepted, to what was sent |
| Network.StartInv | internal/auth/noise.go:84-145 | paired as the handshake pairs them, the two endpoints' cipher states start both directions in agreement, and the invariant of the two-endpoint system holds |
| Network.BareStartInv | internal/mux/conn.go:54-74 | two connections joined by a bare transport satisfy the invariant for payloads up to 65535 |
| Network.StepAKeepsInv | internal/mux/conn.go:115-254 | every act of an endpoint, closing its tunnel in both directions included, keeps the invariant: sent events are seen events followed by those in flight; readers stop only after their own end closed, or the peer's did and everything arrived |
| Network.ArrivesInPlace | internal/mux/conn.go:202-226 | the next frame is one its receiver can place: data and closes for known streams, an open for a new id of the peer's parity |
| Delivery.RunKeepsInv | internal/mux/conn.go:115-254 | the invariant holds in every reachable state |
| Delivery.Conservation | internal/mux/stream.go:53-141 | messages sent are messages enqueued, then those the decoder can reach, then those in the sender's buffer, for a stream without an end at its receiver (`Delivery.RunKeepsOngoing`: which those are); the same of their bytes, split into read and unread |
| Delivery.ConservationBeforeOpen | internal/mux/conn.go:115-135 | before the receiver knows a stream, all its events are in flight, its STREAM_OPEN first and once |
| Delivery.AlwaysAPrefix | internal/mux/stream.go:53-151 | also after closes: messages enqueued, bytes read and whole-message reads are prefixes of what was sent |
| Delivery.EverythingBeforeClose | internal/mux/conn.go:219-226 | a stream its peer closed got every message before the close, and its reader learns of the end only after reading all of them |
| Delivery.FramesFindTheirStream | internal/mux/conn.go:202-226 | a DATA or STREAM_CLOSE frame in flight names a stream in the receiver's table, or closed before, or whose STREAM_OPEN is ahead of it |
| Delivery.PingsReturnOnce | internal/mux/conn.go:228-242 | every PING yields one PONG with its cookie, in order |
| Delivery.ClosedOnlyByClosing | internal/mux/stream.go:108-126 | a STREAM_CLOSE is sent for a stream by a Close of that stream and by nothing else |
| Delivery.RunKeepsOngoing | internal/mux/conn.go:169-226 | over every run a stream gets no end at its receiver, nor is one on the way, unless an act closes that stream, a tunnel, or the receiver's connection |
| Delivery.RunConserves | internal/mux/stream.go:53-141 | from the start of a connection: on every stream that no act of the run closes, messages sent are messages enqueued followed by those in flight, and their bytes are those read, queued and in flight, in both directions |
| Delivery.EveryRunIsFaithful | internal/mux/conn.go:50-254 | the headline: as deployed, with payloads up to 60133, every run keeps both directions in order and exactly once, and every stream that no act of the run closes is conserved exactly; a stream the receiver does not know yet is in flight whole, its STREAM_OPEN first |
| Delivery.EveryBareRunIsFaithful | internal/mux/stream.go:85-104 | over a bare transport the same holds of every run with payloads of every size |
| Limits.LargestFaithful | internal/crypto/frame_cipher.go:33-70 | every deployed run with chunks up to n bytes keeps both directions faithful if and only if n <= 60133 |
| Limits.LargeChunkLosesStream | internal/mux/stream.go:86-103 | for every larger chunk, a run that loses an accepted STREAM_OPEN and message with it |
| Limits.MostOpens | internal/mux/conn.go:115-121 | every deployed run in which each side opens at most n streams keeps both directions faithful if and only if n <= 2^31 |
| Limits.ReusedIdLosesStream | internal/mux/conn.go:115-121 | after 2^31 opens the next one reuses id 1 and takes the first stream's place, while both STREAM_OPENs are on their way |
| Strands.ClosedEndStrands | internal/shaper/coalesce.go:262 | once an end has closed its tunnel and dispatched what was open, no run dispatches anything on its way to it; it all stays, in order |
| Strands.KickStrands | cmd/ghost-server/main.go:165-191 | a server that closes a session with a client's STREAM_OPEN on its way never learns of the stream, whatever follows |
| Endings.StepEnds | internal/mux/conn.go:115-179 | an act leaves a stream of a closed connection without an end if and only if it registers one |
| Endings.EndedExactlyWithoutLateStreams | internal/mux/conn.go:169-226 | for every run: after a connection is done all streams in its table have ended, at every moment, if and only if none was registered later |
| Endings.LateStreamWaits | internal/mux/conn.go:169-198 | a stream registered that late, with the read loop over, stays blocked whatever happens, until its owner closes it |
| Quiescence.StepLowers | internal/mux/conn.go:200-253 | every dispatch and timer callback that finds work lowers the measure of the frames and timers in flight |
| Quiescence.SettlingEnds | internal/mux/frame.go:50-53 | keepalives cannot cascade: without new sends the number of effective steps is bounded by the measure |
| Quiescence.SettlesWithin | internal/mux/conn.go:200-253 | from every state with that many nonces left, some run of at most that many dispatches and callbacks comes to rest |
| Quiescence.AtRestAllDelivered | internal/mux/conn.go:200-253 | at rest, everything has arrived at an end that has not closed its own tunnel: it has every stream of the other, and every living one got all its messages, as did every ongoing stream; if neither closed, every ping is answered |
| Quiescence.EverythingArrives | internal/mux/conn.go:200-253 | from every state a deployed run reaches with that many nonces left, some run of boundedly many dispatches and callbacks comes to rest with every stream that no act closed delivered in full, in both directions |
| Quiescence.EverythingArrivesBare | internal/mux/conn.go:200-253 | over a bare transport the same of every run, with payloads of every size |
| Quiescence.ReadersFinish | internal/mux/stream.go:53-74 | a stream delivered in full is then read in full, by as many reads of any positive sizes as bytes and messages are queued: the bytes read are the bytes sent |
| Endpoints.Stream.Read | internal/mux/stream.go:53-74 | the bytes put into the caller's array, and the read step of the system |
| Endpoints.Stream.Write | internal/mux/stream.go:77-105 | the chunk loop performs the frame sends of the write until one is refused, and returns their count and error |
| Endpoints.WriteAllIsRun | internal/mux/stream.go:77-105 | a write is a run of the system; its count is the bytes of exactly the messages it sent |
| Endpoints.WriteCounts | internal/mux/stream.go:85-104 | the whole length is returned if and only if there is no error, and then all chunks were sent in order |
| Endpoints.Stream.Close | internal/mux/stream.go:108-126 | the close step of the system; a second Close does nothing |
| Endpoints.Stream.DeliverData | internal/mux/stream.go:130-141 | enqueues the whole message unless the stream has ended |
| Endpoints.Stream.DeliverErr | internal/mux/stream.go:144-151 | records the first error for good |
| Endpoints.Conn.OpenStream | internal/mux/conn.go:115-135 | the open step; on failure the stream is taken back out of the table and the id stays used |
| Endpoints.Conn.SendPing | internal/mux/conn.go:138-149 | the ping step |
| Endpoints.Conn.SendPadding | internal/mux/conn.go:152-166 | the padding step exactly for sizes 1 to 65535, else an error and no change |
| Endpoints.Conn.Close | internal/mux/conn.go:169-179 | ends exactly the streams in the table, once |
| Endpoints.Conn.Dispatch | internal/mux/conn.go:200-254 | the whole new state of both endpoints after one arriving frame, with its reply |
| Endpoints.Conn.ReadNext | internal/mux/conn.go:190-197 | one round of the read loop is one dispatch step; the first error ends the loop and closes the connection |
| Endpoints.Conn.ReadLoop | internal/mux/conn.go:187-198 | the loop is a run of dispatch steps; it ends at the first error, its own end's closing included, with the connection closed, or is left where the next read blocks because the peer's end is still open |
| Endpoints.Conn.TimerActs | internal/shaper/coalesce.go:141-149 | a timer callback under a connection is a step of the system |
| Endpoints.Conn.CoverActs | internal/shaper/coalesce.go:222-242 | so is a tick of its cover loop |
| Endpoints.Conn.ShutActs | internal/shaper/coalesce.go:245-263 | and so is its Close, which ends both directions at this end |
| Tunnels.Connect | cmd/ghost-server/main.go:232-262 | two stacks of new objects wired crosswise after the handshake share nothing but the wires and are the start of the two-endpoint system |
| Tunnels.PairFlips | internal/mux/conn.go:54-74 | both ends see the same system, each from its side |
| Tunnels.Acts | internal/mux/conn.go:115-254 | whatever one end does (open, write a chunk, close, read, ping, pad, a read-loop round, a timer, cover, closing connection or tunnel), the pair of ends makes that step of the system |
| Tunnels.Play | internal/mux/conn.go:50-254 | both ends act in any order, on any of their streams: the objects go through that run of the system |
| Tunnels.Live | cmd/ghost-server/main.go:232-262 | after the handshake, for every sequence of acts, what the two connection objects hold is what that run ends in |
| Tunnels.LiveFaithfully | cmd/ghost-server/main.go:250-262 | as deployed, those objects are faithful in both directions, and every stream that no act closed is conserved exactly |
| Replay.MarkIsIdeal | internal/auth/replay.go:33-64 | Mark accepts exactly the nonces not accepted before that are less than 64 behind the highest; bit i stays set if and only if head - i was accepted, with no bit above head |
| Replay.RunIsIdeal | internal/auth/replay.go:33-64 | for every sequence of 64-bit nonces the bitmap window answers as the ideal set |
| Replay.AcceptedOnce | internal/auth/replay.go:30-32 | no nonce is accepted twice |
| Replay.ReplayWindow.Mark | internal/auth/replay.go:33-64 | the object's Mark is that function, on the fields in place |
| Replay.ReplayWindow.Head | internal/auth/replay.go:67-69 | the highest nonce accepted, or 0 |
| Replay.ReplayWindow.Reset | internal/auth/replay.go:72-76 | the zero window, which has accepted nothing |
| Registry.InstallSound | cmd/ghost-server/main.go:222-280 | kicking the old session and installing the new keeps the registry sound |
| Registry.InstallMeans | cmd/ghost-server/main.go:222-280 | the new session is live, newest, and the one its client's entry names; the one named before is closed; nothing else changes |
| Registry.DieSound | cmd/ghost-server/main.go:284-285 | a multiplexer that ends makes its session dead and changes nothing else |
| Registry.ReapSound | cmd/ghost-server/main.go:282-291 | a late reaper never evicts a successor: only its own session leaves the map; the reaper of a dead session marks it reaped, and no entry names it any more |
| Registry.AtMostOneLiveSession | cmd/ghost-server/main.go:165-291 | in every reachable state a live session is the one its client's entry names, so there is at most one; once reapers have run the map holds exactly the live sessions |
| Registry.SessionRegistry.CloseSession | cmd/ghost-server/main.go:165-191 | only the first close has an effect |
| Registry.SessionRegistry.OnAuth | cmd/ghost-server/main.go:197-280 | a client not allowed changes nothing; any other is installed |
| Registry.SessionRegistry.ReapSession | cmd/ghost-server/main.go:284-291 | the reaper's whole effect on map and session |
| Registry.SessionRegistry.MuxDone | cmd/ghost-server/main.go:284-285 | a session's multiplexer ends by itself: the session is dead, the map unchanged until its reaper runs |
| Rotation.StepOwned | cmd/ghost-client/main.go:399-492 | every step of rotation, watchdog, grace period and shutdown keeps exactly one owner per open session |
| Rotation.StepPackets | cmd/ghost-client/main.go:313-371 | every step keeps packets in reading order through queue, writer and sessions |
| Rotation.StepAccounts | cmd/ghost-client/main.go:313-371 | every step keeps each packet read in exactly one place |
| Rotation.StepTraced | cmd/ghost-client/main.go:347-371 | every step keeps that the session the writer is at was active when it loaded it, holding this packet, and that accepted packets went to such a session, open then |
| Rotation.AcceptedExactly | cmd/ghost-client/main.go:356-367 | an open session takes the packet unless its write fails, a closed one never; otherwise it stays in hand until the third try |
| Rotation.RotationReplaces | cmd/ghost-client/main.go:417-437 | the new session becomes active at the swap; once the grace period is over the replaced one is closed, and no other has changed |
| Rotation.WatchdogReplaces | cmd/ghost-client/main.go:468-480 | the same of the watchdog, which closes the replaced one itself |
| Rotation.ShutdownCloses | cmd/ghost-client/main.go:487-492 | whatever happens between its two halves, shutdown closes the session that was active at the first |
| Rotation.EveryRun | cmd/ghost-client/main.go:313-492 | for every interleaving: each open session has one owner, none is closed while active except at shutdown, and once the loops hold none all but the active one are closed; close is called at most once for a session, and once more for the one shutdown took; every packet read is in exactly one place: accepted, in hand, waiting, dropped when 512 waited, or given up after three tries; accepted ones are in order, each by the session that was active when the writer loaded it with that packet in hand, still open then |
| Clients.Client.CloseSession | cmd/ghost-client/main.go:55-80 | only the first close has an effect |
| Clients.Client.ReadTun | cmd/ghost-client/main.go:317-342 | a packet is queued in order, or dropped exactly when 512 wait |
| Clients.Client.SendNext | cmd/ghost-client/main.go:347-371 | under any interference of the other goroutines the retry loop is a run of the state machine; it appends its packet once to what was accepted, by a session that was active when loaded with this packet in hand and open then, and by the active one if nobody interferes; or gives it up, and that after exactly three tries |
| Router.KeysSeparateFamilies | internal/tun/router.go:319-391 | IPv4 and IPv6 keys never coincide; a packet the device takes has both keys |
| Router.AddressesOf4 | internal/tun/router.go:319-391 | of an IPv4 packet put together from its fields the keys are its source and destination address, and the device takes it exactly if its total length is at least 20 and not beyond its end |
| Router.AddressesOf6 | internal/tun/router.go:319-391 | of an IPv6 packet put together from its fields the keys are its addresses, and the device takes it |
| Router.KeysAreAddresses | internal/tun/router.go:351-391 | conversely, a packet with keys is put together from them |
| Router.DispatchSound | internal/tun/router.go:176-211 | a packet goes to the channel of its destination exactly when there is room; no other channel changes and none is written after its close |
| Router.TakesFirst | internal/tun/router.go:264-275 | a writer takes the packet that has waited longest, which is the next accepted one, and changes no other channel |
| Router.RunSound | internal/tun/router.go:176-230 | register, unregister, dispatch and take keep the table sound |
| Router.EveryRun | internal/tun/router.go:176-230 | for every run: a channel only ever held packets for its key, in device order, at most 512, handed on first in first out; it dropped packets only when 512 were waiting, and a registered one accepted all others for its key; none is closed twice or written after its close |
| Router.AnswersReachTheirClient | internal/tun/router.go:245-253 | an answer to a client's first packet lands in that client's channel |
| Router.PacketsReachTheirAddress | internal/tun/router.go:236-253 | once a client has sent a packet from its address, a packet built to that address is queued for it, in both families |
| Router.KeepsRouteExactly | internal/tun/router.go:213-230 | over every run a channel keeps its route and stays open if and only if nobody registers or unregisters its key meanwhile |
| Router.NewChannelKeepsRouteExactly | internal/tun/router.go:213-219 | a channel just registered, whatever was there before: the same |
| Router.BridgeKeepsRouteExactly | internal/tun/router.go:245-253 | of a bridge: if and only if its client begins no other bridge and none of that client ends, so earlier ones must have unregistered before it registered |
| Router.LateUnregisterHitsSuccessor | internal/tun/router.go:221-230 | the run on which that fails: a predecessor's late unregister removes and closes its successor's channel |
| Router.TunRouter.Register | internal/tun/router.go:213-219 | a new empty channel becomes the key's route |
| Router.TunRouter.Unregister | internal/tun/router.go:221-230 | the route goes and its channel is closed, once |
| Router.TunRouter.ReadLoop | internal/tun/router.go:176-211 | the loop dispatches every packet in order |
| Router.TunRouter.Connect | internal/tun/router.go:236-260 | registers exactly clients whose first packet is IP, under its source address |
| Handshake.ReadInvertsWrite | internal/camouflage/h2_server.go:211-239 | the client's reader inverts the server's writer if and only if the message is not empty, up to 65535 bytes |
| Handshake.ParserAgreesExactlyBelowWrap | internal/camouflage/h2_server.go:195-207 | the buffer parser agrees with the reader except exactly on messages of 65534 and 65535 bytes, where its slice end wraps |
| Handshake.ParserWraps | internal/camouflage/h2_server.go:206 | a buffer on which it wraps |
| Handshake.Body.Read | internal/camouflage/h2_server.go:111-114 | reading a restored body yields the consumed pieces, then the rest, losing nothing; while a piece is left, as much of it as fits |
| Handshake.Probe | internal/camouflage/h2_server.go:106-144 | reads exactly what the prefix announces; pieces taken and bytes left are the request |
| Handshake.WriteMessage | internal/camouflage/h2_server.go:228-239 | refuses exactly messages above 65535 bytes; otherwise prefix and message are written, or, exactly if a write fails, a beginning of them |
| Handshake.Handle | internal/camouflage/h2_server.go:100-188 | every fallback branch hands on the original bytes; the callback is asked at most once with exactly the declared 1 to 4096 bytes; on success the client gets the answer, and exactly if the callback opened a tunnel then what that sends, the tunnel what follows the message, all of it if the request is copied to its end; a failure is reported exactly if a write failed |
| Handshake.CopyChunk | internal/camouflage/h2_server.go:252-271 | a chunk is moved in order; exactly a failing write loses only what followed it |
| Handshake.Bridge | internal/camouflage/h2_server.go:243-276 | however the two copies interleave, each side gets the first bytes of the other in order, and all of them if that copy ended the bridge; otherwise a write failed |
| Handshake.ReadReply | internal/camouflage/h2_server.go:211-225 | the client reads the message at the front of the stream, leaving what follows |
| Asymmetry.PaddingLandsOnTarget | internal/shaper/asymmetry.go:61-104 | below the band only downstream is padded, above it only upstream, and the padded counter ends within one byte below its ideal value; inside it, and before anything went up, nothing is |
| Asymmetry.PaddingIsFixpoint | internal/shaper/asymmetry.go:61-104 | charged with its own padding, the enforcer asks for none |
| Asymmetry.AsymmetryEnforcer.PaddingNeeded | internal/shaper/asymmetry.go:61-104 | the two amounts, branch by branch |
| Asymmetry.AsymmetryEnforcer.RecordUp | internal/shaper/asymmetry.go:34-36 | charges the upstream counter only |
| Asymmetry.AsymmetryEnforcer.RecordDown | internal/shaper/asymmetry.go:39-41 | charges the downstream counter only |
| Asymmetry.PaddingTick | internal/shaper/shaper.go:168-191 | on a live connection the chunk loop is a run of padding acts of 1 to 8192 bytes; it sends exactly the padding needed, charges what it sent to the direction that needs it, also when a write fails, and leaves a fixpoint |

## Left out

- Noise cryptography, key generation, base64 and constant-time behaviour: library code; an ideal sealed frame with 64-bit keys stands for the AEAD.
- TLS, HTTP/2, header camouflage, the fallback proxy, TUN devices, configuration files: I/O plumbing.
- Intervals and deadlines: timers, cover ticks, pings and rotation fire at any time; the ping timeout of `pingLoop`, which only closes the connection, is covered by closing at any time.
- The NetworkManager plugin: what its interleavings promise depends on its environment.
- Samplers, bursts, traffic profiles and the detection harness: statistics.
- Goroutines act in atomic steps, each method of a class being one; a Write interrupted by a Close of its stream is covered because the system allows chunks on closed streams.
- Concurrent callers of `FrameCipher.Write`: the coalescer is the only writer and holds its lock.
- FrameCiphers.Session.Encrypt: takes no associated data, which every caller leaves empty, and has no uninitialised session, which the handshake never builds.
- FrameCiphers.Session.Decrypt: the same.
- FrameCiphers.FrameCipher.Write: the inner connection accepts every write until this end closes it; a transport that fails earlier would discard the coalescer's buffer. Writes towards a peer that has closed its end go on being accepted and stay undelivered, where in the program they fail at some later time.
- FrameCiphers.FrameCipher.Open: the bytes below the sealed framing end with an end of stream, not with another transport error.
- Blocked reads: `Stream.Read` and `Conn.ReadLoop` report that they would block instead of waiting.
- Statistics, byte counters and the lengths of histories are unbounded integers; the program's wrap at 64 bits. Stream ids do wrap at 32 bits.
- Floating-point ratios are exact reals, so rounding at very large counts is not captured.
- The stream objects displaced by a peer that reuses an id leave the model's map; two honest endpoints reuse no id up to 2^31 opens.
- Fields of `Conn` that only measure liveness (`lastPongUnix`, `pingSentUnix`), and the `onStream` callback that hands new streams to the application.
- `TunRouter.Bridge` beyond registration: its two copy goroutines; route lookup and channel send of `readLoop` are one step.
- Links.SendIsEnqueue: frames above the safe size are excluded here; what happens to them is `Links.RefusedExactlyWhenTooLong`.
- Delivery.EveryRunIsFaithful: states runs with payloads up to 60133 (`Limits.LargestFaithful`: no more is possible), at most 2^31 opens a side (`Limits.MostOpens`: no more is possible) and nonces below their limit, because the code refuses or reuses beyond those.
- Replay.AcceptedOnce: about one window; `Reset` forgets what was accepted, as in the program.
