# A verified model of the TACACS+ client

TACACS-rs is a client of the TACACS+ protocol (RFC 8907) that multiplexes many
accounting sessions over one byte stream. This project models it from the bytes
up and proves what it promises:

- **Wire format.** The 12-byte header, the accounting request and reply bodies
  with their variable-length parts, and the tables of enumerations
  (`Primitives`, `Enumerations`, `Headers`, `Cursors`, `AccountingRequests`,
  `AccountingReplies`, `RequestWireForm`, `Unicode`). Both codecs are proved in
  both directions, with exact bounds, exact acceptance conditions and the reason
  for every rejection; and what they read and write is stated byte by byte, in
  literal codes and offsets, apart from the tables and functions that do it.
- **Obfuscation.** The MD5-chained pad of section 4.5 of RFC 8907, from the
  bytes it hashes to its last block, and the four conversions, copying and in
  place, as exclusive-or bit by bit (`Obfuscation`, `Packets`).
- **Framing.** What the write loop puts on the wire and what the read loop
  recovers from any byte stream, whole, truncated or with a foreign frame put
  in (`Framing`), and exactly which foreign bytes a session can notice
  (`Insertions`).
- **The objects.** Channels, sessions, the session manager, and the two loops
  as tasks that are polled until they would wait (`Channels`, `Sessions`,
  `SessionManagers`, `TcpConnections`).
- **Concurrency.** One connection as a step system: the read loop, the write
  loop, any number of `create_session` and `send_accounting_request` calls, all
  interleaved at every await, with their locks, bounded queues, failures,
  cancellations and drops (`ConnectionSystem`). `CallInvariants`,
  `ConnectionInvariants` and `OutboundInvariants` hold what every step keeps,
  `ConnectionRuns` what every schedule keeps from its start, and
  `ConnectionTheorems` the main results about schedules. `ConnectionStalls`
  proves who is left waiting and for how long, `CallOutcomes` why calls are
  turned away or fail and what outlives what, and `NumberDraws` where sequence
  numbers come from. `RunWitnesses` builds runs that show why some of the claims
  need their conditions, and `RunEndings` runs that get to an end.
- **The mock connection**, its stores and its handler (`MockConnections`), the
  independence of the sessions that share it, and a first exchange end to end
  among them (`MockExchanges`).

Conventions: a byte is an integer below 256 and a cast that truncates is a
remainder; MD5 is any function to 16-byte blocks and the optional key of a
connection carries it; a `String` is a byte string that is valid UTF-8; a panic
is an outcome (`Attempt.Panicked`, or a flag of a method). History fields of the
step system (clock, stamps, marks, what was routed, written, consumed) are read
by no guard; `ConnectionRuns.CallTimed` ties the stamps to positions in the
schedule.

Where the program falls short of what one would expect, the model keeps the
program's behaviour and the exact condition is proved:

- The length field of a request packet is the body length cast to 32 bits, so
  the packet has its announced length, and survives sealing, exactly when the
  body is shorter than 2^32 bytes (`RequestPacketIsSized`,
  `OutboundPacketIsSized`, `OversizedRequestExists`). In any run the peer
  decodes exactly what was written if and only if every written packet has its
  announced length; with a key it always has, because the write loop panics on
  any other packet and on nothing else (`PeerSeesTheQueue`,
  `OnlyUnsizedPacketsPanic`, `TornFrameOnTheWire`). With a key, some run
  panics on a given request if and only if it does not fit; without one, some
  run writes it so that the peer cannot read it back under the same condition
  (`OversizedRequestPanics`, `OversizedRequestIsLost`).
- A session answers at most one call with Ok only when calls do not overlap;
  two overlapping calls may both succeed (`LateCallIsTurnedAway`,
  `TwoSuccessesOverlap`, `TwoCallsMayBothSucceed`).
- The diagrams in libraries/tacacsrs_networking/readme.md (lines 88-97) say that
  a closed socket closes all sessions. The code leaves the session channels open
  until the connection object goes away, and the model follows the code: a call
  that waits on an empty queue can go on if and only if the object is gone
  (`WaitingCallWakes`, `NothingArrivesAfterTheEnd`), and on every connection
  some run strands a call that way (`CallsMayBeStranded`).
- One session with a full queue on which nobody receives stops the read loop,
  and with it every other session and every registration
  (`OneFullSessionStopsAll`). In every run the loop has no step to take if and
  only if it is delivering to such a session (`OnlyFullQueuesHoldUp`), a step
  sets it going again if and only if it is a receive on that session or its
  drop (`ReliefIsExact`), and any packet of the announced length can bring this
  about (`ReadLoopMayBeHeldUp`).
- The read loop always reads the body of an accepted header, to stay in step
  with the stream. Behind a rejected header it does not: what should have been
  the body is read as frames. A session does not notice, whatever follows, if
  and only if these bytes end at a frame boundary and hold no packet of that
  session (`BodyIsReadAsFrames`, `RejectedFrameIsHarmless`,
  `FrameInRejectedBody`).
- `AccountingRequest::from_packet` panics on a body without all its size bytes,
  where `from_bytes` returns an error (`SizeCheckIsRedundant`).
- The mock handler computes `seq_no + 1` in a byte: in a build with overflow
  checks a run panics if and only if one of its requests is numbered 255, which
  every 128th request of a session is (`RunPanics`, `EveryRoundEndsAt255`).

## Model

| member | source | states |
|---|---|---|
| Enumerations.HeaderFlagsFromBits | libraries/tacacsrs_messages/src/enumerations.rs:53-59 | reads back exactly the flag bytes built from 0x01 and 0x04, and rejects every byte with another bit |
| Enumerations.AccountingFlagsFromBits | libraries/tacacsrs_messages/src/enumerations.rs:234-241 | the same for the accounting flags 0x02, 0x04, 0x08 |
| Enumerations.AuthenMethodFromCode | libraries/tacacsrs_messages/src/enumerations.rs:179-193 | accepts a byte if and only if some method has that code, and returns that one |
| Enumerations.AuthenTypeFromCode | libraries/tacacsrs_messages/src/enumerations.rs:78-87 | the same for authentication types |
| Enumerations.AuthenServiceFromCode | libraries/tacacsrs_messages/src/enumerations.rs:102-114 | the same for authentication services |
| Enumerations.AccountingStatusFromCode | libraries/tacacsrs_messages/src/enumerations.rs:245-251 | the same for accounting statuses |
| Headers.ToBytes | libraries/tacacsrs_messages/src/header.rs:71-81 | the slot-by-slot fill leaves exactly the header's encoding in a fresh 12-byte array |
| Headers.EncodeThenDecode | libraries/tacacsrs_messages/src/header.rs:31-85 | decoding inverts encoding for every header, whatever bytes follow |
| Headers.DecodeThenEncode | libraries/tacacsrs_messages/src/header.rs:31-85 | encoding an accepted header reproduces the 12 bytes it came from |
| Headers.Acceptance | libraries/tacacsrs_messages/src/header.rs:31-69 | a header is accepted if and only if there are 12 bytes and the version, type and flag bytes are legal; nothing else is ever a reason to reject |
| Headers.HeadersOnTheWire | libraries/tacacsrs_messages/src/header.rs:31-81 | encoding writes a header byte by byte as literal codes and big-endian numbers, and decoding returns a header if and only if the first 12 bytes are those of that header |
| Headers.Rejection | libraries/tacacsrs_messages/src/header.rs:31-56 | for each error the bytes that cause it, in the order of the checks |
| Cursors.Cursor.ReadU8 | libraries/tacacsrs_messages/src/accounting/request.rs:109-112 | one byte and one position further, or nothing at the end |
| Cursors.Cursor.ReadU16 | libraries/tacacsrs_messages/src/accounting/reply.rs:58-66 | two bytes big-endian, or an error when fewer are left |
| Cursors.Cursor.ReadString | libraries/tacacsrs_messages/src/helpers.rs:5-17 | the next `len` bytes when they are there and valid UTF-8; a short buffer is reported before anything is consumed |
| Unicode.TextIsScalars | libraries/tacacsrs_messages/src/helpers.rs:14 | a byte string passes as a string if and only if it is the UTF-8 encoding, by the arithmetic of RFC 3629, of some sequence of Unicode scalar values |
| AccountingRequests.ComputeSize | libraries/tacacsrs_messages/src/accounting/request.rs:65-86 | the accumulating loop returns 9 plus every announced string length, and hits a bad index exactly when a size byte is missing |
| AccountingRequests.FromBytes | libraries/tacacsrs_messages/src/accounting/request.rs:102-201 | the cursor walk, first error included, is the offset-based decoding |
| AccountingRequests.ReadArgSizes | libraries/tacacsrs_messages/src/accounting/request.rs:154-162 | the first loop reads exactly the size bytes, or fails when one is missing |
| AccountingRequests.ReadArgs | libraries/tacacsrs_messages/src/accounting/request.rs:179-187 | the second loop cuts the arguments out at the offsets the sizes add up to, and stops at the first bad one |
| AccountingRequests.ToBytes | libraries/tacacsrs_messages/src/accounting/request.rs:207-232 | the two pushing loops build the encoding: fixed bytes, size bytes, three strings, joined arguments |
| AccountingRequests.FromPacket | libraries/tacacsrs_messages/src/accounting/request.rs:47-63 | size check, then decoding; panics where the size computation does |
| AccountingRequests.DecodeThenEncode | libraries/tacacsrs_messages/src/accounting/request.rs:65-86 | encoding an accepted body gives back exactly its first size + arg_cnt bytes |
| AccountingRequests.EncodeThenDecode | libraries/tacacsrs_messages/src/accounting/request.rs:102-232 | whatever follows it, an encoding decodes to the request it came from if and only if every length and the argument count are at most 255 |
| AccountingRequests.EncodingIsInjective | libraries/tacacsrs_messages/src/accounting/request.rs:207-232 | among requests within those bounds no encoding is a prefix of another one's |
| AccountingRequests.TrailingBytesAreIgnored | libraries/tacacsrs_messages/src/accounting/request.rs:102-201 | once the announced bytes are there, what follows them never affects the outcome, accepted or rejected |
| AccountingRequests.Acceptance | libraries/tacacsrs_messages/src/accounting/request.rs:88-201 | a body is accepted if and only if all size bytes are there, flags and enumerations are legal, and every announced string lies inside the data and is UTF-8 |
| AccountingRequests.SizeCheckIsRedundant | libraries/tacacsrs_messages/src/accounting/request.rs:47-63 | the size check rejects nothing `from_bytes` accepts; `from_packet` panics exactly when a size byte is missing |
| RequestWireForm.RequestsOnTheWire | libraries/tacacsrs_messages/src/accounting/request.rs:102-232 | encoding writes every field at its literal code and offset, arguments one behind the other; decoding returns a request if and only if its lengths fit and the body holds exactly those bytes |
| RequestWireForm.FixedRejection | libraries/tacacsrs_messages/src/accounting/request.rs:102-162 | for each error of the fixed bytes and size bytes the bytes that cause it, in the order of the checks |
| RequestWireForm.StringRejection | libraries/tacacsrs_messages/src/accounting/request.rs:164-187 | which string is reported: the first that does not lie inside the data or is not UTF-8 |
| RequestWireForm.PacketRejection | libraries/tacacsrs_messages/src/accounting/request.rs:47-63 | a body shorter than it announces is a length mismatch whatever else is wrong; otherwise the error is the one of `from_bytes` |
| AccountingReplies.FromBytes | libraries/tacacsrs_messages/src/accounting/reply.rs:55-84 | the cursor walk, first error included, is the offset-based decoding |
| AccountingReplies.FromPacket | libraries/tacacsrs_messages/src/accounting/reply.rs:27-53 | size check, then decoding, with the error of the first that fails |
| AccountingReplies.EncodeThenDecode | libraries/tacacsrs_messages/src/accounting/reply.rs:55-105 | a reply survives the round trip, whatever follows, if and only if both strings have at most 65535 bytes |
| AccountingReplies.DecodeThenEncode | libraries/tacacsrs_messages/src/accounting/reply.rs:39-105 | encoding an accepted body reproduces the announced number of its bytes |
| AccountingReplies.Acceptance | libraries/tacacsrs_messages/src/accounting/reply.rs:55-84 | accepted if and only if the status is legal and both strings are there and are UTF-8 |
| AccountingReplies.SizeCheckIsRedundant | libraries/tacacsrs_messages/src/accounting/reply.rs:27-53 | `from_packet` succeeds exactly when `from_bytes` on the body does, with the same reply |
| AccountingReplies.RepliesOnTheWire | libraries/tacacsrs_messages/src/accounting/reply.rs:55-105 | encoding writes both lengths, the literal status code and both strings; decoding returns a reply if and only if its lengths fit and the body holds exactly those bytes |
| AccountingReplies.Rejection | libraries/tacacsrs_messages/src/accounting/reply.rs:55-84 | for each error the bytes that cause it, in the order of the checks |
| AccountingReplies.PacketRejection | libraries/tacacsrs_messages/src/accounting/reply.rs:27-53 | when the size is unknown, when it mismatches, and that otherwise the error is the one of `from_bytes` |
| Obfuscation.GeneratePad | libraries/tacacsrs_messages/src/obfuscation.rs:20-41 | the loop terminates with exactly header.length bytes, byte i being byte i mod 16 of block i div 16 of the MD5 chain |
| Obfuscation.PadStartsWithItsBlocks | libraries/tacacsrs_messages/src/obfuscation.rs:20-57 | each 16-byte block of the pad, the last one cut to size, is the digest of session id (big-endian), key, version byte, sequence number and the block before it, the hashed bytes written out (section 4.5 of RFC 8907) |
| Obfuscation.PadIgnoresFlagsAndType | libraries/tacacsrs_messages/src/obfuscation.rs:20-57 | the pad does not depend on flags or packet type, and a shorter length gives a prefix of a longer one |
| Obfuscation.ConvertInPlace | libraries/tacacsrs_messages/src/obfuscation.rs:12-18 | rewrites the array to what the copying form returns, and panics exactly when the body outruns the pad |
| Obfuscation.ConvertIsExclusiveOr | libraries/tacacsrs_messages/src/obfuscation.rs:5-18 | each bit of the result is set if and only if exactly one of the bits of the body and of the pad is; the result is as long as the shorter of the two |
| Obfuscation.ConvertIsInvolution | libraries/tacacsrs_messages/src/obfuscation.rs:5-18 | converting twice restores every body that fits its pad |
| Packets.ToBytes | libraries/tacacsrs_messages/src/packet.rs:29-34 | header bytes, then the body as it is |
| Packets.EncodeThenDecode | libraries/tacacsrs_messages/src/packet.rs:29-40 | `from_bytes` inverts `to_bytes`, whether or not the body has the announced length |
| Packets.DecodeThenEncode | libraries/tacacsrs_messages/src/packet.rs:29-40 | `to_bytes` inverts `from_bytes` on everything it accepts |
| Packets.OwnedPacket.ToObfuscated | libraries/tacacsrs_messages/src/packet.rs:69-79 | header flag and body are changed where they stand into the obfuscated packet, or the conversion panics |
| Packets.OwnedPacket.ToDeobfuscated | libraries/tacacsrs_messages/src/packet.rs:81-91 | the same in the other direction |
| Packets.ToggleIsInvolution | libraries/tacacsrs_messages/src/packet.rs:69-91 | toggling twice restores the packet although the two pads are built from headers with different flags |
| Packets.ObfuscationAlgebra | libraries/tacacsrs_messages/src/packet.rs:69-91 | each direction absorbs the other, both are idempotent, a clear packet survives obfuscation and back |
| Packets.ObfuscationScrambles | libraries/tacacsrs_messages/src/packet.rs:69-91 | an obfuscated packet has the header of the clear one but for the unencrypted flag, and its body exclusive-or the pad; deobfuscation finds the packet it came from |
| Packets.CopyingAndInPlaceAgree | libraries/tacacsrs_messages/src/packet.rs:43-91 | when each form returns None, returns a packet or panics, and that they return the same packet when the body has the announced length |
| Packets.CopyingFormsTruncate | libraries/tacacsrs_messages/src/packet.rs:43-67 | on a longer body the copying forms return what they return for the body cut to the announced length |
| Framing.NextFrame | libraries/tacacsrs_networking/src/tcp_connection.rs:143-193 | a rejected header takes exactly 12 bytes off the stream, a frame exactly 12 plus its announced length |
| Framing.OpenSealed | libraries/tacacsrs_networking/src/tcp_connection.rs:109-120 | opening what the write loop sealed equals opening the packet itself; a clear packet comes back as it was |
| Framing.SealScrambles | libraries/tacacsrs_networking/src/tcp_connection.rs:109-120 | with a key no packet leaves in the clear: a clear one is scrambled or, if it is longer than it announces, panics; without a key it leaves as it is |
| Framing.OpenUnscrambles | libraries/tacacsrs_networking/src/tcp_connection.rs:216-227 | with a key every packet is delivered clear, an obfuscated one as the packet it is the scrambled form of |
| Framing.StreamFidelity | libraries/tacacsrs_networking/src/tcp_connection.rs:87-238 | feeding the write loop's bytes to the read loop with the same optional key yields every packet in order, deobfuscated when a key is set, and leaves no bytes over |
| Framing.FidelityOfClearPackets | libraries/tacacsrs_networking/src/tcp_connection.rs:87-238 | clear packets come back equal one for one if and only if every body has the announced length |
| Framing.EmissionIsScrambled | libraries/tacacsrs_networking/src/tcp_connection.rs:87-140 | what anyone reads off the bytes written with a key, cut off anywhere, is a prefix of the packets queued, in order, each of them scrambled |
| Framing.FrameOfEncoding | libraries/tacacsrs_messages/src/packet.rs:29-34 | a frame is read back as its packet if and only if the body has the announced length |
| Framing.DecodeInTwoPieces | libraries/tacacsrs_networking/src/tcp_connection.rs:142-238 | a stream that arrives in two pieces decodes to the packets of the first, then those of the leftover bytes followed by the second |
| Framing.TruncationIsSafe | libraries/tacacsrs_networking/src/tcp_connection.rs:142-193 | on any prefix of any stream, rejected headers included, the loop delivers a prefix of what it delivers on the whole |
| Framing.InsertionIsLocal | libraries/tacacsrs_networking/src/tcp_connection.rs:179-193 | a well-formed frame put in at an iteration boundary adds its packet there and changes nothing before or after |
| Framing.InsertionIsolatesSessions | libraries/tacacsrs_networking/src/tcp_connection.rs:179-236 | so what every other session receives is unchanged |
| Insertions.HarmlessBytes | libraries/tacacsrs_networking/src/tcp_connection.rs:142-238 | bytes put in at a boundary leave what a session receives unchanged, whatever the stream goes on with, if and only if they end at a boundary themselves and hold no packet of that session |
| Insertions.HarmlessAnywhere | libraries/tacacsrs_networking/src/tcp_connection.rs:142-238 | such bytes can be put in at every boundary of every stream |
| Insertions.BodyIsReadAsFrames | libraries/tacacsrs_networking/src/tcp_connection.rs:155-167 | behind a rejected header the loop goes on with the body as if a frame began there |
| Insertions.RejectedFrameIsHarmless | libraries/tacacsrs_networking/src/tcp_connection.rs:155-181 | a frame with a rejected header goes unnoticed by a session if and only if its body, read as a stream, ends at a boundary and holds no packet of that session |
| Insertions.FrameInRejectedBody | libraries/tacacsrs_networking/src/tcp_connection.rs:155-167 | a body that is itself a frame is delivered as a packet |
| Framing.TornFrame | libraries/tacacsrs_networking/src/tcp_connection.rs:182-193 | a frame cut after any number of bytes delivers nothing if and only if the cut falls before the end its header announces |
| Channels.Channel.Send | libraries/tacacsrs_networking/src/session_manager.rs:22 | bounded append: closed, full at 32, or queued at the end |
| Channels.Channel.Receive | libraries/tacacsrs_networking/src/tcp_connection.rs:89-99 | takes the front; reports the end only when empty and without senders |
| Channels.Channel.CloseReceiver | libraries/tacacsrs_networking/src/tcp_connection.rs:87 | when the write loop returns it drops its receiver, and what is still queued with it |
| Sessions.SequenceNumbersRepeat | libraries/tacacsrs_networking/src/session.rs:34-41 | request numbers are odd; two draws coincide if and only if a multiple of 128 lies between them |
| Sessions.EveryRoundEndsAt255 | libraries/tacacsrs_networking/src/session.rs:34-41 | the number 255 is drawn by exactly the last of every 128 draws |
| Sessions.RequestPacketIsAccepted | libraries/tacacsrs_networking/src/sessions/accounting_session.rs:26-36 | `Packet::new` never objects to the request packet, however long its body |
| Sessions.FramesOnTheWire | libraries/tacacsrs_networking/src/sessions/accounting_session.rs:26-36 | the frame of a request, and of a stored reply, byte by byte: 0xc0, 0x03, the number, 0x01, session id, length modulo 2^32, body |
| Sessions.Session.TakeSequenceNumber | libraries/tacacsrs_networking/src/session.rs:34-41 | returns the counter and moves it on by two, modulo 256 |
| Sessions.Session.IsComplete | libraries/tacacsrs_networking/src/session.rs:49-63 | complete once marked, or once either channel is closed |
| Sessions.Session.SubmitAccountingRequest | libraries/tacacsrs_networking/src/sessions/accounting_session.rs:24-44 | after a passed check, with the channels in any state: one number is drawn; the packet is queued, waits for room, or fails because the outbound channel has closed |
| Sessions.Session.SendPacket | libraries/tacacsrs_networking/src/sessions/accounting_session.rs:44 | the send, also where a waiting one goes on: queued at the end, still waiting, or failed |
| Sessions.Session.FinishAccountingRequest | libraries/tacacsrs_networking/src/sessions/accounting_session.rs:46-65 | takes the front packet; the session becomes complete exactly when its body decodes |
| SessionManagers.SessionManager.DisableNewSessions | libraries/tacacsrs_networking/src/session_manager.rs:33-37 | the accept flag is down afterwards |
| SessionManagers.SessionManager.CreateChannel | libraries/tacacsrs_networking/src/session_manager.rs:39-64 | registers a fresh empty channel under the first drawn id not in use and leaves every other registration alone |
| SessionManagers.SessionManager.CreateSession | libraries/tacacsrs_networking/src/session_manager.rs:73-89 | refused once disabled; otherwise a fresh session on a fresh id, sharing the outbound channel |
| SessionManagers.SessionManager.SendMessageToSession | libraries/tacacsrs_networking/src/session_manager.rs:91-125 | the packet goes to the end of its own session's open mailbox, or nowhere; every other mailbox is unchanged |
| TcpConnections.ReadTask.ReadFrame | libraries/tacacsrs_networking/src/tcp_connection.rs:143-226 | one turn of the loop consumes one frame and yields its packet opened in place, skips a bad header, or ends |
| TcpConnections.ReadTask.Poll | libraries/tacacsrs_networking/src/tcp_connection.rs:142-238 | packets routed in a poll followed by those ahead are those that were ahead; the mailboxes are as if routed one by one; it waits only on a full queue and ends only when the stream has nothing left |
| TcpConnections.RoutingKeepsSessionsApart | libraries/tacacsrs_networking/src/session_manager.rs:91-125 | routing a list appends to each open mailbox the packets of its own id, in order, and nothing else |
| TcpConnections.WriteTask.WriteAll | libraries/tacacsrs_networking/src/tcp_connection.rs:132 | all the bytes go out, or exactly those the socket still takes before it fails |
| TcpConnections.WriteTask.Poll | libraries/tacacsrs_networking/src/tcp_connection.rs:87-140 | everything queued goes out in order, sealed, until the queue is empty, a conversion panics, or the socket fails with the bytes cut off; the receiver is dropped when the loop is over |
| ConnectionInvariants.StepKeepsRouting | libraries/tacacsrs_networking/src/tcp_connection.rs:142-238 | every step keeps routed ++ in hand ++ decode(unread) == decode(stream), and each session in step with what was routed to it |
| ConnectionInvariants.ReaderStepsRoute | libraries/tacacsrs_networking/src/session_manager.rs:91-125 | the steps of the read loop change the mailboxes exactly as routing the packet does |
| ConnectionInvariants.DeliveryWaits | libraries/tacacsrs_networking/src/session_manager.rs:106 | a delivery step is held up exactly when the target queue is open and full |
| ConnectionInvariants.StepKeepsFifo | libraries/tacacsrs_networking/src/sessions/accounting_session.rs:44 | every step keeps written ++ being written ++ queued == submitted, with at most 32 queued |
| ConnectionInvariants.StepKeepsRegistry | libraries/tacacsrs_networking/src/session_manager.rs:33-89 | every step keeps sessions and their creators in one-to-one correspondence and the flag behind both loops |
| CallInvariants.MoveKeepsCall | libraries/tacacsrs_networking/src/sessions/accounting_session.rs:18-65 | every step of a call keeps its stamps in order, its lock, its draw and the origin of its reply |
| CallInvariants.MoveKeepsPair | libraries/tacacsrs_networking/src/sessions/accounting_session.rs:20-64 | every step keeps any two calls of a session ordered by their locks, with different packets and different draws |
| ConnectionInvariants.StepKeepsCalls | libraries/tacacsrs_networking/src/session.rs:34-63 | so every step of anything keeps all calls consistent |
| OutboundInvariants.RequestPacketIsSized | libraries/tacacsrs_networking/src/sessions/accounting_session.rs:26-36 | a request packet has its announced length if and only if the body is shorter than 2^32 bytes; otherwise sealing it with a key panics |
| OutboundInvariants.OversizedRequestExists | libraries/tacacsrs_networking/src/sessions/accounting_session.rs:35 | some request does not fit: the cast to 32 bits truncates |
| OutboundInvariants.SubmittedSeals | libraries/tacacsrs_networking/src/tcp_connection.rs:109-120 | of the packets that entered the queue exactly those without their announced length make the write loop panic, and only with a key |
| OutboundInvariants.StepKeepsPeer | libraries/tacacsrs_networking/src/tcp_connection.rs:87-140 | every step keeps the wire decodable to what was written as long as that has its announced lengths, which a key enforces; what a failed write leaves is a proper prefix of the next frame; a panic is the next packet's |
| OutboundInvariants.StepKeepsWire | libraries/tacacsrs_networking/src/tcp_connection.rs:87-140 | every step keeps the wire equal to what the write loop emits for the packets written |
| ConnectionTheorems.SessionsReceiveTheirStream | libraries/tacacsrs_networking/src/session_manager.rs:39-125 | in every reachable state of every schedule, received ++ queued of a session registered at step n is the session's part of the batch decoding of the stream routed since; at most 32 queued; a prefix after it is dropped |
| ConnectionTheorems.PeerPacketsReachTheirSession | libraries/tacacsrs_networking/src/tcp_connection.rs:87-238 | when the peer runs the same write loop, cut off anywhere, a session receives the peer's packets for it in order |
| ConnectionTheorems.InboundPacketsAreSized | libraries/tacacsrs_networking/src/tcp_connection.rs:181-226 | every queued or received packet bears its session's id, has its announced length and, with a key, is clear |
| ConnectionTheorems.OutboundPacketIsSized | libraries/tacacsrs_networking/src/sessions/accounting_session.rs:26-44 | a packet in the outbound queue has its announced length if and only if the request that made it fits 32 bits |
| ConnectionRuns.HistoryIsKept | libraries/tacacsrs_networking/src/session_manager.rs:10-89 | between any two moments of a run: the flag never comes back, completion never reverts, an id keeps its channel, a finished call stays as it ended, nothing written, routed or received is taken back |
| ConnectionTheorems.CompletionOrder | libraries/tacacsrs_networking/src/sessions/accounting_session.rs:20-64 | any call past the completion check took its read lock before any successful call on the session took the write lock, as positions in the schedule |
| ConnectionTheorems.LateCallIsTurnedAway | libraries/tacacsrs_networking/src/sessions/accounting_session.rs:20-22 | a call that begins after another returned Ok never passes the check: at most one Ok in sequential use |
| ConnectionTheorems.TwoSuccessesOverlap | libraries/tacacsrs_networking/src/sessions/accounting_session.rs:18-65 | two calls that both return Ok on a session overlap in time |
| CallOutcomes.LateCallsNeverPass | libraries/tacacsrs_networking/src/sessions/accounting_session.rs:20-22 | a call that begins when its session is complete, the write loop is over or the connection object is gone never passes the check and draws no number |
| CallOutcomes.WhyCallsFail | libraries/tacacsrs_networking/src/sessions/accounting_session.rs:18-65 | every call that fails without being cancelled has one of five reasons, told by how far it got: turned away by the flag or by a closed channel, found the write loop over when sending, waited until the connection object was gone, or took a packet that is no reply |
| CallOutcomes.NothingOutlivesItsGround | libraries/tacacsrs_networking/src/tcp_connection.rs:73-84 | in every run a dropped session has no call under way; and the connection object goes only when both loops are over, the flag is down or the write loop panicked, and no `create_session` is under way |
| RunWitnesses.TwoCallsMayBothSucceed | libraries/tacacsrs_networking/src/sessions/accounting_session.rs:18-65 | overlapping calls can both return Ok: with any key or none, for any id, requests and reply there is such a run |
| ConnectionTheorems.CompleteMeansAnsweredOrMarked | libraries/tacacsrs_networking/src/session.rs:43-47 | a session is complete if and only if a call decoded a reply received on it and completed it, or its holder called `complete` |
| ConnectionTheorems.RepliesComeFromTheStream | libraries/tacacsrs_networking/src/sessions/accounting_session.rs:48-64 | each returned reply decodes a packet the batch decoder finds for the session behind its registration, and no packet answers two calls |
| ConnectionStalls.NothingArrivesAfterTheEnd | libraries/tacacsrs_networking/src/sessions/accounting_session.rs:46-53 | once the read loop has ended and a queue is empty no call gets a reply, and a waiting call waits until cancelled or the connection object is gone |
| ConnectionStalls.WaitingCallWakes | libraries/tacacsrs_networking/src/sessions/accounting_session.rs:50-53 | a call waiting on an empty queue can go on if and only if the connection object is gone; then it fails and lets go of the receiver |
| RunWitnesses.CallsMayBeStranded | libraries/tacacsrs_networking/src/sessions/accounting_session.rs:46-53 | for any key, stream, session id and request some run leaves a call waiting with the read loop over and the connection still up |
| ConnectionStalls.OneFullSessionStopsAll | libraries/tacacsrs_networking/src/session_manager.rs:91-125 | while the read loop waits for room in one queue, nothing is read, routed or registered for any session, until that session receives or is dropped |
| ConnectionStalls.OnlyFullQueuesHoldUp | libraries/tacacsrs_networking/src/tcp_connection.rs:142-238 | in every run the read loop, not yet over, has no step to take if and only if it is delivering to an open session with a full queue |
| ConnectionStalls.ReliefIsExact | libraries/tacacsrs_networking/src/session_manager.rs:91-125 | a step lets the held-up delivery go through if and only if it is a receive on that session or the drop of it |
| RunWitnesses.ReadLoopMayBeHeldUp | libraries/tacacsrs_networking/src/session_manager.rs:91-125 | for any key and any packet of the announced length, some stream and run hold the read loop up |
| ConnectionTheorems.NumbersAreDrawnOnce | libraries/tacacsrs_networking/src/session.rs:34-41 | concurrent calls never share a draw of the counter; equal numbers are a multiple of 128 draws apart |
| NumberDraws.EveryDrawCounts | libraries/tacacsrs_networking/src/session.rs:34-41 | in every run the counter of a session stands at 1 + 2n modulo 256 after n draws, by calls or by its holder |
| NumberDraws.NumbersTellTheDraws | libraries/tacacsrs_networking/src/sessions/accounting_session.rs:24 | the number of a call counts the draws of its session before the step in which the call drew it |
| ConnectionTheorems.PeerSeesTheQueue | libraries/tacacsrs_networking/src/tcp_connection.rs:87-140 | in every run, whatever was asked: at most 32 packets are queued, they leave first in, first out, and the peer decodes the wire to exactly the packets written if and only if each of these has its announced length, which with a key they have |
| ConnectionTheorems.WireIsScrambled | libraries/tacacsrs_networking/src/tcp_connection.rs:109-132 | in every run with a key, whatever is on the wire, a torn frame included, holds no clear packet: it holds the packets written, in order, each of them scrambled |
| ConnectionTheorems.OnlyUnsizedPacketsPanic | libraries/tacacsrs_networking/src/tcp_connection.rs:111-120 | in every run with a key no packet without its announced length is ever being written, and the write loop has panicked only on the next packet in the order of the queue, which is such a one |
| RunWitnesses.OversizedRequestPanics | libraries/tacacsrs_networking/src/tcp_connection.rs:111-120 | for any key, stream, session id and request, some run panics on this request if and only if its body does not fit the length field |
| RunWitnesses.OversizedRequestIsLost | libraries/tacacsrs_networking/src/tcp_connection.rs:119-132 | without a key, some run writes a request that the peer does not read back if and only if its body does not fit the length field |
| ConnectionTheorems.TornFrameOnTheWire | libraries/tacacsrs_networking/src/tcp_connection.rs:130-132 | the bytes a failing write leaves belong to the next packet of the queue, and after sized packets the peer still decodes exactly those if and only if the bytes stop before the end the torn frame announces, as they do for every sized packet |
| RunEndings.FrameMayBeTornAnywhere | libraries/tacacsrs_networking/src/tcp_connection.rs:132 | a failing write can leave any number of bytes of a frame short of all of them |
| ConnectionTheorems.PeerReadsTheRequests | libraries/tacacsrs_networking/src/sessions/accounting_session.rs:24-44 | when what was written has its announced lengths, each packet the peer decodes is a clear accounting packet of the default version with a call's session id and drawn number, and its body decodes to that call's request when that is within bounds |
| ConnectionTheorems.SessionIdsAreDistinct | libraries/tacacsrs_networking/src/session_manager.rs:48-63 | ids of all sessions ever created are pairwise distinct and each is bound to its creator |
| ConnectionTheorems.FlagFallsLast | libraries/tacacsrs_networking/src/tcp_connection.rs:73-84 | the flag is down only after both loops ended, and whoever registered a session checked the flag before the step that lowered it |
| RunEndings.WholeStreamCanBeRead | libraries/tacacsrs_networking/src/tcp_connection.rs:142-238 | for every key and stream some run routes everything the batch decoder finds |
| RunEndings.ConnectionMayBeTakenDown | libraries/tacacsrs_networking/src/tcp_connection.rs:73-84 | every connection has a run to its complete end: loops, flag, object, session, a failed call, a cancelled one and an abandoned creation |
| MockConnections.MockConnection.AddReply | libraries/tacacsrs_networking/src/mock_connection.rs:151-168 | stored under session id and number, replacing an older one, nothing else changes |
| MockConnections.MockConnection.HandleRequest | libraries/tacacsrs_networking/src/mock_connection.rs:78-148 | a request fetches and uses up the reply under its next number, is recorded and has it delivered or stalls with it; without one it is dropped unrecorded; an overflow changes neither stores nor mailboxes and closes the outbound channel |
| MockConnections.MockConnection.Deliver | libraries/tacacsrs_networking/src/mock_connection.rs:129-147 | the delivery, also where a stalled one goes on: the reply joins its session's queue, is lost, or stalls; the stores stay as they are |
| MockConnections.MockConnection.Poll | libraries/tacacsrs_networking/src/mock_connection.rs:73-149 | the loop handles what is queued, in order, until the queue is empty, a delivery stalls or an overflow panics; what is behind a stalled request stays queued, a panic closes the outbound channel |
| MockConnections.ActKeepsOk | libraries/tacacsrs_networking/src/mock_connection.rs:78-168 | every action keeps both stores equal to what the history of additions and answers leaves, and every answer honest |
| MockConnections.EveryAnswerWasAdded | libraries/tacacsrs_networking/src/mock_connection.rs:78-168 | over any run each answering reply had been added with no event under its key in between, bears the number after the request's (modulo 256), and on record is that request or a later answered one of its number |
| MockConnections.AnswersAreDistinct | libraries/tacacsrs_networking/src/mock_connection.rs:109-110 | no addition answers twice |
| MockConnections.RunPanics | libraries/tacacsrs_networking/src/mock_connection.rs:78-86 | over any run the handler panics if and only if the build checks overflow and some request it was handed is numbered 255 |
| MockConnections.RequestOverflows | libraries/tacacsrs_networking/src/mock_connection.rs:86-120 | no other number overflows; without checks number 255 is answered from number 0 |
| MockExchanges.ServingIsARun | libraries/tacacsrs_networking/src/mock_connection.rs:78-148 | a poll of the handler leaves the stores as a stretch of a run over the requests it takes does, and panics exactly when that run does |
| MockExchanges.SessionsAreIndependent | libraries/tacacsrs_networking/src/mock_connection.rs:78-148 | as long as the handler does not stop, a session ends up with the replies, records and queue that its own requests alone would have left it |
| MockExchanges.FirstIsAnswered | libraries/tacacsrs_networking/src/mock_connection.rs:78-148 | a first request with requests of other sessions ahead of it and behind it is answered if and only if the handler does not stop at one ahead; otherwise its session is left as it was |
| MockExchanges.FirstExchange | libraries/tacacsrs_networking/src/mock_connection.rs:73-185 | among other sessions' requests, the first request of a fresh session with a reply stored under number 2 returns that reply, completes the session, empties its store and records exactly the one request, unless the handler stops at a request ahead; then the call goes on waiting |

## Left out

- MD5 itself: only its 16-byte result and its determinism are used.
- Sockets, TLS set-up, certificates, name resolution, the command-line client, logging and error texts; errors are small tags.
- libraries/tacacsrs_networking/src/tls_connection.rs: the same two loops over another stream type.
- Scheduling fairness and liveness: the step system claims safety only; a lock or a full queue is a guard, and the first-come order in which waiting tasks are served is not modelled.
- The public `duplex_channel` of a session used directly by its holder: the step system has its `complete` and `next_sequence_number` calls (`MarkComplete`, `DrawNumber`), its accounting calls and its drop.
- The clearing of the mock's channels when its handler returns: the handler returns only once all senders are gone, and the manager it runs on keeps one.
- Session ids are drawn by a random generator: the manager takes the draws as a list, the step system any unused id; that the redraw loop ends is not claimed.
- Matching a reply to its request by sequence number, and the rule of section 4.1 of RFC 8907 against wrapping numbers: the code does neither.
- Arrival of bytes over time: the polled read loop is given the bytes received so far and ends when they run out; in the step system a failed read can strike at any moment.
- Authentication and authorization bodies: no behaviour exists behind their enumerations.
