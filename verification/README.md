# A verified model of a WebSocket engine

This project models the protocol core of `ws`, a WebSocket client and server
written in Rust, and proves what the core promises. It covers three things.

**What arrives.** Bytes come in chunks of any size. They are parsed into frames,
frames are joined into messages, and text is checked as it comes in. The model
defines the meaning of a byte stream (`Decoding.Decode`), shows that splitting
the stream differently changes nothing, that accepted bytes are exactly the
canonical encodings of frames that obey the protocol, that a text message is
delivered if and only if its whole payload is UTF-8, and that memory stays
within the configured limit. The reader itself is a class whose buffer, position
and partial message are updated in place; each of its methods is proved to
compute that meaning.

**What leaves.** A connection is shared by application threads, a reading task
and a writing task. It is modelled as a transition system at the granularity of
its locks: one section at most holds the flags lock (`Connection.Held`), its
steps under the queue lock are single actions, and the writer's steps, the
transport, the clocks and the application's event hub may act between any two of
them. A run is any list of actions each of which is enabled in its turn. The
results in `Runs` and `Drains` hold in every state that any run reaches: order
and exact accounting of bytes, the end-to-end decoding by a peer, the closing
handshake, the lifecycle, drain notices, coalesced pongs, heartbeats, and the
absence of any state in which queued bytes are stuck. `History`, `Sending`,
`Hearing`, `Sections`, `Turns` and `Beating` tell the same runs from the list of
actions alone: which frames were queued, what the peer hears of what the
application said, how each call was decided and who may act next.

**How it starts.** URL parsing, the HTTP head parser and its printer, both sides
of the opening handshake, and base64. What a client writes is what a server
reads, and every answer the server may give is accepted by the client.

Bytes are integers from 0 to 255; text is a byte string that is valid UTF-8.
Sums of buffer lengths are exact integers: every length is that of an allocation
and so below 2^63. The one subtraction that could wrap (`SendQueue.Less`) is
modelled with wrap-around, and it is proved that it never does.

Three things come from outside and are parameters: SHA-1 (any function to 20
bytes), which texts are IPv6 addresses (any predicate that ignores letter case
and implies a colon), and the mask keys and nonces (universally quantified).

## Files

| file | contents |
|---|---|
| `Basics`, `Text` | options, concatenation, big-endian numbers; trimming, splitting, lines |
| `Utf8` | scalar values, their encoding, the incremental checker |
| `Framing`, `Parsing` | masking, frame encoding; the frame parser and its inverse |
| `Assembly`, `Decoding`, `Reading`, `Streams` | messages from frames, streams from chunks, the reader class, frames on a stream |
| `SendQueue`, `Outbound`, `Pipeline`, `Backlog` | the queue class, the outbound path and its invariants |
| `Connection`, `Lifecycle`, `Safety`, `Goodbye`, `Delivery`, `BackPressure`, `Pongs`, `Limits`, `Silence`, `Causes` | the connection and one invariant per concern |
| `Runs`, `Drains` | the main results about every run |
| `History`, `Sending`, `Hearing`, `Sections`, `Turns`, `Beating` | what a run's actions amount to: lifecycle, frames queued, messages heard, calls decided, who may act, heartbeats |
| `Heartbeat`, `Inbox`, `Admission` | heartbeat decisions, inbound back-pressure, connection permits |
| `Base64`, `Heads`, `Http`, `Names`, `Urls`, `Locators`, `Handshake`, `Opening`, `Agreement`, `Verdicts`, `Wire` | the opening handshake |

## Model

| member | source | states |
|---|---|---|
| Utf8.ScanExact | core/src/proto/reader.rs:138-144 | the checker accepts exactly the encodings of sequences of Unicode scalar values |
| Utf8.ScanErrorExact | core/src/proto/reader.rs:138-144 | the part before the reported error is valid; the error counts as incomplete if and only if some continuation makes the text valid, and then at most three bytes are unverified |
| Utf8.ScanResume | core/src/proto/reader.rs:138-144 | behind a valid prefix the checker may start again, with offsets shifted |
| Utf8.BrokenStays | core/src/proto/reader.rs:138-144 | a text that is broken, not merely cut off, stays broken at the same place whatever follows |
| Framing.MaskTwice | core/src/proto/frame.rs:52-62 | masking twice with one key gives back the data |
| Framing.XorExact | core/src/proto/frame.rs:52-62 | digit by digit, the masked octet has a one if and only if the digits of data and key differ |
| Framing.MaskWordBytes | core/src/proto/frame.rs:53-62 | four octets at a time through native words, in either byte order, is octet-wise exclusive or |
| Framing.ApplyMask | core/src/proto/frame.rs:53-62 | the in-place loop over words and remainder leaves the array masked octet by octet |
| Framing.EncodedLength | core/src/proto/frame.rs:10-18 | the predicted length is the length of the encoding, for every payload and with or without a mask |
| Framing.EncodeInto | core/src/proto/frame.rs:20-51 | appends exactly the encoding of the frame and leaves what was there |
| Framing.HelloFrames | core/src/proto/frame.rs:3-51 | the text, ping and pong frames of the examples of section 5.7 of RFC 6455 have the octets given there, the masked ones up to the masked payload |
| Framing.HelloFragments | core/src/proto/frame.rs:3-51 | so have its two fragments |
| Framing.BinaryFrames | core/src/proto/frame.rs:3-51 | and its binary frames of 256 octets and of 64 KiB, for every payload |
| Framing.OpcodesAre | core/src/proto/reader.rs:67-69 | the opcodes known are 0, 1, 2, 8, 9 and 10 |
| Framing.CloseCodesAre | core/src/proto/frame.rs:71-74 | a code is valid unless it is below 1000, above 4999, unassigned up to 2999, or one that never goes on the wire |
| Framing.ClosePayloadIs | core/src/proto/frame.rs:64-69 | a close payload is the two octets of its code and the reason |
| Parsing.Code | core/src/proto/reader.rs:58-166 | every protocol violation is reported with a code that may be sent in a close frame |
| Parsing.CodeExact | core/src/proto/reader.rs:58-166 | 1009 is reported exactly for a message that is too big, 1007 exactly for a text or reason that is no UTF-8, and 1002 for everything else |
| Parsing.ParseEncoded | core/src/proto/reader.rs:58-120 | every acceptable frame, encoded and followed by anything, is parsed to itself and its length |
| Parsing.RefusedEarly | core/src/proto/reader.rs:58-99 | a frame that breaks a rule is refused, for the first rule it breaks, as soon as the octets that show it have arrived: two for the opcode, the mask bit and the sequence, the length field for the rest, never any payload |
| Parsing.ParseAnyFrame | core/src/proto/reader.rs:58-120 | every frame at all is either acceptable and taken, or refused for the first rule it breaks |
| Parsing.MalformedExact | core/src/proto/reader.rs:63-89 | for every input: reserved bits are reported if and only if one is set in the first octet, and a bad length if and only if no earlier rule is broken and it is not in its shortest form or exceeds 63 bits |
| Parsing.ParseCanonical | core/src/proto/reader.rs:58-120 | a parsed frame is acceptable and its bytes are its one encoding: no overlong lengths, right masking, reserved bits clear |
| Parsing.ParseMonotone | core/src/proto/reader.rs:58-120 | once a frame or a fault is found, more bytes do not change the answer |
| Parsing.MoreIsBounded | core/src/proto/reader.rs:87-112 | while more bytes are awaited, fewer than a header plus the remaining message allowance are held |
| Assembly.CheckedExact | core/src/proto/reader.rs:138-144 | checking from the last verified offset decides validity of the whole text, and of its prefixes whether they can still become valid |
| Assembly.CloseReadsBack | core/src/proto/reader.rs:153-166 | a close payload with a valid code and a UTF-8 reason is read back as that code and reason |
| Assembly.CloseCanonical | core/src/proto/reader.rs:153-166 | no other payload is accepted but the empty one |
| Assembly.CloseRefused | core/src/proto/reader.rs:153-166 | a refused close payload is reported as 1007 if its code is valid, because the reason is no text, and as 1002 otherwise |
| Assembly.TextExact | core/src/proto/reader.rs:122-150 | a final text fragment is delivered if and only if the whole message is UTF-8; an unfinished one is kept if and only if it can still become so, else refused |
| Assembly.AssembleSound | core/src/proto/reader.rs:122-150 | every frame keeps the partial message within the limit and its verified prefix valid; messages and control payloads obey their limits |
| Assembly.FragmentedText | core/src/proto/reader.rs:122-150 | for every fragmentation with control frames before and between: the control messages are delivered in their order, then the text if and only if the concatenation is UTF-8; cut short, the text is kept if and only if it can still become so |
| Assembly.ContinuedText | core/src/proto/reader.rs:122-150 | the same from any partial text already held |
| Assembly.FragmentedBinary | core/src/proto/reader.rs:122-150 | for every fragmentation of a binary message with control frames before and between: none fails, the control messages are delivered in their order, then the concatenation, or it is kept if the last fragment is not final |
| Assembly.ContinuedBinary | core/src/proto/reader.rs:122-150 | the same from any partial message already held |
| Decoding.NextExtends | core/src/proto/reader.rs:47-56 | one message more: bytes that arrive later do not change what was delivered, and a wait continues where it stopped |
| Decoding.DecodeExtends | core/src/proto/reader.rs:47-56 | decoding a stream is decoding its first part and feeding the rest |
| Decoding.ChunkingIndependent | fuzz/targets/reader.rs:9-26 | for every list of chunks the messages, the fault and the state are those of the whole stream at once |
| Decoding.NextBounded | core/src/proto/reader.rs:47-56 | delivered messages are within the limit, and the reader waits only when a frame is incomplete |
| Decoding.DecodeBounded | core/src/proto/reader.rs:87-112 | for every stream, no message exceeds the limit, nor do a partial message or the unparsed bytes exceed their bounds |
| Reading.Reader.Input | core/src/proto/reader.rs:37-44 | compaction drops what was consumed and keeps what was not |
| Reading.Reader.Push | core/src/proto/reader.rs:33-35 | the unread bytes grow by exactly the data |
| Reading.Reader.TakeFrame | core/src/proto/reader.rs:58-120 | reports what the parser says of the unread bytes, and advances past a frame with its payload unmasked in place |
| Reading.Reader.TakePayload | core/src/proto/reader.rs:87-120 | the same for the part behind the length field |
| Reading.Reader.Unmask | core/src/proto/reader.rs:113-117 | only the payload changes, to its unmasked form |
| Reading.Reader.AssembleFrame | core/src/proto/reader.rs:122-150 | updates the partial message as `Assembly.Assemble` says |
| Reading.Reader.NextMessage | core/src/proto/reader.rs:47-56 | result, partial message and unread bytes are those of `Decoding.Next` on the old state |
| Reading.Reader.Drain | fuzz/targets/reader.rs:14-16 | the loop returns every message the buffered bytes hold, and the fault that ends it if there is one |
| Reading.DecodeChunks | fuzz/targets/reader.rs:9-26 | the reader object, fed any chunks, delivers exactly the meaning of their concatenation |
| Reading.StopsEarly | fuzz/targets/reader.rs:12-18 | chunks behind a fault do not matter |
| Streams.DecodeRun | core/src/proto/reader.rs:47-56 | a stream of obedient frames decodes to the messages of those frames |
| Streams.StreamCanonical | core/src/proto/reader.rs:58-120 | every stream that is not refused is the encoding of obedient frames and an incomplete rest |
| Streams.ShortFrameWaits | core/src/proto/reader.rs:58-120 | every proper prefix of a frame makes the reader wait, never fail |
| Streams.SentPrefixDecodes | core/src/proto/reader.rs:47-56 | a prefix of sent frames decodes to exactly the messages of those that are complete |
| SendQueue.JoinedContent | core/src/net/link/send.rs:62-82 | joining small frames into one item keeps the bytes and their order |
| SendQueue.JoinsExactly | core/src/net/link/send.rs:62-82 | a frame joins the last item if and only if that is data and both are shorter than 16 KiB |
| SendQueue.OutQueue.PushFrame | core/src/net/link/send.rs:62-82 | the queue becomes the one with this frame's encoding appended, joined or not, unless the writer is done |
| SendQueue.OutQueue.Enqueue | core/src/net/link/send.rs:108-134 | the same for data, heartbeat and shutdown items, with the counter and the deferred pong |
| SendQueue.OutQueue.StopWriter | core/src/net/link/send.rs:136-144 | items, pending shutdown and deferred pong are gone and nothing is queued again |
| SendQueue.OutQueue.TakeBatch | core/src/net/link/write.rs:36-45 | the writer gets every item in order and the queue is empty |
| SendQueue.OutQueue.Recheck | core/src/net/link/send.rs:31-40 | refuses if and only if bytes wait and the length would bring them over the limit; a refused length is remembered for a drain notice |
| SendQueue.OutQueue.Progress | core/src/net/link/write.rs:103-118 | the counter falls by what was written; a notice is due if and only if a length is remembered and nothing waits now or the length is within the limit with what does, and then it is forgotten |
| Outbound.NextOrdered | core/src/net/link/write.rs:27-118 | every step of the outbound path keeps the wire, the writer's batch and the queue in push order, keeps the counter exact, and never lets it wrap |
| Outbound.Pipeline | core/src/net/link/write.rs:27-118 | the frames queued are the wire, then the batch's remainder, then the queue |
| Pipeline.NextSealed | core/src/net/link/send.rs:102-106 | at most one shutdown is queued, nothing comes behind it, and it takes effect only on a complete wire |
| Pipeline.NextPaced | core/src/net/link/send.rs:90-100 | at most two deferred pongs are unwritten, because one is flushed per batch |
| Pipeline.NextProbing | core/src/net/link/send.rs:84-88 | at most one heartbeat ping is unwritten and its item lies where the log says |
| Pipeline.HeadWritten | core/src/net/link/write.rs:59-101 | when a heartbeat item is complete, every byte up to and including that ping is written |
| Backlog.BufferedBound | core/src/net/link/send.rs:45-134 | what is exempt from the limit adds at most two deferred pongs, one ping and one close frame |
| Connection.Effect | core/src/net/link/send.rs:26-144 | every step a section may take is one the outbound path is ready for |
| Lifecycle.NextLiving | core/src/net/link/mod.rs:44-62 | every action keeps flags, state, open section, tasks and queue in agreement |
| Lifecycle.StateAdvances | core/src/net/link/mod.rs:44-50 | no action moves the state backwards |
| Lifecycle.NextEvents | core/src/net/link/state.rs:25-33 | every action keeps the end event last and unique |
| Safety.EffectAllowed | core/src/net/link/send.rs:26-144 | no section queues anything behind a shutdown |
| Safety.NextSafe | core/src/net/link/mod.rs:64-121 | every action of any task keeps the outbound invariants and the agreement of flags, sections and probes |
| Goodbye.NextClosing | core/src/net/link/close.rs:11-27 | every action keeps: a close frame is queued at most once, exactly when the flag says so, and only pongs follow it |
| Goodbye.NextFlush | core/src/net/link/close.rs:66-93 | every action keeps the flushing phase silent once the peer closed or failed |
| Goodbye.ReplyComplete | core/src/net/link/close.rs:66-93 | after a flush that ended for lack of work, the wire holds everything, one close frame included, and a shutdown is done |
| Goodbye.NothingFollows | core/src/net/link/close.rs:66-93 | from then on no action queues anything |
| Delivery.NextFrames | core/src/net/link/handle.rs:37-101 | every action queues only frames a correct peer accepts, with close payloads that are valid |
| Delivery.PeerDecodes | core/src/net/link/write.rs:27-101 | a peer decodes what is on the wire to exactly the messages of the frames written whole |
| BackPressure.NextDrain | core/src/net/link/write.rs:103-118 | every action keeps: a request is pending exactly while the latest refused length is unanswered and still does not fit, and every answer is one event |
| BackPressure.DrainImmediate | core/src/net/link/write.rs:103-118 | with a request pending, accounting for written bytes makes a notice due if and only if the length fits then |
| Pongs.NextPong | core/src/net/link/handle.rs:53-82 | every action keeps: pongs answer pings in order, at most once each, with their payloads, and the latest ping is answered, about to be, or deferred |
| Limits.NextLimit | core/src/net/link/send.rs:26-48 | every action keeps ordinary unwritten bytes within the limit or the longest frame admitted |
| Limits.Bounded | core/src/net/link/send.rs:26-48 | the counter never exceeds the largest of the limit, the longest frame and the pong limit, by more than the exempt control frames |
| Silence.NextHeard | core/src/net/link/heartbeat.rs:60-102 | every action keeps: what the heartbeat looks at is the latest of everything heard and of the connection's beginning |
| Silence.NextSent | core/src/net/link/heartbeat.rs:38-44 | every action keeps: a ping that has a transmission time is wholly on the wire |
| Silence.VerdictExact | core/src/net/link/heartbeat.rs:60-102 | the verdict is death if and only if there is evidence, and a ping if and only if none is outstanding and every sign of life is an interval old |
| Silence.DropNeedsSilence | core/src/net/link/heartbeat.rs:60-102 | a verdict of death means a ping was outstanding for an interval, and nothing was heard since it was sent, or, unsent, nothing heard or written for an interval |
| Silence.NextDrops | core/src/net/link/heartbeat.rs:60-102 | every action keeps: each time the heartbeat gave the peer up it had that evidence |
| Causes.NextCause | core/src/net/link/handle.rs:37-101 | every action keeps: our close frame says what was asked, echoes the peer's code or names the violation |
| Causes.NextEnd | core/src/net/link/close.rs:30-62 | every action keeps: the end event tells what whoever ended the connection went by, which is all there is to know if one of its tasks did |
| Runs.NextInvariant | core/src/net/link/mod.rs:64-121 | every enabled action keeps all invariants together |
| Runs.RunInvariant | core/src/net/link/mod.rs:64-121 | all invariants hold in every state of every run |
| Runs.EndToEnd | core/src/net/link/write.rs:27-118 | in every run the wire is a prefix of the frames queued, in order, and a peer decodes exactly the complete ones |
| History.HistoryTold | core/src/net/link/mod.rs:64-121 | in every run state, status received, violation, cause, close deadline, pings, times and events told are those its actions amount to, each defined on the list of actions alone |
| Sending.QueueTold | core/src/net/link/send.rs:26-134 | in every run the frames queued are, in order, those its actions call for: a send's kind and payload, a pong's ping, the close frame's cause, the heartbeat's token; and so is the pong put off |
| Hearing.PeerHears | core/src/net/link/write.rs:27-118 | in every run what the peer decodes of the application's messages is a prefix of what the application said, kinds and payloads included, and all of it once every byte is on the wire |
| Sections.SendEnters | core/src/net/link/send.rs:26-48 | in every run a send is possible between sections; on an open connection it goes on to queue its own message if nothing waits or there is room, else to a second look, and on any other it does nothing |
| Sections.RecheckDecides | core/src/net/link/send.rs:31-43 | the second look refuses if and only if bytes wait and the frame would bring them over the limit, and registers the refused length |
| Sections.SendDecided | core/src/net/link/send.rs:26-43 | in every run, a send on an open connection is still in progress, or was decided by one step that queued its very message or refused it for want of room |
| Sections.NoticeDecides | core/src/net/link/write.rs:103-118 | in every run, accounting for written bytes makes a notice due if and only if a refused length is pending and nothing is left or it fits with what is left |
| Sections.PingEnters | core/src/net/link/handle.rs:59-76 | in every run a ping is for answering unless the peer closed, erred or the connection ended; at once if less than a mebibyte waits, else put off |
| Sections.PongSteps | core/src/net/link/handle.rs:59-73 | a pong to be sent at once goes through its steps to the queue with its ping's data, and either way the section ends |
| Sections.ShutdownExact | core/src/net/link/handle.rs:37-101 | in every run a shutdown is queued between sections if and only if a violation was found or this is a server that received the peer's close |
| Turns.TurnTold | core/src/net/link/read.rs:31-121 | in every run the reading task, the stop signal and the writer's end are what its actions amount to |
| Turns.EntriesExact | core/src/net/link/handle.rs:37-101 | in every run each section may begin if and only if no other is open and it is in its turn: which messages, statuses and times are taken, and in which phase of the reading and writing tasks |
| Turns.EventsExact | core/src/net/link/close.rs:64-93 | in every run waiting for the close reply may end if and only if nothing is left and no shutdown is pending, the writer was stopped, or the deadline has passed |
| Turns.StopExact | core/src/net/link/close.rs:30-62 | in every run the writer is stopped if and only if the connection ended and that was not done yet |
| Runs.Accounting | core/src/net/link/write.rs:103-118 | in every run the counter equals the bytes queued and not accounted for, never wraps, and obeys its bound |
| Runs.ClosingOnTheWire | core/src/net/link/close.rs:11-62 | in every run only pongs follow a close frame, there is at most one shutdown, it is last, and it closes a complete wire |
| Runs.CloseIsTruthful | core/src/net/link/close.rs:11-27 | in every run a close frame carries the application's status, the peer's code or the violation's code |
| Runs.EndIsTruthful | core/src/net/link/close.rs:30-62 | in every run the end event reports the peer's status, else the violation's code, else 1006, if a task ended the connection, and 1006 if a caller or the heartbeat did; so it tells all there is to know if and only if a task ended it or there is nothing to know |
| Runs.SilentOnceOver | core/src/net/link/handle.rs:37-101 | once the peer closed or a violation was found and that section is over, no continuation of the run queues a frame or a shutdown |
| Runs.ReplyNotCutOff | core/src/net/link/close.rs:64-93 | in every run, when waiting for the close reply has ended with the connection neither ended nor at its deadline, every frame is on the wire, one close frame among them, its shutdown is done, and no continuation adds anything |
| Runs.LifecycleSafety | core/src/net/link/close.rs:34-49 | in every run the state only advances, the end event is last, comes only with the closed state, and comes if the application was listening |
| Runs.DrainNeverLost | core/src/net/link/write.rs:103-118 | in every run no refused sender is forgotten and none is told twice |
| Runs.PongsCoalesce | core/src/net/link/handle.rs:53-82 | in every run pongs answer pings in order and the latest ping is never forgotten while answers are due |
| Runs.HeartbeatEvidence | core/src/net/link/heartbeat.rs:60-102 | in every run each drop of a silent peer had its evidence, with the ping on the wire if it counted as sent, and an earlier ping is written before a later one is queued |
| Beating.BeatsTold | core/src/net/link/heartbeat.rs:38-96 | in every run the outstanding ping, its transmission time and the last write are those its actions amount to |
| Beating.CheckDecides | core/src/net/link/heartbeat.rs:60-102 | in every run a check on an open connection decides to ping if and only if no ping is outstanding and everything heard is an interval old, and drops the peer if and only if there is evidence; on any other connection it does nothing |
| Beating.DueTold | core/src/net/link/heartbeat.rs:82-96 | in every run there is a ping to queue if and only if the latest check decided on one and it was not looked after since |
| Beating.BeatEnters | core/src/net/link/heartbeat.rs:84-96 | in every run a ping decided on is queued if and only if the connection is still open |
| Drains.NextLoaded | core/src/net/link/write.rs:27-70 | every action keeps a busy writer holding a batch |
| Drains.PickCloser | core/src/net/link/write.rs:27-118 | in every safe state with the writer running and work left, some step of the connection itself is enabled and brings the end nearer |
| Drains.EverythingIsWritten | core/src/net/link/write.rs:27-118 | from every reachable state with the writer running, the connection's own steps lead to one where every frame queued is on the wire, the counter is zero and a requested shutdown is done |
| Heartbeat.ActsAtDeadline | core/src/net/link/heartbeat/clock.rs:8-27 | before its deadline the check waits; from then on it drops the peer exactly if a ping is outstanding and else pings |
| Inbox.DecodeCost | core/src/net/link/handle.rs:104-128 | the cost of all messages in a stretch of bytes is bounded by the bytes |
| Inbox.ChunkBurst | core/src/net/link/read.rs:47-121 | one chunk, behind an incomplete frame, never costs more than one burst |
| Inbox.TakeSteady | core/src/net/link/handle.rs:104-128 | every atomic step of the reader, the application and the lifecycle keeps the inbox equal to what was added and not consumed, and within its bound |
| Inbox.InboxBounded | core/src/net/link/handle.rs:104-128 | in every reachable state acknowledging does not wrap and the inbox is below one mebibyte plus one burst |
| Inbox.EmittedExactly | core/src/net/link/handle.rs:122-128 | in every run every message for the application is emitted, in order and at its cost, or is the one in delivery, but for those turned away because the inbox was full and the connection no longer open |
| Inbox.OwedExactly | core/src/net/link/handle.rs:103-128 | in every run the counter holds the costs of the events emitted and not acknowledged, in order, and of those no one took |
| Inbox.CounterDecides | core/src/net/link/handle.rs:122-128 | the state matters for an event if and only if the counter is at one mebibyte or more |
| Inbox.ReadingPauses | core/src/net/link/handle.rs:109-120 | in every run the reader may read on if and only if the connection has left the open state or the inbox is below one mebibyte |
| Inbox.FullInboxGrows | core/src/net/link/handle.rs:122-128 | a run in which a full inbox grows although the connection is closing: the state is read before the addition, and changes between |
| Inbox.OverfillsExactly | core/src/net/link/handle.rs:122-128 | in every run, a step raises the full inbox of a connection that is not open if and only if it is the pending addition of an event that was cleared by finding the connection open |
| Inbox.FullNeverGrows | core/src/net/link/handle.rs:122-128 | with no such addition pending when the connection leaves the open state, no continuation raises a full inbox |
| Inbox.OverfillsOnce | core/src/net/link/handle.rs:122-128 | and no run does it twice |
| Admission.TakeFair | core/src/queue.rs:11-27 | every atomic step of acquirers, workers, events and handles keeps the count equal to the permits held, within the limit |
| Admission.NeverOverAdmits | core/src/queue.rs:11-27 | in every run no more permits exist than the limit, and the count never wraps |
| Admission.LoadLooks | core/src/queue.rs:11-20 | in every run whoever comes to acquire looks at the number of permits out |
| Admission.ExchangeDecides | core/src/queue.rs:11-20 | in every run an acquirer gets a permit if and only if the permits out are those it saw, fewer than the limit, and the exchange does not fail spuriously; it gives up if and only if it saw the limit, else it looks again |
| Admission.LookedAt | core/src/queue.rs:11-20 | in every run what an acquirer goes by is the number of permits out at its last look |
| Admission.RefusedOnlyWhenFull | core/src/queue.rs:11-20 | so an acquirer that gives up had a moment at which the limit was reached |
| Admission.Ledger | core/src/queue.rs:23-85 | in every run a permit is out if and only if it was issued and not given back, and its owners are those that the steps taken leave: worker, cell, events under way and undrained |
| Admission.StepsExact | core/src/queue.rs:23-85 | in every run each step of a permit is possible if and only if the steps before allow it; it is given back exactly when its worker ended, its cell is empty and every event that carried it was drained or refused |
| Admission.ClosedHandleHoldsNothing | core/src/queue.rs:53-85 | in every run a closed handle owns no permit and cannot put one in a queue, so the last owner frees it |
| Admission.OwnedStays | core/src/queue.rs:23-27 | a permit with an owner is not given back |
| Admission.RequestRetains | core/src/queue.rs:72-84 | a request event keeps its slot until it is drained, whatever else happens, its worker ending included |
| Base64.DecodeEncode | core/src/proto/base64.rs:5-57 | decoding undoes encoding for every octet string |
| Base64.EncodeDecode | core/src/proto/base64.rs:22-57 | what decodes is the encoding of its value: unused bits are zero and padding is right |
| Base64.EncodedSize | core/src/proto/base64.rs:5-19 | four characters for every three octets begun |
| Wire.LettersAre | core/src/proto/base64.rs:1-19 | the alphabet is that of table 1 of RFC 4648 |
| Base64.EncodeLoop | core/src/proto/base64.rs:5-19 | the loop computes the encoding |
| Base64.CountPadding | core/src/proto/base64.rs:27-30 | counts exactly the trailing pad characters |
| Base64.DecodeLoop | core/src/proto/base64.rs:22-57 | the loop over characters computes the decoding or refuses exactly when there is none |
| Heads.FindEnd | core/src/proto/http.rs:22-25 | the first offset behind a blank line, or none if there is none |
| Heads.Overlap | core/src/net/stream.rs:39-41 | searching from three bytes before the new data finds the same first blank line |
| Heads.ReadHead | core/src/net/stream.rs:32-51 | for every split into reads: the head is the stream up to its first blank line, the rest is what else was read, and it is too large exactly if that line ends beyond the limit |
| Http.ParseLoop | core/src/proto/http.rs:47-64 | the loop over lines computes the parse, stopping at the first fault or the sixty-fifth header |
| Http.RawReadsBack | core/src/proto/http.rs:55-62 | a header line with any blanks around its value is read with its name in lower case and its value trimmed |
| Http.ParseText | core/src/proto/http.rs:46-64 | every head that is a start line, header lines and a blank line is read whole and in order, or refused if and only if it is over a limit |
| Http.ParsedText | core/src/proto/http.rs:46-64 | nothing else is read |
| Wire.TokenBytesAre | core/src/proto/http.rs:27-29 | a token holds every visible character but the seventeen delimiters |
| Wire.DelimitersAre | core/src/proto/http.rs:27-29 | which are those of section 5.6.2 of RFC 9110 |
| Wire.ValueBytesAre | core/src/proto/http.rs:31-33 | a value holds no control character but the tab |
| Wire.ManagedExact | core/src/proto/http.rs:6-44 | a caller may not set exactly the ten headers that the handshake sets or reads, in any letter case |
| Http.ParseRender | core/src/proto/http.rs:46-64 | a printed head is read back, and is refused if and only if it is over a limit |
| Text.TrimExact | core/src/proto/http.rs:57 | trimming drops the blanks at both ends, all of them, and nothing else |
| Http.HeadEnds | core/src/proto/http.rs:22-25 | a printed head has its only blank line at its end, whatever follows |
| Http.AllOnce | core/src/proto/http.rs:66-75 | a name that occurs once is found with its value |
| Http.TokensLoop | core/src/proto/http.rs:82-94 | the loop over all values computes the list of tokens, or refuses exactly when one is no token or comes twice |
| Verdicts.TokenSaid | core/src/proto/http.rs:77-80 | on the header lines as they came: a token is found if and only if some line for that name, in any letter case, has it among the pieces of its value between commas, blanks and letter case aside |
| Verdicts.TokensAppend | core/src/proto/http.rs:82-94 | the list read off some lines and more lines is the one list followed by the other, and is refused if and only if either is or they share a token |
| Verdicts.TokensOfLine | core/src/proto/http.rs:82-94 | and the list read off one line is that of its pieces |
| Http.ListReadsBack | core/src/proto/http.rs:82-94 | a printed list of tokens is read back item by item |
| Names.TitleIs | core/src/proto/handshake.rs:15-62 | each written header name is a token and is the looked-up name in another case |
| Wire.NameTexts | core/src/proto/http.rs:6-17 | the names looked up are these texts |
| Urls.ParsedIsGood | core/src/proto/url.rs:17-72 | every parsed URL has a valid lower-case host, a port in range, a clean target that begins with a slash, and the authority of its host and port |
| Urls.PrintParses | core/src/proto/url.rs:17-72 | every URL with those properties is parsed from its printed form |
| Urls.ParsePrint | core/src/proto/url.rs:17-72 | so the printed form of a parsed URL parses to that URL |
| Locators.AnyUrl | core/src/proto/url.rs:17-72 | every scheme in any letter case, host or bracketed address, optional port text and path or query is parsed, to that host in lower case, that port or 80 or 443, that target and the matching Host value |
| Locators.ParsedExactly | core/src/proto/url.rs:17-72 | and no other text: a text is a URL with a given meaning if and only if it is so written |
| Handshake.ReceiveStream | core/src/net/serve.rs:43-63 | the verdict on a request does not depend on how its bytes are split; an oversized head gets status 431, one that does not come in time 408, and a stream that ends or fails no answer |
| Handshake.PrintRequest | core/src/proto/handshake.rs:50-62 | the request built piece by piece is the printed head of its request line and headers |
| Wire.RequestText | core/src/proto/handshake.rs:50-62 | the request letter by letter |
| Wire.AnswerText | core/src/proto/handshake.rs:9-20 | the answer letter by letter, with the digest of the key and the fixed text |
| Opening.AuthorityVisible | core/src/proto/handshake/request.rs:15-29 | the authority of every parsed URL is a valid Host value |
| Wire.ValidHostExact | core/src/proto/handshake/request.rs:15-29 | a Host value is valid if and only if it is a bracketed address or a name of these characters, and perhaps a port of one to five digits |
| Wire.ValidKeyExact | core/src/proto/handshake/request.rs:70-73 | a key is valid if and only if it is the encoding of sixteen octets |
| Opening.SeenProtocols | core/src/proto/handshake/request.rs:74 | the server recovers the offered protocols in order, or refuses a list that repeats one |
| Verdicts.AnyRequest | core/src/proto/handshake/request.rs:36-76 | for every request line of three words and any headers, in any order, number and letter case: the verdict is the ruling on what they say, 400, 405 or 426 for the first rule broken |
| Verdicts.EveryHead | core/src/proto/handshake/request.rs:36-76 | every byte string is such a request and judged so, or is refused with 400 |
| Verdicts.AcceptedExactly | core/src/proto/handshake/request.rs:36-76 | a byte string is accepted, as a given request, if and only if it is a GET of that target with those headers, within the limits, with one valid host, at most one origin, no body, the upgrade and connection tokens, version 13, that valid key and those distinct protocols |
| Verdicts.AcceptedIsClean | core/src/proto/http.rs:46-64 | the application gets lower-case tokens with trimmed values, 64 at most |
| Opening.RequestAnswered | core/src/proto/handshake/request.rs:36-76 | for every parsed URL, nonce, distinct protocols and checked headers the server recovers target, key, protocols and headers; it refuses, with status 400, if and only if there are two origins or a limit is exceeded |
| Verdicts.AnyAnswer | core/src/proto/handshake.rs:64-90 | for every status line and any headers, in any order, number and letter case: the client's conclusion is that of the first rule broken, or the protocol |
| Verdicts.EveryAnswer | core/src/proto/handshake.rs:64-90 | every byte string is such an answer and judged so, or is no answer at all |
| Agreement.AnswerConfirmed | core/src/proto/handshake.rs:64-90 | a client takes the answer meant for another key if and only if the accept keys agree, and then the protocol if and only if it was offered |
| Agreement.AcceptKeysAgree | core/src/proto/handshake.rs:11-13 | accept keys agree if and only if the digests do |
| Agreement.AnswerFits | core/src/proto/handshake.rs:15-20 | an answer is shorter than the request it answers, so it is within the limit too |
| Agreement.HandshakeCompletes | core/src/proto/handshake.rs:15-90 | request and answer round trip: the server recovers what was asked, and the client takes every protocol the server may pick, or none |
| Agreement.MessagesEnd | core/src/net/stream.rs:32-51 | either message ends at its first blank line whatever bytes follow, so frames sent at once are not lost |

## Left out

- Sockets, TLS, name resolution, dialling and the runtime: the transport is an agent that accepts any part of what it is given; flushing a buffering transport is not modelled.
- Scheduling and wake-ups: any enabled step may come next. `Drains` shows that a step is always enabled, not that the runtime takes it.
- Memory ordering and lock poisoning: atomic fields take one value at a time.
- Connection and outbound tasks are steps on values, not methods; the objects with their own loops and in-place updates are modelled as classes (`Reading.Reader`, `SendQueue.OutQueue`).
- Two sections cannot overlap because both hold the flags lock; the lock itself is not modelled further.
- The reader's and the writer's `end` read the flags in one section and end the connection in the next; the model has one action for both. The two tasks are polled as one (core/src/net/link/read.rs:44) without a pause between the sections, and no one else changes what is read, so the reading still holds when it is used.
- A heartbeat check reads the flags, the clock and the stamps of reading and writing in one action; it is made by the reading task itself, between two reads.
- The check before reading (core/src/net/link/read.rs:68-83) is one step of `Inbox`: a state read earlier can only have been the open one, for which the counter is read in that step.
- Clocks are natural numbers that do not go back; an overflowing deadline, which the source treats as none, does not occur.
- Random mask keys, nonces and heartbeat tokens: any value is allowed, so their distribution is not a subject.
- Decoding of a heartbeat pong as the connection's own: only that it counts as something heard.
- SHA-1 and the IPv6 grammar: parameters, as described above.
- Heartbeat.ActsAtDeadline: does not model the instant's overflow check, because times are unbounded.
- Runs.EndToEnd: speaks of a peer whose message limit admits every payload sent, because another peer refuses the rest by design.
- Drains.EverythingIsWritten: assumes the writer has neither failed nor been stopped, because then the queue is discarded by design.
- Error messages: faults are an enumeration with the close codes and statuses the source uses; their texts are not kept.
- Rejection responses, the accept loop's timeouts and the draining of a rejected socket.
- The hub's event queue and its capacity, the Lua module and its handles: their promises are about lifetimes and wake-ups of foreign code, of which the model has only that an event is accepted or not.
- Certificates, trust roots and the choice among resolved addresses: decisions of libraries, not of this code.
