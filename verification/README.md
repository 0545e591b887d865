# A verified model of the Serial Framing Protocol library

The library carries messages over an octet stream that loses, damages and cuts up what it
carries. This project models its engine, the chunked stream reader and the outbox of the message
queue, and proves what they promise: printer and parser undo each other, the check sequence is
exact, retransmission keeps the order of messages, the handshake converges, recovery works, and
nothing is lost between the engine and its callers.

The files build on each other:

| file | content |
|---|---|
| `Crc.dfy` | the check register, its bit-serial definition (RFC 1662, appendix C), error detection |
| `Framing.dfy` | octet stuffing (RFC 1662, section 4.2) and the receiver as functions on values |
| `Wire.dfy` | the octets on the wire against a second definition, in numbers alone |
| `Protocol.dfy` | one endpoint at frame level: numbers, history, handshake, retransmission |
| `Context.dfy` | the engine as a class that is updated in place, proved against the two above |
| `Link.dfy` | the octet level implements the frame level |
| `Network.dfy` | two endpoints joined by two first-in first-out channels |
| `Safety.dfy`, `Window.dfy` | what holds in every run within a bound on the writer, and that the bound is the weakest |
| `Recovery.dfy`, `Settling.dfy` | how a lossy run ends: the link settles, and one more write repairs it |
| `Answers.dfy` | what an end answers before it is connected, and sends when it becomes so |
| `Handshake.dfy`, `Reconnect.dfy` | the handshake converges, from fresh ends and from any others |
| `Early.dfy` | packets written before the handshake is over arrive |
| `Storm.dfy`, `Size.dfy` | retransmission dies down, exactly unless a payload is too long |
| `Pair.dfy` | two contexts and the octets between them are that network |
| `Stream.dfy` | the chunked reader, as a class over the engine |
| `Outbox.dfy` | the outbox of the message queue, as a class |
| `Threads.dfy` | a receiver thread and writer threads interleaved in small steps |

How the pieces meet: the methods of `Context.SfpContext` state their whole effect by the
functions of `Framing` and `Protocol`; `Link.OctetsImplementFrames` and `Link.DeliverFrames` turn
octets into frame-level reactions; `Network` composes those reactions; and
`Pair.TwoContexts.Perform` carries out every action of the network on two contexts and the octets
in flight between them, so that the theorems about the network hold for the classes
(`Pair.SafeSession` draws the end-to-end theorem over).

## Findings

Six properties one would expect of the code fail. For each a failing run or input is given, and
the condition under which the code does meet it is proved.

- Exactly-once delivery is not unconditional. A writer that runs ahead of its peer by more than
  its history can be driven into an underrun by the link alone, and then the peer accepts one
  payload in place of another (`Window.HistoryOverrun`); and numbers have only six bits, so that
  after 64 losses neither end notices anything (`Window.NumbersAlias`). The bound in
  `Safety.EndToEndSafety` is the weakest that rules underruns out (`Window.WindowIsExact`).
- A payload of 255 octets is accepted for sending but silently vanishes at the receiver, because
  the two check octets share the packet buffer (`Framing.DispatchedIffFits`). Recovery brings the
  peer up to date exactly when no payload it lacks is longer than 254 octets
  (`Recovery.RecoveryTheorem`).
- A payload of 256 octets looks like a damaged frame, is requested again, and fails again: the
  link never falls quiet (`Size.QuietBySize`, `Storm.SizeDecides`).
- A completion handler that sends again before it returns, while nothing else is queued on an
  open stream, has its write started twice (`Outbox.Queue.HandleWrite`, `Outbox.TwiceStarted`).
- A write that is cancelled while the stream stays open loses the entries queued behind it, and
  later octets go out in their place (`Outbox.Queue.HandleWrite`, `Outbox.CancelLoses`).
- The table in `doc/handshake.txt` and the code disagree in two cells; the model follows the code
  (`Handshake.TableHoldsButTwoCells`).

## Model

| member | source | states |
|---|---|---|
| Crc.FoldIsSerial | src/serial_framing_protocol.cpp:28-32 | the table-free octet update, folded over any octets, equals shifting them in bit by bit with polynomial 0x8408 |
| Crc.FoldLinear | src/serial_framing_protocol.cpp:28-32 | the register is linear over exclusive or, in its preset and in the octets together |
| Crc.DetectsOddErrors | src/serial_framing_protocol.cpp:207 | two octet strings of equal length that differ in an odd number of bits never end at the same register value |
| Crc.DetectsBursts | src/serial_framing_protocol.cpp:207 | nor do two that differ only inside sixteen consecutive bits, so also within any two adjacent octets, at any length of at least three octets |
| Crc.GoodResidue | include/sfp/serial_framing_protocol.h:51-56 | the good value is reached exactly by feeding the complement, low octet first |
| Framing.StuffHidesFlag | src/serial_framing_protocol.cpp:700-720 | FLAG never occurs inside a frame, whatever the header, payload and check octets |
| Framing.FeedKeepsValid | src/serial_framing_protocol.cpp:181-221 | after any octets from any valid state the buffer is not overrun and the register is that of the octets taken since the last reset |
| Framing.CheckIsExact | src/serial_framing_protocol.cpp:352-365 | the check passes iff the last two octets are the complement, low octet first, of the check of all before |
| Framing.AcceptedIffBuilt | src/serial_framing_protocol.cpp:350-372 | a closing FLAG dispatches a header and payload iff the octets taken are exactly the body the transmitter builds for them |
| Framing.DamageIsRejected | src/serial_framing_protocol.cpp:350-372 | a body of right length hit by an odd number of bit errors or a burst of up to sixteen bits is rejected |
| Framing.FrameArrives | src/serial_framing_protocol.cpp:184-218 | self-synchronisation: from any receiver state the next whole frame arrives as at a fresh receiver, which is fresh again afterwards |
| Framing.DispatchedIffFits | src/serial_framing_protocol.cpp:669-687 | of all payloads up to 256 octets those of at most 254 are dispatched, and no other |
| Framing.StreamRoundTrip | src/serial_framing_protocol.cpp:785-846 | any list of frames with any extra FLAGs between them, fed octet by octet, is dispatched in order, once each |
| Wire.EncodeIsStandard | src/serial_framing_protocol.cpp:785-846 | every frame sent is 7e, then header, payload and check with 7e and 7d escaped, then 7e; the check is the complement, low octet first, of the bit-serial register preset to ffff: a second definition without the engine's constants |
| Wire.FirstOctets | include/sfp/serial_framing_protocol.h:58-80 | the header is the number plus 0, 64, 128 or 192 for USR, RTX, NAK and SYN |
| Wire.ControlOctets | include/sfp/serial_framing_protocol.h:73-85 | SYN0, SYN1, SYN2 and DIS have the headers c0 to c3 and no payload |
| Wire.StuffIsEscape | src/serial_framing_protocol.cpp:700-720 | 7e is sent as 7d 5e, 7d as 7d 5d, and every other octet as itself |
| Wire.NextNumber | src/serial_framing_protocol.cpp:258-260 | numbers count up to 63 and start over |
| Wire.ReceiverUnescapes | src/serial_framing_protocol.cpp:196-219 | between delimiters the receiver takes in what any octets stand for, those that no transmitter sends included |
| Wire.FirstFrame | src/serial_framing_protocol.cpp:133-145 | connecting a fresh context puts 7e c0 74 36 7e on the wire |
| Protocol.HeaderRoundTrip | src/serial_framing_protocol.cpp:262-270 | frame type and sequence number are read back from a header as they were put in |
| Protocol.FastForwardExact | src/serial_framing_protocol.cpp:600-603 | the unsigned wrap-around arithmetic, word sizes included, computes the distance of the request from the oldest history entry modulo 64 |
| Protocol.ExactRetransmission | src/serial_framing_protocol.cpp:595-633 | `tx.seq` survives iff the request lies in the history window; then history is its suffix and every payload keeps its number, else all of it is renumbered from the request |
| Protocol.InputKeepsLog | src/serial_framing_protocol.cpp:528-639 | any frame, garbled frame or write within a session keeps history the end of the log of writes, or is an underrun |
| Protocol.HistoryAgreesWithLog | src/serial_framing_protocol.cpp:595-639 | in every session without underrun history is the last payloads written, `tx.seq` counts them, and each data frame sent carries the payload of its number |
| Answers.HailsUntilConnected | src/serial_framing_protocol.cpp:432-447 | an end that is not connected answers any data frame or request with DIS, SYN0 or SYN1 by its state, accepts nothing and changes nothing |
| Answers.HailsStrayHandshakes | src/serial_framing_protocol.cpp:494-516 | so it does with SYN1 and SYN2 when disconnected, and with SYN2 in SENT_SYN0 |
| Answers.FromEveryState | src/serial_framing_protocol.cpp:563-580 | DIS disconnects from every state without an answer, SYN0 starts over from every state, and other numbers are ignored |
| Answers.BadIsAsked | src/serial_framing_protocol.cpp:350-368 | a bad frame is answered by a request for the next payload in every state |
| Answers.HandshakeResends | src/serial_framing_protocol.cpp:494-526 | SYN1 in any state but DISCONNECTED, and SYN2 in SENT_SYN1 or CONNECTED, connect the end and send again everything written since the handshake began, in order under its numbers, behind SYN2 in the first case |
| Answers.HandshakeIsRequest | src/serial_framing_protocol.cpp:498-521 | whatever the history holds, they do what a request for number 0 does to a connected end |
| Answers.RestartIsNoticed | src/serial_framing_protocol.cpp:433-437 | when a data frame or request has reached a disconnected peer and its answer has come back, the writer is disconnected, whatever else was in flight |
| Context.SfpContext.constructor | include/sfp/serial_framing_protocol.h:25-36 | a fresh context, with history capacity and write buffer size as parameters |
| Context.SfpContext.Init | src/serial_framing_protocol.cpp:93-118 | initialisation in place resets all but the history |
| Context.SfpContext.BufferedWrite | src/serial_framing_protocol.cpp:854-869 | octets flushed and octets buffered together grow by the octet, whatever the buffer size |
| Context.SfpContext.WriteNoCrc | src/serial_framing_protocol.cpp:700-720 | writes the stuffed octet and reports its length |
| Context.SfpContext.WriteChecked | src/serial_framing_protocol.cpp:803-812 | the loop writes header and payload stuffed and leaves their check in `tx.crc` |
| Context.SfpContext.WriteCheck | src/serial_framing_protocol.cpp:814-827 | the loop writes the complemented check stuffed, low octet first |
| Context.SfpContext.TransmitFrameWithHeader | src/serial_framing_protocol.cpp:785-846 | with the lock held the wire grows by exactly the encoded frame, nothing stays buffered, and the length reported is right |
| Context.SfpContext.TransmitFrameImpl | src/serial_framing_protocol.cpp:765-781 | sends the payload under the current number, advances it, and records first transmissions in history |
| Context.SfpContext.TransmitHistory | src/serial_framing_protocol.cpp:626-633 | the loop sends all of history with consecutive numbers |
| Context.SfpContext.TransmitHistoryFromSeq | src/serial_framing_protocol.cpp:595-624 | refines the retransmission function of the frame level |
| Context.SfpContext.Connect | src/serial_framing_protocol.cpp:133-145 | resets receiver, numbers and history and sends SYN0 under the lock |
| Context.SfpContext.WritePacket | src/serial_framing_protocol.cpp:224-243 | refines the write of the frame level under the lock |
| Context.SfpContext.BufferOctet | src/serial_framing_protocol.cpp:669-687 | appends an octet, or forgets the frame when the buffer is full |
| Context.SfpContext.HandleNak | src/serial_framing_protocol.cpp:528-556 | refines the reaction to a request |
| Context.SfpContext.HandleSyn0 | src/serial_framing_protocol.cpp:483-492 | refines the reaction to SYN0: everything restarts |
| Context.SfpContext.HandleSyn1 | src/serial_framing_protocol.cpp:494-508 | refines the reaction to SYN1 |
| Context.SfpContext.HandleSyn2 | src/serial_framing_protocol.cpp:510-526 | refines the reaction to SYN2 |
| Context.SfpContext.HandleUsr | src/serial_framing_protocol.cpp:428-481 | refines the reaction to a data frame; the state is examined under the lock and the payload delivered without it |
| Context.SfpContext.HandleSyn | src/serial_framing_protocol.cpp:558-581 | refines the choice among the handshake frames |
| Context.SfpContext.HandleFrame | src/serial_framing_protocol.cpp:350-412 | refines the closing of a frame: length, check, dispatch |
| Context.SfpContext.CopyOutPacket | src/serial_framing_protocol.cpp:416-425 | copies the payload and only that, or fails and leaves the caller's buffer alone |
| Context.SfpContext.DeliverOctet | src/serial_framing_protocol.cpp:181-221 | receiver, endpoint, wire, deliver callback and return value all follow from the functions of the two levels |
| Link.FeedSplits | src/serial_framing_protocol.cpp:181-221 | for any octets, receiver and endpoint interact only through the frames that are closed |
| Link.OctetsImplementFrames | src/serial_framing_protocol.cpp:181-221 | refinement: the encoding of any frames, fed octet by octet, has exactly the effect of those frames handed over one by one |
| Link.DeliverAll | include/sfp/asio/messagequeue.hpp:289-294 | the read handler's loop delivers everything read, in order |
| Link.DeliverFrames | include/sfp/asio/messagequeue.hpp:289-294 | a context that is fed the encoding of frames ends in the state, with the wire and the deliveries, that the frames have at frame level |
| Pair.FrameLength | src/serial_framing_protocol.cpp:798-831 | where a frame ends in a stream of frames is seen from its delimiters alone |
| Pair.TwoContexts.Perform | src/serial_framing_protocol.cpp:133-243 | two contexts and the octets between them carry out every action of the network (delivery, loss, noise, write, connect) with the same effect |
| Pair.SafeSession | src/serial_framing_protocol.cpp:181-243 | after every safe run, what each deliver callback was given is a prefix of what was written to the other context |
| Safety.StepKeeps | src/serial_framing_protocol.cpp:428-556 | every delivery, loss, noise, write within the window and connect keeps the two-endpoint invariant over absolute positions |
| Safety.EndToEndSafety | src/serial_framing_protocol.cpp:428-633 | in every state of every run within the bound: no DIS sent, no underrun, and accepted is a prefix of written, in both directions |
| Window.WindowIsExact | src/serial_framing_protocol.cpp:595-621 | in every such state with the writer connected, the bound admits one more write iff after that write the link alone, by delivering, losing and garbling, can never bring about an underrun |
| Window.IgnoredAtLimit | src/serial_framing_protocol.cpp:553-555 | a request for the payload that fell out of a full history last is ignored iff the capacity is 63 |
| Window.ClosedWindowSpoils | src/serial_framing_protocol.cpp:605-623 | a peer that lacks a whole history when one more payload is written can be made to accept the second payload it lacks in place of the first |
| Window.HistoryOverrun | src/serial_framing_protocol.cpp:605-623 | for every capacity, a run from fresh contexts in which what the peer accepts is no prefix of what was written |
| Window.NumbersAlias | src/serial_framing_protocol.cpp:258-260 | for every capacity, a run in which 64 losses make the next payload look like the first, with no underrun |
| Recovery.RecoveryTheorem | src/serial_framing_protocol.cpp:455-526 | from every reachable quiet state with the writer connected and less than a history missing, after one more write and a lossless drain to quiet, accepted equals written iff every missing payload and the new one have at most 254 octets; then the drain has at most capacity + 3 deliveries, whether the peer was connected or had lost SYN2 |
| Settling.Settles | src/serial_framing_protocol.cpp:428-581 | from any state of a safe run in which everything written fits, whatever is in flight and whatever the handshake has come to, some lossless drain leaves the link quiet and none is longer than a potential |
| Settling.SettleAndRecover | src/serial_framing_protocol.cpp:428-633 | from any such state with less than a history missing: drain, write once more, drain again; both drains end, and a quiet link means accepted equals written |
| Handshake.Convergence | src/serial_framing_protocol.cpp:483-526 | with lossless channels, no writes and any number of connects on either side: DIS is never sent and a quiet link has both ends connected |
| Handshake.DrainTerminates | src/serial_framing_protocol.cpp:558-581 | every delivery lowers a weight that depends on who is in SENT_SYN0 |
| Handshake.AlwaysConverges | src/serial_framing_protocol.cpp:133-145 | from any point of such a run at most fourteen deliveries for each frame in flight are possible |
| Handshake.TableHoldsButTwoCells | doc/handshake.txt:8-13 | the code follows the documented table iff the cell is neither SENT_SYN0 with SYN0 nor SENT_SYN1 with sfpConnect |
| Reconnect.Reconverges | src/serial_framing_protocol.cpp:133-145 | from any quiet link whatever, with any numbers, histories and states: after any sfpConnect calls and deliveries a quiet link has both ends connected, numbers at 0 and histories empty, with nothing accepted meanwhile and no DIS sent |
| Reconnect.ReconnectEnds | src/serial_framing_protocol.cpp:558-581 | at any point of that at most fourteen deliveries for each frame in flight are possible |
| Reconnect.SafeSinceReconnect | src/serial_framing_protocol.cpp:483-526 | from then on everything proved of a safe run holds of what is written and accepted since: accepted begins with the first payload written and goes on in order |
| Reconnect.FirstSinceReconnect | src/serial_framing_protocol.cpp:470-478 | the first payload written after a reconnection is accepted |
| Early.EarlyWritesArrive | doc/handshake.txt:29-33 | writes before the handshake is over: over a lossless link, up to a history's worth from either side and any interleaving, no DIS, no underrun, accepted is a prefix of written in both directions, and a quiet link has both ends connected and everything accepted |
| Early.EarlyDrainEnds | src/serial_framing_protocol.cpp:428-526 | from any point of such a run no drain is longer than a potential |
| Early.PacketBringsAnswer | src/serial_framing_protocol.cpp:441-443 | when SYN1 was lost, one more packet brings it again and with it everything written |
| Storm.NoStorm | src/serial_framing_protocol.cpp:455-469 | no retransmission storm: both ends connected and no payload of 256 octets to retransmit, lossless delivery of any frames in flight ends, underruns included |
| Storm.SizeDecides | src/serial_framing_protocol.cpp:228-230 | on a link in step, reachable or not, after a write of up to 256 octets: the link can fall quiet iff the payload is not of 256 octets, and then it was accepted iff it has at most 254 |
| Size.QuietBySize | src/serial_framing_protocol.cpp:669-687 | from every reachable quiet link with both ends connected and less than a history missing, after one more write some lossless drain falls quiet iff the new payload has 255 octets, and so is never asked for, or neither it nor any missing payload has 256 |
| Stream.OctetReception | src/serial_framing_protocol.cpp:428-581 | what an octet makes of the receiving side depends on connection state and expected number only, not on what was written |
| Stream.SfpStream.DeliverInputSequence | include/sfp/stream.hpp:125-146 | the loop stops behind the first non-empty message and keeps exactly the octets not delivered; the assertion on the return code holds |
| Stream.SfpStream.Handshake | include/sfp/stream.hpp:172-208 | succeeds exactly when the context is connected and no operation failed but that settling ran out of time; it settles unless a message arrived; no octet read since its first read is lost; every read is issued with everything the engine wrote written out, unless a write of a packet failed |
| Stream.SfpStream.ReadUntilConnected | include/sfp/stream.hpp:233-247 | each pass discards nothing unprocessed; it ends connected with every operation good, or with the status of the read or write that failed, the last one |
| Stream.SfpStream.ReadUntilDelivery | include/sfp/stream.hpp:272-288 | entered with nothing delivered and nothing buffered, as asserted; success means a message and a connected context, and a failure is that of the last operation |
| Stream.SfpStream.AsyncRead | include/sfp/stream.hpp:320-366 | returns the next message and only that, without any operation if one waits; succeeds exactly when it returns a message and no operation failed, and else ends with the status of the last one; without a message everything read has been returned |
| Stream.SfpStream.Flush | include/sfp/stream.hpp:344-348 | what the engine wrote is handed to the next layer, all of it and once, and only if there is any |
| Stream.SfpStream.OwnWrite | include/sfp/stream.hpp:241-243 | the write buffer is handed to the next layer and emptied exactly if the write succeeds |
| Stream.SfpStream.AsyncWrite | include/sfp/stream.hpp:396-408 | sends the packet as a new frame, hands the write buffer to the next layer, and changes nothing for the reader, between reads or while one is pending |
| Stream.SfpStream.ReadSome | include/sfp/stream.hpp:337-340 | consumes one completion and reports its status; packets written while the read is pending leave what is processed alone, and what is read joins the log |
| Stream.Session | include/sfp/stream.hpp:320-366 | chunking independence: over a handshake and any reads and writes, with further writes while reads are pending and any writes failing, the messages returned are the first non-empty payloads that octet-at-a-time delivery accepts, and all of them once a read has come back without one |
| Outbox.SendsAloneExactly | include/sfp/asio/messagequeue.hpp:365-371 | voiding the outbox calls a handler that sends with nothing queued behind it, iff in some generation of handlers, each sent by the one before, the last handler sends and no other |
| Outbox.Queue.FlushWriteBuffer | include/sfp/asio/messagequeue.hpp:309-319 | an empty buffer calls the handler at once; otherwise the buffer is queued, and the first entry starts a write |
| Outbox.Queue.WritePump | include/sfp/asio/messagequeue.hpp:321-333 | starts one write of the first entry, or voids the outbox of a closed stream |
| Outbox.Queue.VoidOutbox | include/sfp/asio/messagequeue.hpp:365-371 | empties the outbox and calls every handler once, and says exactly when a write is started all the same |
| Outbox.Queue.HandleWrite | include/sfp/asio/messagequeue.hpp:335-351 | on success, error and cancellation every handler is called once; the outbox stays paced exactly unless a handler sends with the stream open and nothing queued behind it; what is kept stays complete exactly unless a write is cancelled on an open stream with entries behind it |
| Outbox.Queue.Run | include/sfp/asio/messagequeue.hpp:309-351 | in any run in which no handler sends before it returns, cancellations included: one write outstanding iff the outbox is not empty, every handler called once, and octets handed over are a prefix of those appended unless a cancellation cut off entries, which shows on an open stream when the outbox is empty |
| Outbox.TwiceStarted | include/sfp/asio/messagequeue.hpp:338-341 | a concrete run in which a handler that sends leaves two writes outstanding |
| Outbox.CancelLoses | include/sfp/asio/messagequeue.hpp:343-350 | a concrete run in which 1, 2, 3 are appended and 1, 3 are handed over |
| Threads.StepKeeps | src/serial_framing_protocol.cpp:120-130 | every small step of any thread keeps mutual exclusion, per-thread order, and agreement with a serial execution |
| Threads.ThreadsAreSerial | src/serial_framing_protocol.cpp:350-481 | in any interleaving the wire is a prefix of the whole frames of one serial order, equal to them while the lock is free; no thread waits for a lock it has, writes without it, or delivers a payload under it |
| Threads.WritersShareOneOrder | src/serial_framing_protocol.cpp:765-781 | in a session without underrun concurrent writers' frames and history agree with one log of writes |
| Threads.OwnerMoves | src/serial_framing_protocol.cpp:120-130 | the thread that has the lock can always move, and comes nearer to releasing it |

## Left out

- The ring buffer that holds the history is not part of the repository. It is modelled as a bounded
  queue that drops its front when full; its capacity is a parameter between 1 and 63.
- The write callback is assumed to consume all it is given; the code ignores its result.
- Logging, debug names, conversions to text, error codes, timers, sockets, and Boost.Asio itself.
  Reads of the next layer become a list of completions, and writes a log of octets.
- Calls of sfpConnect at the same time as delivery, which the source advises against.
- Deliver callbacks that write, and the context's own fields for callbacks: a flag says whether a
  deliver callback is set, and the write callback is always set.
- Context.SfpContext.DeliverOctet: whether an underrun happened is not visible in the class, only
  in the frame-level functions, because the code merely logs it.
- Safety.EndToEndSafety: covers one handshake begun by one side and the data after it. A connect
  after that clears history and loses messages by design. Noise reaches an endpoint only once its
  peer has left DISCONNECTED, because a disconnected peer answers the request that noise provokes
  with DIS; noise that passes the check is outside the model.
- Handshake.Convergence: channels lose nothing here. Both applications repeat sfpConnect after a
  timeout, which the theorem allows at any moment.
- Answers.HandshakeResends: assumes that the history still holds everything written since the
  handshake began, as it does for up to its capacity; Answers.HandshakeIsRequest covers the rest.
- Early.EarlyWritesArrive: the left side connects, and no more once anything is written, because
  sfpConnect clears the history by design; the right side writes once no SYN0 is on its way, because
  that clears it too. With losses an early packet can reach a peer that has not been asked to
  connect, and is answered by DIS (Answers.RestartIsNoticed).
- Storm.NoStorm: excludes SYN0 and DIS in flight, and payloads of 256 octets to be retransmitted;
  one of those can keep the link busy for ever, as Storm.SizeDecides proves for a link in step.
- Window.WindowIsExact: for capacities below 63. At 63, and only there, the request for
  what fell out of the history has the number of the next write and is ignored
  (Window.IgnoredAtLimit); one more write aliases instead, as in Window.NumbersAlias. The capacity
  has to be a power of two (include/sfp/serial_framing_protocol.h:26), so 63 cannot occur.
- Size.QuietBySize: assumes less than a history missing, as a write within the bound does.
- Stream.Session: which octets a failed write of the next layer got across is not modelled, and the phaser that serialises readers and writers appears only as the order in
  which packets are written while a read is pending.
- Pair.TwoContexts.Perform: the link delivers, loses and adds whole frames; octet streams that
  damage frames in other ways are the subject of Framing.FrameArrives and Framing.DamageIsRejected.
- Outbox.Queue.HandleWrite: handlers are data, a fixed list of sends each, with a handler for each
  send. The check of the read pump's error before a send, the write buffer being discarded by
  a new handshake, and the error code each handler is told are not modelled.
- Threads.ThreadsAreSerial: the octets of a critical section go out one at a time, but the section
  reads the endpoint when it begins and stores it when it ends, not field by field.
- The receive queue, the keepalive and the handshake operation of the message queue.
