# yael, verified

yael is a multi-threaded epoll event loop. It carries length-framed messages over
non-blocking TCP sockets, has timers, and can delay what it sends. This project models its
five cores in Dafny and proves what holds of them in every run.

Code that changes objects step by step is modelled by classes and methods with loops
(`Slicer`, `TcpSocket`, `ReadHandler`, `Tls`, `EventTable.EventLoop`,
`Timer.TimeEventListener`, `DelayedSender.DelayedMessageSender`). Whatever several threads
do at once is modelled by transition systems: a function `Next` from a state and a step
label to the state after the step, interleaved at every acquisition of a mutex and every
system call that matters. `Runs` defines runs of such systems; a claim about every
interleaving is a claim about every sequence of labels. The two forms are tied together:
the send methods of `TcpSocket.TcpSocket`, its `Receive`, and all methods of the timer and of the delayed
sender, are proved to be runs of the transition systems, so what holds there holds of them.

| file | content |
|---|---|
| `Runs.dfy` | runs of transition systems: invariants and bounded length |
| `Framing.dfy` | the wire format and a one-shot recursive decoder |
| `Slicer.dfy` | the receive buffer and the incremental slicer, which refine that decoder |
| `SendQueue.dfy` | the send queue under any number of threads |
| `SendWaiters.dfy` | threads that wait for room in the send queue |
| `SendOutcome.dfy` | what a listener sees of `do_send`: the send queue with bytes reduced to their number |
| `EndToEnd.dfy` | send queue, byte channel and slicer together |
| `SocketState.dfy` | the states of a TCP socket |
| `TcpSocket.dfy` | the socket object: pulling, receiving, sending, closing |
| `ReadHandler.dfy` | a connection's listener on the read side |
| `Tls.dfy` | the path of decrypted records into the slicer |
| `WriteInterest.dfy` | the listener's mode, epoll's interest and blocking sends |
| `EventTable.dfy` | the table of listeners, closing them, and `stop` |
| `WakeChain.dfy` | the wake-up chain that ends the workers |
| `Timer.dfy` | many deadlines on one one-shot timer |
| `DelayedSender.dfy` | the delayed sender on top of the timer |
| `SenderClose.dfy` | closing the delayed sender while a callback is at work |
| `DelayedListener.dfy` | the listener that sends with a delay or at once |

## What the code promises and what it does

- The count in front of a message includes its own four bytes
  (`src/network/DatagramMessageSlicer.h:36` and `:62`), other than the comment at
  `src/network/DatagramMessageSlicer.h:13` says. The model follows the code.
- A listener that never had a socket reports descriptor 1
  (`include/yael/NetworkSocketListener.h:114`) where its documentation says -1 (line 38).
  The model only registers listeners with their own descriptor.
- A shutdown that finds the connection gone returns without notifying threads that wait for
  room in the queue (`src/network/TcpSocket.cpp:278-285`). A listener's waiting thread then
  sleeps for good if nobody is writing and either a message is in hand, partly sent, or
  nobody is on the way to taking one out of the queue, and only then:
  `SendWaiters.SilentCloseStrands`, with runs in `SendWaiters.ListenerCanStrand` and
  `SendWaiters.WaiterCanBeStranded`. (For users who call `do_send` on closed sockets as well,
  only the message in hand matters.) No other close does that:
  `SendWaiters.OnlySilentClosesStrand`.
- An unexpected receive error ends the read handler while decoded messages are queued; the
  application is told of the disconnect and the messages stay behind.
  `ReadHandler.ErrorLeavesMessageBehind` shows it for every payload that fits the buffer, and
  `ReadHandler.NetworkSocketListener.OnReadReady` says exactly for which receive results,
  queued messages and undecoded bytes it happens.
- The delayed sender keeps its messages in a list and its deadlines in an ordered multiset.
  They agree in number only, so lowering the delay sends earlier messages before their time.
  `DelayedSender.NeverEarlyIffNonDecreasing` says exactly which delays are safe for the
  sender, and `DelayedListener.NeverEarlyIff` for the listener, which does not use the sender
  while its delay is zero.
- The delayed sender lets go of its socket without the mutex that a callback holds
  (`src/DelayedNetworkSocketListener.cpp:47-50`). A callback compares the socket with null,
  asks it whether it is valid, and sends (lines 33-41). It uses a null pointer exactly if a
  close falls between the comparison and one of the two uses:
  `SenderClose.NullUseIffClosedBeforeUse`, with runs in `SenderClose.NullUseHappens`.
- A message that is sent after the delay was set to zero bypasses the sender
  (`src/DelayedNetworkSocketListener.cpp:117-121`) and overtakes those that are waiting, and
  nothing else breaks the order: `DelayedListener.OrderKeptIffNobodyOvertakes`.
- The delayed sender stores whether a message may block (line 21) but sends it as one that may
  not (lines 38-40), so a full queue closes the connection then.
- A timer that is closed between the delivery of its event and the handler's lock makes the
  handler's read fail and the program abort, and nothing else does:
  `Timer.ReadFailsIff`.
- Closing a listener that waits to be registered can take away the entry of another listener
  whose descriptor number it has got (`EventTable.EntryCanBeStolen`; exactly when:
  `EventTable.CloseUnregisteredRemoves`). It can then be entered although it was closed for
  good, and `stop` never ends (`EventTable.StopCanHang`; also
  `EventTable.FailedTimerHangsStop`, with a timer that has no descriptor; exactly when:
  `EventTable.StopEndsIffAllActive`, and with other threads at work
  `EventTable.CanBeEmptiedIffServed`).
- Descriptor 0 is accepted for a connection (`src/network/TcpSocket.cpp:240`) but does not
  count as valid, so that closing the socket aborts: `SocketState.AcceptedSafeIff`.
- The record path hands each chunk to the slicer once, so a record must not go past the end
  of a frame: `Tls.TlsRecordReceived` says exactly which records it takes. Section 6.2.1 of
  RFC 5246 would allow a record layer to merge messages; the sender never asks for that.
- Two pieces of code turn out to be dead: the branch for a failed `epoll_wait`
  (`src/EventLoop.cpp:145-157`, `WakeChain.DecrementNeverFails`) and the second waiting loop
  of `stop` (`src/EventLoop.cpp:114-116`), which starts with the table already empty.

## Assumptions about the environment

- The kernel is a script (`TcpSocket.Kernel`) or a set of labels; every script and every
  sequence of labels is covered. The byte channel delivers in order (section 2.2 of RFC 9293).
- Hosts are little-endian. A payload is shorter than 2^32 - 4 bytes: beyond that the `uint32_t`
  length wraps and the program writes out of bounds.
- The clock does not go backwards, and times do not reach 2^63.
- `shutdown` succeeds or reports ENOTCONN; the program gives up on anything else.
- `timerfd_settime` fails only for a bad descriptor or nanoseconds out of range, as its manual
  says; the model proves that it therefore never fails. A failed `timerfd_create` is modelled
  for the timer, not for the delayed sender.
- A thread that waits for room wakes up only when it is notified. (A spurious wake-up would do
  no harm.) A socket is closed by its users only while it is open, as
  `src/NetworkSocketListener.cpp:331` sees to. A listener starts `do_send` only for an event of
  the descriptor or behind a `send` that found the socket open
  (`src/network/TcpSocket.cpp:408`, `src/EventLoop.cpp:284-290`); `SendWaiters` also says what
  holds without that.
- `close_socket` of a listener and `close` of a socket are one step each. In the send queue a
  close and its notification are two steps, and `do_send` gives up its mutex between them,
  which allows more interleavings than the code has.
- Fetching an event and looking up its listener are one step. A timer has one handler at a
  time.
- Where a claim is about orderly use of the event loop, a listener is registered once, with a
  descriptor and before it is closed for good, and closed only once registered. Nobody registers while `stop` closes
  listeners. A socket is opened only when it is fresh or closed.

## Model

| member | source | states |
|---|---|---|
| `Framing.StoreLE` | src/network/DatagramMessageSlicer.h:42-42 | The four header bytes load back to the number that was stored, for every 32-bit number |
| `Framing.FrameLayout` | src/network/DatagramMessageSlicer.h:34-43 | On the wire a frame is its own length, header included, least significant byte first, and then the payload |
| `Framing.RestIsIncomplete` | src/network/DatagramMessageSlicer.h:169-172 | What the decoder leaves undecoded is always less than one frame |
| `Framing.DecodeSplit` | src/network/DatagramMessageSlicer.h:112-177 | Cutting any byte string anywhere and carrying the undecoded tail over changes neither messages nor tail, also across invalid headers |
| `Framing.ChunkIndependence` | src/network/TcpSocket.cpp:317-336 | Every split of a stream into any chunks decodes to the messages and tail of the one-shot decoder |
| `Framing.RoundTrip` | src/network/DatagramMessageSlicer.h:34-43 | The frames of any list of payloads decode to exactly those payloads with nothing left over |
| `Framing.PrefixDecodesToPrefix` | src/network/DatagramMessageSlicer.h:112-177 | Any arrived part of the frames decodes to a prefix of the payloads, and all of it to all of them |
| `Slicer.Buffer.constructor` | include/yael/network/buffer.h:13-22 | A new buffer of 4096 bytes is empty |
| `Slicer.Buffer.Reset` | include/yael/network/buffer.h:18-22 | The buffer is empty and its cursor invalid |
| `Slicer.Buffer.AdvancePosition` | include/yael/network/buffer.h:52-54 | The cursor passes exactly the bytes looked at and stays within the buffer |
| `Slicer.Buffer.ResetAtEnd` | src/network/DatagramMessageSlicer.h:174-176 | The buffer is empty afterwards exactly if nothing was left to read |
| `Slicer.Buffer.Fill` | src/network/TcpSocket.cpp:348-359 | The unread bytes are exactly the received chunk |
| `Slicer.Partial.ReadHeader` | src/network/DatagramMessageSlicer.h:123-130 | The header bytes seen so far are those seen before followed by the copied ones, within the header |
| `Slicer.Partial.ReadBody` | src/network/DatagramMessageSlicer.h:143-157 | The stream bytes a message stands for grow by exactly the copied ones, within the body |
| `Slicer.SeenDecodes` | src/network/DatagramMessageSlicer.h:70-95 | A saved partial message stands for an undecoded tail, a complete one decodes to its payload and nothing else |
| `Slicer.ReadOnSeen` | src/network/DatagramMessageSlicer.h:121-167 | After reading on, the message holds what it held followed by what was taken, and is complete unless everything was taken |
| `Slicer.ReadOnSlices` | src/network/DatagramMessageSlicer.h:112-177 | One round of the slicer does what the one-shot decoder does with the bytes taken, in all three outcomes, and takes at least one byte if there is one |
| `Slicer.DatagramMessageSlicer.constructor` | src/network/DatagramMessageSlicer.h:20-20 | A new slicer has no messages and no tail |
| `Slicer.DatagramMessageSlicer.GetMessage` | src/network/DatagramMessageSlicer.h:55-66 | Gives out the oldest payload and keeps the others and the tail, or none if there is none |
| `Slicer.DatagramMessageSlicer.TakeCurrent` | src/network/DatagramMessageSlicer.h:113-119 | Moves the saved message out, or starts a blank one |
| `Slicer.DatagramMessageSlicer.Store` | src/network/DatagramMessageSlicer.h:163-172 | A complete message joins the queue, any other becomes the tail |
| `Slicer.DatagramMessageSlicer.Advance` | src/network/DatagramMessageSlicer.h:112-177 | The new cursor, queue and tail after one call; an invalid header drops the partial message and keeps the cursor behind it |
| `Slicer.DatagramMessageSlicer.ProcessBuffer` | src/network/DatagramMessageSlicer.h:112-177 | One call takes one step of the one-shot decoder, at most one message, reports an invalid header exactly when there is one, keeps the saved-message invariant, and lowers unread bytes plus one; the two internal errors are unreachable |
| `Slicer.PrepareMessage` | src/network/DatagramMessageSlicer.h:34-43 | The block that is shifted in place is the frame of the payload |
| `SocketState.CloseNeverAborts` | src/network/TcpSocket.cpp:293-306 | In every run that opens only fresh or closed sockets, states that need a descriptor have one, so `close` never aborts |
| `SocketState.OpeningIsSafeWhenReusable` | src/network/TcpSocket.cpp:128-205 | Opening keeps that, whatever the kernel answers, if and only if the socket is fresh or closed |
| `SocketState.StatesAreEnteredBy` | src/network/TcpSocket.cpp:128-315 | Each state is entered only by the successful call it is named after, with the descriptor the kernel gave |
| `SocketState.CallsEnterStates` | src/network/TcpSocket.cpp:128-315 | And each call enters its state; closing leaves no descriptor |
| `SocketState.FailedOpeningLeaves` | src/network/TcpSocket.cpp:128-205 | A failed opening leaves a descriptor behind if and only if one was created and it was not the connecting that failed; closing then frees it |
| `SocketState.AcceptedSafeIff` | src/network/TcpSocket.cpp:230-248 | An accepted socket can always be closed without abort if and only if its descriptor is not 0 |
| `SocketState.TwoCallsClose` | src/network/TcpSocket.cpp:272-315 | Any two calls of `close` close a socket, and `close` returns true exactly when the descriptor is gone |
| `TcpSocket.TcpSocket.constructor` | src/network/TcpSocket.cpp:28-38 | A new socket has no descriptor and nothing queued |
| `TcpSocket.TcpSocket.Accepted` | src/network/TcpSocket.cpp:40-59 | An accepted socket is connected and has nothing queued; it is in a valid state if and only if its descriptor is not 0 |
| `TcpSocket.TcpSocket.Close` | src/network/TcpSocket.cpp:272-315 | The two-phase close of the state machine; losing the descriptor empties the buffer; waiting threads are notified unless a connected socket is shut down; the invalid state is unreachable |
| `TcpSocket.TcpSocket.ReceiveData` | src/network/TcpSocket.cpp:338-384 | Which results fill the buffer, close the socket, or throw; messages and tail stay |
| `TcpSocket.TcpSocket.Refill` | src/network/TcpSocket.cpp:320-327 | A refill moves the next chunk of the stream into the buffer without changing what is to come, or finds a pause |
| `TcpSocket.TcpSocket.PullMessages` | src/network/TcpSocket.cpp:317-336 | However the stream was cut, the loop ends and messages and tail are those of the one-shot decoder on tail and stream; the socket is closed exactly if the stream ended or failed |
| `TcpSocket.TcpSocket.Receive` | src/network/TcpSocket.cpp:386-400 | Of the queued and newly decoded messages the first is given out and the others stay in order; nothing is given out on an exception |
| `TcpSocket.SlicedStep` | src/network/TcpSocket.cpp:329-334 | One slicer call takes one decoding step of the whole remaining stream |
| `TcpSocket.TcpSocket.TakeNext` | src/network/TcpSocket.cpp:480-495 | The dequeue step of the transition system on the object's fields; waiting threads are notified exactly if a message was taken out |
| `TcpSocket.Kernel.Write` | src/network/TcpSocket.cpp:507-508 | The kernel answers from its script and takes that part of what it is offered |
| `TcpSocket.TcpSocket.WriteOnce` | src/network/TcpSocket.cpp:506-535 | The kernel's answer to the rest of the message decides: bytes taken are not offered again, EAGAIN ends with true and leaves the connection alone, a lost connection ends with false and any other failure with an exception, both closed |
| `TcpSocket.TcpSocket.WriteRest` | src/network/TcpSocket.cpp:506-535 | The inner loop goes on until the message is out or an answer ends it |
| `TcpSocket.TcpSocket.CheckOpen` | src/network/TcpSocket.cpp:497-499 | A message is written exactly if the socket is open |
| `TcpSocket.TcpSocket.WriteCurrent` | src/network/TcpSocket.cpp:501-538 | The same, and the message is let go of exactly if it is out |
| `TcpSocket.TcpSocket.DoSend` | src/network/TcpSocket.cpp:473-540 | `do_send` ends, is a run of the transition system by the steps of its thread alone, and the answers of the kernel decide it: it goes on while bytes are taken, until nothing is left or an answer ends it; the socket stays open exactly if no answer was a failure; as many bytes go out as the answers say; on a closed socket it writes nothing |
| `TcpSocket.TcpSocket.Append` | src/network/TcpSocket.cpp:412-425 | The message is framed and accepted exactly when the queue is not full |
| `TcpSocket.TcpSocket.Accept` | src/network/TcpSocket.cpp:404-425 | Which of the three refusals is thrown when; otherwise the framed message joins the end of the queue |
| `TcpSocket.TcpSocket.Send` | src/network/TcpSocket.cpp:402-432 | A refused message leaves everything unchanged, any other is accepted once; an asynchronous call writes nothing and returns true, a synchronous one does what `do_send` does with the answers of the kernel; the whole call is a run of the transition system |
| `SendQueue.StepConserves` | src/network/TcpSocket.cpp:402-540 | Every step keeps byte conservation and the exact byte counter |
| `SendQueue.StepLocks` | src/network/TcpSocket.cpp:474-539 | Every step keeps: exactly the owner of the send mutex is inside `do_send`, and only it sees a finished message |
| `SendQueue.StepWakes` | src/network/TcpSocket.cpp:465-495 | Every step but a close that does not notify keeps: a sleeper has a reason to sleep or a notification is on its way |
| `SendQueue.StepWaiting` | src/network/TcpSocket.cpp:465-495 | Every step keeps that, and that nobody sleeps with an empty queue |
| `SendQueue.StepKeepsInv` | src/network/TcpSocket.cpp:402-540 | All of these together |
| `SendQueue.EveryRunIsSafe` | src/network/TcpSocket.cpp:402-540 | The invariant holds in every interleaving of any number of threads |
| `SendQueue.NothingIsLost` | src/network/TcpSocket.cpp:402-540 | In every interleaving, also after a close: bytes written, rest of the current message and queue are the frames of all accepted payloads in order; the counter is exact and below the limit plus one largest frame; one thread sends at a time; no waiter is stranded unless a close failed to notify |
| `SendQueue.QueueSizeBound` | src/network/TcpSocket.cpp:412-425 | The byte counter is never negative and stays below the limit plus one largest frame |
| `SendQueue.WireCounts` | src/network/TcpSocket.cpp:506-512 | In every run as many bytes reach the wire as the kernel says it took |
| `SendQueue.DoSendEndsByUnlocking` | src/network/TcpSocket.cpp:473-540 | A step ends `do_send` if and only if it gives up the send mutex |
| `SendQueue.DoSendEnds` | src/network/TcpSocket.cpp:473-540 | True means an unfinished message in hand, false nothing left or closed, an exception closed, and no ending loses bytes |
| `SendWaiters.WaitEndsIff` | src/network/TcpSocket.cpp:465-471 | A wait for room ends only by looking at the queue, and then if and only if the queue is empty or the socket closed |
| `SendWaiters.SendingWakes` | src/network/TcpSocket.cpp:473-540 | While the socket is open, a waiting thread can be woken by sending alone, with no close and no failed write |
| `SendWaiters.StepAbandoned` | src/network/TcpSocket.cpp:465-495 | The state in which a listener's waiting thread is lost is kept by every step |
| `SendWaiters.ListenerCanWake` | src/network/TcpSocket.cpp:465-495 | From any other state some continuation wakes it |
| `SendWaiters.SleepsForGoodIff` | src/network/TcpSocket.cpp:465-471 | A listener's waiting thread stays asleep in every continuation if and only if the socket is closed, no notification is due, nobody writes, and a message is in hand or nobody is on the way to taking one |
| `SendWaiters.AnyUserSleepsForGoodIff` | src/network/TcpSocket.cpp:465-471 | The same for users who call `do_send` at any time: then a message must be in hand |
| `SendWaiters.SilentCloseStrands` | src/network/TcpSocket.cpp:278-285 | A close that does not notify makes a waiting thread sleep for good if and only if, before it, nobody writes and a message is in hand or, for a listener, nobody is on the way to taking one |
| `SendWaiters.OnlySilentClosesStrand` | src/network/TcpSocket.cpp:308-312 | In every run, a listener's thread sleeps for good only after such a close |
| `SendWaiters.ListenerCanStrand` | src/network/TcpSocket.cpp:278-285 | A concrete run with a queued message after which a listener's waiting thread sleeps in every continuation, although a call of `do_send` would wake it |
| `SendWaiters.WaiterCanBeStranded` | src/network/TcpSocket.cpp:278-285 | A concrete run with a partly written message after which a waiting thread sleeps in every continuation, whatever the users do |
| `SendOutcome.DoSendIsPossible` | src/network/TcpSocket.cpp:473-540 | Every run of `do_send`, interleaved with closes and waiting threads, ends in an outcome that the listener's transition system allows, with exactly the bytes it then has left |
| `EndToEnd.StepReceives` | src/network/TcpSocket.cpp:317-400 | Every step keeps: what arrived was written and decodes to what was given out, what is ready, and the tail |
| `EndToEnd.DeliveredIsPrefix` | src/network/TcpSocket.cpp:317-540 | What was given out is a prefix of what was accepted, and all of it once everything is drained |
| `EndToEnd.EndToEndDelivery` | src/network/TcpSocket.cpp:317-540 | The same over every interleaving of senders, every partial write, every close and every chunking |
| `EndToEnd.EverythingCanArrive` | src/network/TcpSocket.cpp:317-540 | Once the sender has nothing left, some continuation gives out all that was accepted |
| `EndToEnd.SenderRuns` | src/network/TcpSocket.cpp:402-540 | Every run of the send queue is one of the whole system |
| `EndToEnd.ScriptArrives` | src/network/TcpSocket.cpp:317-336 | The chunks of a pull are steps of the channel that together bring what the whole stretch brings |
| `EndToEnd.ReceiveFromLink` | src/network/TcpSocket.cpp:386-400 | A call of `receive` on the socket object, with the kernel handing over the next bytes of the channel, is a run of that system, so what it gives out continues the prefix of the accepted payloads |
| `ReadHandler.NetworkSocketListener.CloseSocketInternal` | src/NetworkSocketListener.cpp:327-349 | Disconnect (for connections) and unregister come once, when the socket is closed; decoded messages stay |
| `ReadHandler.UpToPause` | src/network/TcpSocket.cpp:338-384 | What part of the receive script one pull uses and what bytes it brings |
| `ReadHandler.NetworkSocketListener.DeliverAll` | src/NetworkSocketListener.cpp:297-312 | The loop ends and hands over all queued and decoded messages in order, unless a receive failed; then one for each earlier pause |
| `ReadHandler.TrackOn` | src/NetworkSocketListener.cpp:298-309 | One turn of the loop keeps track of whether messages will stay behind, from what was there before the handler started |
| `ReadHandler.NetworkSocketListener.OnReadReady` | src/NetworkSocketListener.cpp:296-321 | Every complete frame received reaches the application in order before the disconnect; messages stay behind if and only if, before the call, the socket is valid and the results to come are data and EAGAIN with a message to hand over at each EAGAIN, up to an unexpected error by which there are more messages than pauses |
| `ReadHandler.ErrorLeavesMessageBehind` | src/NetworkSocketListener.cpp:310-318 | A frame followed by an unexpected error is decoded, the disconnect reported, and the message not delivered |
| `Tls.TakenWholeIffFits` | src/network/TlsContext.cpp:105-112 | The slicer takes a chunk whole and without complaint if and only if it does not go past the end of the current frame |
| `Tls.FeedChunk` | src/network/TlsContext.cpp:105-112 | A chunk leaves the buffer reset exactly when it fits, and then decodes like the one-shot decoder |
| `Tls.TlsRecordReceived` | src/network/TlsContext.cpp:89-116 | A record is taken without exception and with the buffer reset if and only if the buffer is empty and the record's chunks fit, and then yields the one-shot decoder's messages and tail; with bytes left in the buffer it throws and changes nothing |
| `Tls.RecordFits` | src/network/TlsContext.cpp:98-115 | A record within one frame fits however it is cut into buffers |
| `Tls.PiecesFit` | src/network/TlsContext.cpp:19-19 | The payload of a frame may be cut into records anywhere |
| `Tls.SenderRecordsFit` | src/network/TlsContext.cpp:14-20 | Records of the sender never cross the end of a frame, however the record layer cuts payloads |
| `Tls.SenderRecordsAreFrames` | src/network/TlsContext.cpp:14-20 | Together those records are the frames of the payloads |
| `Tls.ReceiveRecords` | src/network/TlsContext.cpp:89-116 | A sequence of fitting records never throws and decodes like the one-shot decoder |
| `Tls.TlsRoundTrip` | src/network/TlsContext.cpp:14-20 | The record path gives out exactly the payloads sent and never throws |
| `WriteInterest.ActForward` | src/network/TcpSocket.cpp:272-315 | No step brings a shut down or closed connection back |
| `WriteInterest.ActWithoutMutex` | src/NetworkSocketListener.cpp:34-56 | Only the owner of the send mutex changes the mode or what is left to send |
| `WriteInterest.ActWatched` | src/EventLoop.cpp:246-268 | Every step keeps epoll's interest equal to the flags of the mode, and leaves a disarmed descriptor only to a handler |
| `WriteInterest.ActKnows` | src/NetworkSocketListener.cpp:96-212 | Every step of `send` and `on_write_ready` keeps what its thread knows, and gives up the mutex only with the mode asking for writability exactly if bytes are left |
| `WriteInterest.ThreadStepKeepsInv` | src/NetworkSocketListener.cpp:34-212 | A step of any thread keeps the whole invariant |
| `WriteInterest.EveryRunIsSafe` | src/NetworkSocketListener.cpp:34-212 | The invariant holds in every interleaving of senders, handlers, closes and registration |
| `WriteInterest.NoLostWriteInterest` | src/NetworkSocketListener.cpp:34-164 | With the send mutex free, a connected socket is in ReadWrite mode if and only if it has unsent bytes, and if it is in epoll, epoll watches for writability in just that case and is armed or a worker will re-arm it |
| `WriteInterest.SendEnqueuesOnce` | src/NetworkSocketListener.cpp:166-212 | Over any number of retries a message is enqueued at most once, and exactly once when `send` returns on a connection |
| `WriteInterest.AttemptDecides` | src/NetworkSocketListener.cpp:172-201 | A full queue makes a blocking call wait and refuses any other, as do an empty message and a closed socket, with nothing changed; otherwise the message is enqueued |
| `WriteInterest.WakesIffEmptyOrClosed` | src/NetworkSocketListener.cpp:189-191 | A blocked call goes on if and only if the queue is empty or the socket closed |
| `WriteInterest.ClosingDisconnects` | src/NetworkSocketListener.cpp:327-349 | After a close the socket is not connected, and once closed the listener is out of the table; a first close only shuts down |
| `WriteInterest.SoloIsRun` | src/NetworkSocketListener.cpp:96-212 | What one thread does on its own is a run |
| `WriteInterest.SendGoesThrough` | src/NetworkSocketListener.cpp:166-212 | With nobody in the way a call of `send` with room in the queue enqueues its message, sends as far as `do_send` gets, and sets the mode or closes accordingly |
| `WriteInterest.EventIsHandled` | src/EventLoop.cpp:305-324 | A delivered event is acted on: writability leads to a send and back to ReadOnly when nothing is left, an exception or an error to a close, a dead socket out of the table; only a connection that the send itself finds lost stays in the table; whatever stays in epoll is armed again |
| `WriteInterest.PendingCanBeSent` | src/EventLoop.cpp:305-324 | In every run, a connection in epoll with unsent bytes and nobody at work on it can get an event for writability, and then every outcome of `do_send` comes about |
| `WriteInterest.UnlockedSetModeUnreachable` | src/NetworkSocketListener.cpp:103-115 | The `set_mode` that would run without the mutex is never reached |
| `EventTable.CloseFollowsSocket` | src/NetworkSocketListener.cpp:327-349 | Closing a listener closes its socket, and it disconnects and leaves the table exactly when that leaves no descriptor for the first time; no other listener changes |
| `EventTable.ConnectionClosesInTwo` | src/NetworkSocketListener.cpp:327-349 | A connection takes two closes unless it is found lost: the first neither calls back nor takes its entry, the second does both |
| `EventTable.CloseRemovesOwnEntry` | src/EventLoop.cpp:270-293 | Closing a registered listener removes its own entry and no other, even if its number is in use again |
| `EventTable.StepKeepsSound` | src/EventLoop.cpp:210-293 | Every step, orderly or not, keeps: an entry belongs to a listener with that number, and the disconnect flag counts the callbacks |
| `EventTable.DisconnectsAtMostOnce` | src/NetworkSocketListener.cpp:336-348 | In every run, orderly or not, `on_disconnect` comes at most once and never for acceptors and timers |
| `EventTable.StepKeepsInv` | src/EventLoop.cpp:210-293 | Every orderly step keeps: registered listeners are in the table exactly while they are not closed for good |
| `EventTable.EveryOrderlyRunIsSafe` | src/EventLoop.cpp:210-293 | That holds in every orderly run |
| `EventTable.DisconnectsOnce` | src/NetworkSocketListener.cpp:336-348 | In every orderly run every registered connection has had exactly one `on_disconnect` by the time the table is empty |
| `EventTable.CloseUnregisteredRemoves` | src/EventLoop.cpp:276-291 | Closing a listener outside the table removes another's entry if and only if that has its number and the close completes |
| `EventTable.EntryCanBeStolen` | src/EventLoop.cpp:214-222 | A concrete run in which closing a listener that waits for its number takes away the entry of another that is still active |
| `EventTable.ClosedListenerCanBeEntered` | src/EventLoop.cpp:214-222 | That run goes on to enter a listener that has been closed for good |
| `EventTable.CloseProgressIffActive` | src/NetworkSocketListener.cpp:327-349 | Closing a listener changes nothing if and only if it was closed for good before |
| `EventTable.CanBeEmptiedIffServed` | src/EventLoop.cpp:102-116 | Closes and deaths, by `stop` and any other thread, can empty the table if and only if every number in it belongs to some listener that is not closed for good |
| `EventTable.StopEndsIffAllActive` | src/EventLoop.cpp:102-112 | The loop of `stop` is bounded, whatever it picks, if and only if no entry is that of a listener closed for good; otherwise it goes on for any number of rounds and no number of them empties the table |
| `EventTable.StopEndsAfterOrderlyRuns` | src/EventLoop.cpp:102-112 | After every orderly run the loop of `stop` is bounded |
| `EventTable.StopCanHang` | src/EventLoop.cpp:102-112 | A concrete run to a table that `stop` never empties, nor any closes of other threads |
| `EventTable.FailedTimerHangsStop` | src/TimeEventListener.cpp:8-20 | A timer whose descriptor could not be created leads there in two steps |
| `EventTable.RankStep` | src/EventLoop.cpp:102-112 | Without registrations the rank of the table never grows and drops with every removal |
| `EventTable.CloseLowersRank` | src/EventLoop.cpp:102-112 | Closing a listener in the table strictly lowers the rank |
| `EventTable.EventLoop.StopRound` | src/EventLoop.cpp:103-111 | A round of `stop` lowers the rank, if no entry is that of a listener closed for good, even if other threads close listeners, or that very listener, meanwhile |
| `EventTable.EventLoop.Stop` | src/EventLoop.cpp:89-119 | On any table, whatever other threads close meanwhile: `stop` ends with the table empty within as many rounds as the rank if no entry is that of a listener closed for good, and in no number of rounds if some number belongs to such listeners only; if the others keep to the rules, every registered connection has had exactly one disconnect; a second call does nothing |
| `WakeChain.StepToken` | src/EventLoop.cpp:31-48 | Every step keeps: the eventfd covers the pending edge and everybody who took one; once signalled the token is on the ready list or with a worker; a stopped loop has been signalled or is going to be |
| `WakeChain.EveryRunIsSafe` | src/EventLoop.cpp:130-176 | That holds in every interleaving of workers, callers of `stop`, signals and events |
| `WakeChain.DecrementNeverFails` | src/EventLoop.cpp:40-48 | Whoever got the semaphore's event finds it positive; nobody takes the branch for a failed `epoll_wait` |
| `WakeChain.EventFdBounded` | src/EventLoop.cpp:31-48 | In every run the eventfd holds no more than the returned calls of `stop` and the terminated workers account for |
| `WakeChain.WorkersStay` | src/EventLoop.cpp:295-325 | In every run, as long as the loop runs, a worker has terminated if and only if it was given an event for an unknown descriptor |
| `WakeChain.WhoTerminates` | src/EventLoop.cpp:139-176 | A worker terminates at the loop head, for an unknown event, or behind its increment: whoever leaves the wait because of `stop` passes the token on |
| `WakeChain.WorkerWaitsAgain` | src/EventLoop.cpp:295-325 | And every other worker gets back to waiting by its own steps |
| `WakeChain.WaitEnds` | src/EventLoop.cpp:135-137 | What ends a worker's wait: the semaphore, a listener's event, which it handles and then goes on, an unknown one; a signal changes nothing while the loop runs |
| `WakeChain.StoppedStep` | src/EventLoop.cpp:135-176 | After `stop`, every step brings the workers closer to termination |
| `WakeChain.StopStops` | src/EventLoop.cpp:89-119 | A call of `stop` on a running loop signals once and leaves the workers to the wake-up chain |
| `WakeChain.SomeWorkerCanStep` | src/EventLoop.cpp:135-176 | After `stop`, while a worker is left, some worker can move without any signal or listener event |
| `WakeChain.AllWorkersTerminate` | src/EventLoop.cpp:295-326 | From any state of any run in which the loop is stopped and every `stop` has returned, no run is longer than the workers' rank, and a run that cannot go on has ended every worker |
| `Timer.UpperBoundSplits` | src/TimeEventListener.cpp:116-116 | Where the multiset inserts: behind everything not later, before everything later |
| `Timer.InsertAdds` | src/TimeEventListener.cpp:116-116 | Inserting adds exactly one occurrence of the deadline |
| `Timer.InsertSorted` | src/TimeEventListener.cpp:116-120 | Inserting keeps the order, and the first element changes exactly when the new one is earlier |
| `Timer.CountDue` | src/TimeEventListener.cpp:65-80 | Everything counted is due and the next one is not |
| `Timer.TimerValue` | src/TimeEventListener.cpp:147-157 | The timer value is positive and the delay in nanoseconds, except one nanosecond for zero |
| `Timer.ScheduleKeepsInv` | src/TimeEventListener.cpp:105-130 | Scheduling keeps the timer covering the earliest deadline |
| `Timer.StepConserves` | src/TimeEventListener.cpp:61-139 | Every step keeps the balance of deadlines and callbacks |
| `Timer.StepKeepsInv` | src/TimeEventListener.cpp:49-169 | Every step keeps cover, handler and balance |
| `Timer.EveryRunIsSafe` | src/TimeEventListener.cpp:49-169 | That holds in every interleaving of the handler with schedulers, also from callbacks |
| `Timer.NoLostDeadline` | src/TimeEventListener.cpp:49-169 | With the descriptor open and no handler at work, queued deadlines have the timer armed or expired unread, and an armed timer never expires before the earliest |
| `Timer.NoDeadlinePutOff` | src/TimeEventListener.cpp:49-169 | In every run an armed timer expires by the end of the millisecond of every queued deadline, plus the time that passed between reading the clock and setting the timer |
| `Timer.PromptRunsAreNotLate` | src/TimeEventListener.cpp:49-169 | In runs in which no time passes there, by the end of that millisecond |
| `Timer.TimersConserved` | src/TimeEventListener.cpp:61-139 | Accepted deadlines are as multisets those fired, cleared and queued; none fired early; one callback each; the abort behind the callbacks is unreachable |
| `Timer.WakeUpFires` | src/TimeEventListener.cpp:61-80 | A wake-up with deadlines queued always fires the earliest |
| `Timer.ReadFailsIff` | src/TimeEventListener.cpp:50-59 | In every run the handler's read fails if and only if a close comes before the handler gets its lock |
| `Timer.TimeEventListener.constructor` | src/TimeEventListener.cpp:8-11 | A new timer is unarmed and empty, and open if its descriptor could be created |
| `Timer.TimeEventListener.SetTime` | src/TimeEventListener.cpp:159-161 | What the kernel does: arms, disarms or fails |
| `Timer.TimeEventListener.InternalSchedule` | src/TimeEventListener.cpp:141-169 | The timer is armed for the delay and an unread expiration forgotten; setting it never fails |
| `Timer.TimeEventListener.Schedule` | src/TimeEventListener.cpp:105-130 | The scheduling step of the transition system on the object's fields: the deadline is queued and the timer set exactly if it is now the earliest; false exactly when the descriptor is closed |
| `Timer.TimeEventListener.Unschedule` | src/TimeEventListener.cpp:132-139 | The clearing step: nothing is queued; true exactly when there was something to clear |
| `Timer.TimeEventListener.CloseSocket` | src/TimeEventListener.cpp:15-31 | The closing step, and none for a closed timer |
| `Timer.TimeEventListener.EraseDue` | src/TimeEventListener.cpp:65-80 | The loop removes exactly the deadlines that are due and counts them |
| `Timer.TimeEventListener.DrainDue` | src/TimeEventListener.cpp:55-80 | Reading the timer and the loop are the draining step |
| `Timer.TimeEventListener.AwaitExpiration` | src/TimeEventListener.cpp:54-59 | The read returns when the timer expires, also if it was set again since the event |
| `Timer.HeadLeads` | src/TimeEventListener.cpp:49-80 | Locking, waiting, and taking out what is due then is a run of the transition system |
| `Timer.TimeEventListener.OnReadReady` | src/TimeEventListener.cpp:49-103 | The whole handler, with other threads and callbacks at work in between, is a run of the transition system: it locks, waits if it has to, drains, makes one callback for each deadline due then, and finishes, and all else is done by others; it gives up exactly if the descriptor was closed before |
| `Timer.TimeEventListener.Rearm` | src/TimeEventListener.cpp:88-96 | The finishing step; the abort is unreachable |
| `DelayedSender.StepCouples` | src/DelayedNetworkSocketListener.cpp:28-79 | Every step keeps list and deadlines coupled by number |
| `DelayedSender.StepFifo` | src/DelayedNetworkSocketListener.cpp:28-79 | Every step keeps: what was scheduled is what has left followed by what is waiting |
| `DelayedSender.StepKeepsInv` | src/DelayedNetworkSocketListener.cpp:28-79 | Every step keeps both and the invariant of the timer below |
| `DelayedSender.EveryRunIsSafe` | src/DelayedNetworkSocketListener.cpp:28-79 | That holds in every run with any delays |
| `DelayedSender.CallbackFindsMessage` | src/DelayedNetworkSocketListener.cpp:28-45 | A callback that is owed finds a message in the list; messages leave in schedule order; while the timer is open there are exactly as many messages as deadlines and callbacks owed |
| `SenderClose.NullUseIffClosedBeforeUse` | src/DelayedNetworkSocketListener.cpp:28-50 | In every run a callback uses a null pointer if and only if a close falls between its comparison with null and one of its two uses of the pointer |
| `SenderClose.NoNullUseWithMutex` | src/DelayedNetworkSocketListener.cpp:28-50 | No run would do that if closing took the mutex |
| `SenderClose.NullUseHappens` | src/DelayedNetworkSocketListener.cpp:28-50 | Concrete runs to both null uses, for a message with any delay |
| `DelayedSender.InOrderIsPunctual` | src/DelayedNetworkSocketListener.cpp:28-45 | If deadlines come in the order of the messages, no message leaves before its own |
| `DelayedSender.UnloweredDelaysArePunctual` | src/DelayedNetworkSocketListener.cpp:52-79 | In every run whose delays are never lowered, no message leaves before its deadline |
| `DelayedSender.LoweredDelaySendsEarly` | src/DelayedNetworkSocketListener.cpp:52-79 | For any delays handed to the sender that are lowered somewhere, a run that sends a message before its deadline |
| `DelayedSender.NeverEarlyIffNonDecreasing` | src/DelayedNetworkSocketListener.cpp:28-79 | A sequence of delays is safe in every run if and only if it never decreases |
| `DelayedListener.SenderRun` | src/DelayedNetworkSocketListener.cpp:114-149 | Below every run of the listener there is a run of the sender with the positive delays |
| `DelayedListener.ListenerRun` | src/DelayedNetworkSocketListener.cpp:114-149 | Every run of the sender is one below a listener whose delays may be zero in between |
| `DelayedListener.NeverEarlyIff` | src/DelayedNetworkSocketListener.cpp:114-153 | No run of a listener with given delays sends a delayed message early if and only if the delays, those of zero left out, are never lowered |
| `DelayedListener.OrderKeptIffNobodyOvertakes` | src/DelayedNetworkSocketListener.cpp:114-149 | In every run messages leave in the order of the calls of `send` if and only if none was sent without a delay while others were waiting |
| `DelayedSender.DelayedMessageSender.constructor` | src/DelayedNetworkSocketListener.cpp:25-26 | A new sender is attached and has nothing pending |
| `DelayedSender.DelayedMessageSender.Schedule` | src/DelayedNetworkSocketListener.cpp:52-79 | The message joins the end of the list with the deadline its delay gives, and that deadline joins the timer's, in a run of the transition system with that delay |
| `DelayedSender.DelayedMessageSender.OnTimeEvent` | src/DelayedNetworkSocketListener.cpp:28-45 | The list is not empty, its first message is removed, and sent exactly if there is a valid socket, at the present time |
| `DelayedSender.DelayedMessageSender.CloseSocket` | src/DelayedNetworkSocketListener.cpp:47-50 | The sender is detached and its timer closed; pending messages stay |

## Left out

- Botan TLS, certificates, the handshake and `TlsSocket`'s own state: they rest on a library that is not part of this repository.
- `Address`, name resolution, socket creation, `accept`, `fcntl`, logging and the event loop singleton: plumbing around system calls.
- `StreamMessageSlicer`: it gives out each received chunk whole as one message, so there is no framing to reassemble and no round trip to state.
- The `shared_ptr` overload of `TcpSocket::send`: it does not frame its data (`src/network/TcpSocket.cpp:451-455`), so the round trip does not hold for it; the delayed sender and the listener's `send` treat all overloads alike.
- `release_socket`: by its own comment it can race, and it unregisters without the disconnect flag.
- Interleavings inside `close_socket` of a listener: the disconnect flag is tested without the mutex on one path (`src/NetworkSocketListener.cpp:333-338`), so at most one disconnect is proved for atomic closes.
- Prompt disconnects after a failed write: `on_write_ready` does not call `close_socket` when `do_send` closes the socket and returns false, so only the claims about `stop` and the read handler hold.
- Lengths above 32 bits in the listener's `send`, whose `size_t` is narrowed to `uint32_t`.
- Memory management: blocks from `new[]` passed to `realloc`, leaks, and moved-from messages. Bodies of messages and the queues are sequences; only the receive buffer and the block of an outgoing message are arrays. Bytes of a fresh body before they are received are taken to be zero; no result depends on them.
- Epoll events with neither read, write nor error flags, on which the program aborts, and more than one pending expiration of a timer, which a one-shot timer does not have.
- TcpSocket.TcpSocket.DoSend: the object runs it without interruption; what other threads do in between is covered by `SendQueue`.
- TcpSocket.TcpSocket.Send: likewise, and it finds the send mutex free.
- EventTable.EventLoop.Stop: it shows a given number of rounds, since the loop need not end. Other threads act through scripts of closes and deaths while the lock is free; the write to the eventfd at the end is the `StopEnd` step of `WakeChain`.
- Fairness: `WakeChain.AllWorkersTerminate` bounds runs and excludes deadlock, it does not say how soon the system schedules a worker.
