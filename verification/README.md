# Verified model of ttrpc-rust

A Dafny model of the core of ttrpc-rust, a light-weight RPC runtime that multiplexes unary calls
and streams over one byte stream, and of two algorithms of its code generators. Concurrent parts
are state machines: one step per stretch of code between two points at which another task or thread
may run, every interleaving, and every await may time out or be dropped. Loops over buffers, maps
and names are imperative methods over the same state as in the source, proved against functions
that describe the result from the other side of the operation.

| file | what it models |
|---|---|
| `Wire.dfy`, `Transport.dfy`, `PrefixBuffer.dfy` | the frame format; a byte stream with short reads and writes; the reused prefix buffer |
| `AsyncFraming.dfy`, `SyncChannel.dfy` | reading and writing frames, with oversized bodies discarded, and the loops around them |
| `Pipeline.dfy` | the payload transform as a pair of counter machines, and both pipelines |
| `Outbound.dfy`, `OutboundSteps.dfy`, `OutboundTheorems.dfy`, `OutboundReturns.dfy` | `transform_send`, the bounded queue and the writer task as a state machine: the machine and its invariant, the proof that steps keep it, the guarantees, and what calls return |
| `ConnectionWriter.dfy` | the writer task as a loop |
| `Demux.dfy`, `Receiver.dfy` | the client's connection reader; the receiving half of a stream |
| `ClientCore.dfy`, `ClientCallers.dfy`, `ClientInvariant.dfy`, `ClientTheorems.dfy`, `ClientRuns.dfy` | all callers of a client with the registry, the reader and the sending half: the machine and its invariant, the proof that steps keep it, the guarantees, and concrete runs |
| `ServerStreams.dfy` | the server's reader and the tasks it starts for inbound frames |
| `EndToEnd.dfy`, `EndToEndDelivery.dfy`, `StreamDelivery.dfy`, `EndToEndRun.dfy` | a client and a server joined by their byte streams: the machine, its invariant, the delivery theorem, and the system at work |
| `SyncClient.dfy`, `SyncLockstep.dfy` | the synchronous client's receiver thread; the synchronous response path from the handlers' sends to the client's requests |
| `ConnectionMap.dfy`, `WorkerPool.dfy`, `PoolStarvation.dfy` | the synchronous server's fd bookkeeping; its worker pool, and how refused workers starve it |
| `Shutdown.dfy` | the shutdown notifier |
| `Names.dfy`, `Scope.dfy` | identifier splitting; lookup of a message by its full name |

The main results, in the system's own terms:

- **Delivery.** Whatever handlers, writers, readers and consumers do on any number of streams, call
  `k` of a stream's `recv` returns the `k`-th payload its handler enqueued, or what the response that
  ends the stream decodes to if its status is OK, and that response's own error otherwise; an end of
  file comes after all of them (`StreamDelivery.RecvIsFaithful`). Whatever is in a caller's mailbox was
  enqueued by the server for the caller's id (`ItemsComeFromServer`). The client's bytes are decoded and
  opened with its own counter; nothing about order is assumed.
- **Any frame.** For peers that are not honest: a frame is accepted exactly if the transform opens it
  to a body within the limit (`Pipeline.OpensExactly`), and one that does not open fails its own stream,
  or its own synchronous request, and nothing else (`Demux.ArrivingFrame`, `ClientTheorems.FrameIsRouted`,
  `SyncClient.FrameAnswers`).
- **Lockstep.** The `k`-th frame is sealed and opened at counter `k`, the size check after the seal
  never fires, no sealed frame is skipped while the connection lives, and the holder of the outbound
  lock always finds room in the queue (`OutboundTheorems.Lockstep`, `PeerOpensInOrder`,
  `RefusalCostsNothing`, `LockHolderHasRoom`). The bound on `max_overhead` is necessary
  (`Pipeline.LargeOverheadLosesStep`).
- **Sends.** A call returns success exactly if its message was written and flushed, or, where it waits
  for no answer, entered the queue of a live connection (`OutboundReturns.AckedReturn`,
  `UnackedReturn`). A live connection never deadlocks: each call can go on or waits for a step that can
  happen next (`LiveConnectionMoves`). The writers fail exactly if the transport refused a write or a
  flush (`Transport.Conn.WriteAll` and what is built on it).
- **No receiver is stranded** when a connection is lost through a failure. A *clean* exit of the
  writer can strand one, and `ClientTheorems.StrandedExactly` says which: exactly those still
  registered that have taken all they were sent (`ClientRuns.CleanExitStrands` is a run that does it).
- **Senders, with the exact exception.** Once the queue is closed every call of `transform_send` can
  finish, except one that reserved its place before and sent afterwards while the channel keeps its
  message: the call waits for the answer to it and, holding a sender, keeps the channel alive
  (`OutboundTheorems.StrandedSendExactly`; `LateSendStrands` gives the runs). Only acknowledged data
  can be hit, never a request (`ClientTheorems.StrandedSendIsData`).
- **Absorption.** In every run, after an error or a terminal payload `recv` returns errors only, and
  no second end of file (`ClientTheorems.RecvAbsorbs`, `StreamDelivery.RecvAbsorbs`).
- **Registry ownership**, with its exact exception: a request that takes data after which its
  stream goes on leaves its id registered (`ClientTheorems.IdStaysAfterOpenData`), and there are runs
  from end to end in which that happens (`EndToEndRun.DataLeavesIdRegistered`). Stream ids are odd
  and repeat exactly every 2^31 allocations (`ClientCore.IdsRepeat`), which is why runs are bounded
  by that number.
- **Stream-open ordering** on the server holds, in every run, exactly for the stream requests whose
  id no other stream request has (`ServerStreams.OrderHoldsExactly`, `RegisteredExactly`); with a
  repeated id, data for a live stream can find nothing (`RepeatedIdLosesStream`).
- **Shutdown.** Once notified, a `wait_shutdown` returns within two steps of its own; a `wait_all_exit`
  that does not time out ends in success within two steps of its own while no handle lives
  (`Shutdown.WaitShutdownReturns`, `WaitAllExitSucceeds`).
- **Worker pool.** The bound and the counter are exact. Between two checks of the main thread the
  workers fall short of the minimum by no more than the refused admissions, and each check makes up
  for those before it (`WorkerPool.SupplyShortByRefusals`). So starving the pool takes at least
  `minimum` refusals, and in every configuration with a positive minimum that many are enough
  (`PoolStarvation.RefusalsStarve`).
- **Splitters.** The compiler crate's splitter agrees with the prost crate's exactly on the names
  that do not end in an underscore (`Names.CratesAgree`).

Taken as given: atomic operations are totally ordered, `notify_waiters` wakes every `Notified`
created before it, locks are exclusive, and channels behave as documented; what a channel does with
a message sent on a permit after its receiver is gone is not, so it may drop the message or keep it
until its last sender goes. Expiry of a deadline and cancellation are events that may come at any
time. The protobuf codec is a parameter.

## Model

| member | source | states |
|---|---|---|
| `Wire.HeaderRoundTrip` | src/proto.rs:114-200 | header encoding and decoding are inverse to each other, in both directions |
| `Transport.Conn.WriteAll` | src/proto.rs:674-681 | for every schedule of short writes, success means exactly the given bytes went out and failure a prefix of them; it fails exactly if some write failed or took nothing |
| `Transport.Conn.ReadExact` | src/proto.rs:320-325 | for every schedule of short reads, the buffer is filled with the next bytes, or the stream is used up and the read fails |
| `PrefixBuffer.ByteVec.Fill` | src/sync/channel.rs:113-125 | whatever an earlier frame left in the buffer, it ends as the header and the first part of the body, at most 4096 bytes, and `len - prefix.len()` does not underflow |
| `AsyncFraming.ReadFrom` | src/proto.rs:309-331 | one read: the frame, the size error of an oversized frame whose body is gone, or an internal error, and what is left of the stream |
| `AsyncFraming.DiscardMessageBody` | src/proto.rs:71-88 | drops exactly the announced body, or fails with the stream used up |
| `AsyncFraming.WriteMessageBuffered` | src/proto.rs:655-686 | success means the complete encoding went out, failure a prefix of it; it fails exactly if the transport refused a write or the flush; the buffer stays within a page |
| `AsyncFraming.ReadLoop` | src/asynchronous/connection.rs:182-201 | the read loop yields one event per frame and ends with the first internal error |
| `AsyncFraming.CutStream` | src/proto.rs:309-331 | wherever a stream of frames is cut, the loop yields one event per complete frame, oversized ones included, then one disconnect |
| `AsyncFraming.RoundTrip` | src/proto.rs:309-331 | frames within the limit come back as sent, in order, before a partial frame disconnects |
| `SyncChannel.ReadInto` | src/sync/channel.rs:26-43 | fills the buffer over short reads, or returns how much there was before the end of the stream |
| `SyncChannel.DiscardCount` | src/sync/channel.rs:46-56 | drops the announced bytes page by page; only a broken stream is an error |
| `SyncChannel.ReadMessage` | src/sync/channel.rs:73-94 | one read of the synchronous reader, with its results at the end of the stream |
| `SyncChannel.WriteFrame` | src/sync/channel.rs:107-135 | success exactly if the complete encoding went out; a failure leaves a proper prefix, and comes exactly of a write that failed or took nothing |
| `SyncChannel.WriteQueue` | src/sync/server.rs:565-577 | the response thread sends the encodings of its queue in order through one reused buffer, and stops early exactly if the transport refused a write |
| `SyncChannel.ReceiveLoop` | src/sync/client.rs:202-251 | the receive loop's results up to the socket error that ends it, or a part of them when polling fails or the client is gone |
| `SyncChannel.CutStream` | src/sync/channel.rs:73-94 | wherever a stream is cut, every complete frame is dispatched, each read starts on a frame boundary, and the tail is as the end of the stream determines |
| `SyncChannel.RoundTrip` | src/sync/channel.rs:107-135 | frames within the limit come back as they were sent |
| `SyncChannel.AtMostOneExtraRead` | src/sync/client.rs:202-251 | after the complete frames there is at most one further failing read, and exactly one socket error, which is last |
| `SyncClient.ReceiverMap.TransResp` | src/sync/client.rs:330-355 | routing of one frame: an answer and removal for a response, an error without removal for anything else |
| `SyncClient.ReceiverMap.FailAll` | src/sync/client.rs:232-243 | the end of the stream answers every entry and clears the map |
| `SyncClient.FrameAnswers` | src/sync/client.rs:218-230 | a frame gives the waiting request exactly what the body of a response opens to, and an error if it is no response, too large, or does not open; the entry goes exactly with a response |
| `SyncClient.ReceiverThread` | src/sync/client.rs:202-251 | the thread's effect is that of the stream's frames after the inbound transform and the socket error after them, or of some first ones when polling fails or the client is gone |
| `SyncClient.AnswerIsVerdict` | src/sync/client.rs:163-191 | a request gets exactly the first thing the events have for it, be it a frame, the sender thread's withdrawal or the socket error, and goes on waiting while there is none |
| `SyncClient.NobodyWaitsAtTheEnd` | src/sync/client.rs:232-243 | when a socket error has ended the receiver thread, every request that was waiting has been answered |
| `SyncClient.QuitLeavesWaiting` | src/sync/client.rs:205-216 | when polling has failed or the client is gone, exactly the requests for which no frame had come are left waiting |
| `SyncLockstep.QueueIsSealedInOrder` | src/security_extension.rs:812-828 | in every run of handlers and response thread, response `k` of the queue is sealed at counter `k`, and while the queue is open the counter is the number of responses in it |
| `SyncLockstep.ClientOpensInOrder` | src/sync/client.rs:219-230 | whatever part of the queue's bytes arrives, the client's receiver thread hands out exactly the first responses, opened, in order, and all of them if all bytes came |
| `Pipeline.AadDeterminesRouting` | src/security_extension.rs:173-179 | the associated data determine the routing fields and leave out only the length |
| `Pipeline.ConnectionContext.Outbound` | src/security_extension.rs:682-706 | the outbound pipeline rewrites the message, its length and the counter as the reference says, with its three errors; with a sound transform it accepts exactly the payloads that fit and that `seal` seals |
| `Pipeline.ConnectionContext.Inbound` | src/security_extension.rs:655-669 | the inbound pipeline, likewise, with its own counter; it accepts exactly the frames that `unseal` opens to a body within the limit, hands on that body, and on a refusal fails with the counter unmoved |
| `Pipeline.ConnectionContext.SendResponseSync` | src/security_extension.rs:812-828 | transform and enqueue under one lock: a frame is appended with the next counter, or the response is refused, or the response thread is gone and the counter has moved for nothing |
| `Pipeline.SealThenOpen` | src/security_extension.rs:682-706 | an outbound error never moves the counter; an accepted payload fits a frame and opens at the same counter to what it was |
| `Pipeline.OpensExactly` | src/security_extension.rs:655-669 | a frame is accepted exactly if the transform opens it to a body within the limit, with that body; refused, it is an error and costs no counter |
| `Pipeline.SealsExactly` | src/security_extension.rs:682-706 | a payload is accepted exactly if it leaves room for the overhead and the transform seals it, with what it is sealed to; refused, it costs no counter |
| `Pipeline.LargeOverheadLosesStep` | src/security_extension.rs:557-564 | with any larger overhead the size check can refuse after the counter moved |
| `Pipeline.OpenInOrder` | src/security_extension.rs:655-706 | frames sealed at consecutive counters open in order to what was sealed |
| `OutboundTheorems.WireIntegrity` | src/asynchronous/connection.rs:65-111 | the wire is the complete frames of the written messages in queue order plus at most part of one more; discarded messages leave nothing |
| `OutboundTheorems.NothingAfterClose` | src/asynchronous/connection.rs:99-106 | nothing is written once the writer is gone |
| `OutboundTheorems.FatesAreFinal` | src/asynchronous/connection.rs:65-111 | the queue's history, the fates and the wire only grow |
| `OutboundTheorems.EveryMessageAccounted` | src/asynchronous/connection.rs:65-111 | every enqueued message is written, discarded, failed, with the writer, queued or dropped, in exactly one way; at most one fails |
| `OutboundTheorems.TruthfulAck` | src/asynchronous/connection.rs:79-86 | an acknowledged send returns success only if its whole frame was written, and a result is success exactly then |
| `OutboundReturns.AckedReturn` | src/security_extension.rs:793-795 | in every run, a call that hears from the writer returns success if its message was written and flushed, and an error if not |
| `OutboundReturns.UnackedReturn` | src/security_extension.rs:797-804 | on a live connection a call without acknowledgement has returned success exactly if its message entered the queue, and it never returns an error after that |
| `OutboundReturns.SuccessMeansSent` | src/security_extension.rs:754-804 | in every run, live or not, a call that returned success has given its message to the channel |
| `OutboundReturns.SealedExactly` | src/security_extension.rs:771-771 | in every run a call gets past the transform exactly with what its payload seals to, and otherwise returns an error, lets go of the lock and leaves the counter alone |
| `OutboundReturns.LiveConnectionMoves` | src/security_extension.rs:745-806 | on a live connection each unfinished call can take its next step or waits for one that can happen next: the lock holder's, the writer's, or either when all places are taken |
| `OutboundTheorems.LockHolderHasRoom` | src/security_extension.rs:745-806 | whoever holds the outbound lock before its enqueue has room in the queue |
| `OutboundTheorems.Lockstep` | src/security_extension.rs:745-806 | while the connection lives, message `k` of the queue was sealed at counter `k` and the counter is at most one ahead; nothing sealed is discarded |
| `OutboundTheorems.RefusalCostsNothing` | src/security_extension.rs:682-706 | in every run a refused payload leaves the counter alone and a sealed one fits a frame |
| `OutboundTheorems.PeerOpensInOrder` | src/asynchronous/client.rs:410-420 | whatever part of the wire the peer has, it decodes frames within the limit only and opens them in order to the payloads given to `transform_send` |
| `OutboundTheorems.DiscardKeepsConnection` | src/asynchronous/connection.rs:41-46 | a discard leaves the connection open and the wire as it is, and is reported as a failure |
| `OutboundTheorems.ClosedQueueFreesCalls` | src/security_extension.rs:745-806 | once the queue is closed, every call can take its next step or waits for a lock whose holder can, unless it waits for the answer to a message that the channel kept |
| `OutboundTheorems.StrandedSendExactly` | src/security_extension.rs:784-794 | in every run, a call is stuck after the close exactly if the channel keeps its message and it waits for the answer |
| `OutboundTheorems.StrandedSendStays` | src/security_extension.rs:792-794 | such a call stays stuck until it is given up, whatever else happens |
| `OutboundTheorems.LateSendStrands` | src/security_extension.rs:784-794 | for every acknowledged send that is not refused there is a run in which it ends up so |
| `ConnectionWriter.WriteMessage` | src/asynchronous/connection.rs:29-63 | only controlled messages are discarded or interrupted; a discarded one leaves the wire alone, a completed one is on it in full |
| `ConnectionWriter.RunWriter` | src/asynchronous/connection.rs:65-111 | the loop leaves the complete frames of the written messages and at most a part of one more, answers each result channel truthfully, and stops early only if the transport refused something or a controlled message was interrupted |
| `Demux.ClientReader.HandleMsg` | src/asynchronous/client.rs:410-425 | inbound pipeline first, then routing or failure of the stream |
| `Demux.ClientReader.GetRespTx` | src/asynchronous/client.rs:429-453 | lookup, with removal for a response or closing data, and failure for other types |
| `Demux.ClientReader.FailStream` | src/asynchronous/client.rs:464-472 | one stream gets the error and is unregistered; no other is touched |
| `Demux.ClientReader.Disconnect` | src/asynchronous/client.rs:389-402 | the whole registry is taken and every mailbox with a receiver gets the error |
| `Demux.Isolation` | src/asynchronous/client.rs:406-472 | an event for another stream changes neither registration nor mailbox |
| `Demux.ArrivingFrame` | src/asynchronous/client.rs:410-460 | what any frame does: one item in its stream's mailbox, the opened message or the failure; the id stays exactly after data without the closing bit; an id with no receiver is dropped; no other stream is touched |
| `Demux.OversizedFrameFails` | src/asynchronous/client.rs:406-408 | a frame whose body was too large fails its own stream only |
| `Demux.MailboxIsProjection` | src/asynchronous/client.rs:406-472 | a mailbox is the projection of the connection's events onto the stream since its registration, cut after the first terminal item |
| `Demux.ProjectionIsClean` | src/asynchronous/client.rs:429-472 | nothing follows a terminal item, and only routable messages within the limit are delivered |
| `Receiver.StreamReceiver.Recv` | src/asynchronous/stream.rs:757-810 | one `recv`: its result, the `remote_closed` flag and what it takes from the mailbox |
| `Receiver.TerminationAbsorbs` | src/asynchronous/stream.rs:757-810 | on a mailbox in which nothing follows a terminal item, after an error or a terminal payload no call returns a payload, and end of file is not reported again |
| `Receiver.CallsTellItems` | src/asynchronous/stream.rs:757-810 | on a stream that expects data, call `k` tells exactly what item `k` is: a response's payload exactly if it decodes with an OK status, its own error otherwise; and what each call after the last item returns |
| `Receiver.CallsTellFirst` | src/asynchronous/stream.rs:774-782 | on a stream that expects only a response, the first item is told, data being an error, and nothing after it |
| `Receiver.ClosingBitCloses` | src/asynchronous/stream.rs:787-788 | after data with the lowest flag bit set every call reports that the remote side is closed |
| `Receiver.PayloadsInOrder` | src/asynchronous/stream.rs:757-810 | each successful call yields the next message's payload |
| `Receiver.EofMeansAll` | src/asynchronous/stream.rs:777-795 | end of file comes from the closing frame and only after every earlier message was returned |
| `ClientCore.IdsRepeat` | src/asynchronous/client.rs:227-227 | ids are odd, and two allocations share one exactly if they are a multiple of 2^31 apart |
| `ClientInvariant.InvKept` | src/asynchronous/client.rs:220-341 | every step of callers, reader, sending half and teardown keeps the client's invariant |
| `ClientTheorems.NoStrandedCaller` | src/asynchronous/connection.rs:172-207 | after a failure each waiting caller has its terminal item and no receiver can wait on an open empty mailbox |
| `ClientTheorems.StrandedExactly` | src/asynchronous/connection.rs:172-186 | a caller is stranded after the connection's end exactly if the writer exited cleanly and the receiver is registered with nothing left to take |
| `ClientRuns.CleanExitStrands` | src/asynchronous/connection.rs:174-175 | a run of a client that ends cleanly with a stranded receiver |
| `ClientTheorems.NobodyIsStuck` | src/asynchronous/client.rs:237-264 | after a failure every unfinished request can take its next step without giving up |
| `ClientTheorems.StrandedSendIsData` | src/asynchronous/stream.rs:710-725 | after the close a call is stuck exactly if the channel keeps its message, and then it carries a stream's data: never a request or a stream's opening |
| `ClientTheorems.EveryIdIsOwned` | src/asynchronous/client.rs:37-63 | a registered id is odd and belongs to one caller that holds its guard or receiver, or was left open |
| `ClientTheorems.IdGoneAfterRequest` | src/asynchronous/client.rs:49-63 | a caller that is over has left no registration, unless it was left open |
| `ClientTheorems.IdStaysAfterOpenData` | src/asynchronous/client.rs:253-264 | a request that takes its answer leaves its id registered exactly if nothing terminal had come |
| `ClientTheorems.RemovedOnBehalfOfOwner` | src/asynchronous/client.rs:389-472 | registrations go away only by the owner, its terminal item, a failed send to an owner that is gone, or the disconnect |
| `ClientTheorems.MailboxIsCutOfDue` | src/asynchronous/client.rs:429-472 | at the granularity of the registry's lock, a live mailbox with what is on its way is exactly the stream's items since registration up to the first terminal one |
| `ClientTheorems.MailboxIsClean` | src/asynchronous/client.rs:406-472 | in every run nothing follows a terminal item in any mailbox, and its messages can be routed and are within the limit |
| `ClientTheorems.RecvAbsorbs` | src/asynchronous/stream.rs:757-810 | in every run of a client, after an error or a terminal payload every later `recv` on that mailbox is an error and no end of file |
| `ClientTheorems.FrameIsRouted` | src/asynchronous/client.rs:410-453 | in every run the reader hands the owner of a frame's stream the opened message, or the failure if it does not open or cannot be routed, and keeps the id exactly after data without the closing bit |
| `ClientTheorems.ReaderIsolation` | src/asynchronous/client.rs:406-472 | a reader step on one stream changes no other caller, mailbox or registration |
| `ClientTheorems.ReaderNeverWaits` | src/asynchronous/client.rs:455-460 | between frames and during teardown the reader can always go on, whatever the consumers do |
| `ServerStreams.RequestsBeforeAreOpened` | src/asynchronous/server.rs:451-486 | a data frame that gets to its lookup finds every stream request before it opened, whatever shutdown and cancellation do |
| `ServerStreams.DataFindsItsStream` | src/asynchronous/server.rs:564-571 | data after a stream request with an id of its own find the stream, unless its receiver is gone |
| `ServerStreams.DataFindsOnlyItsStream` | src/asynchronous/server.rs:682-698 | what data finds is a live stream of its own id that was requested |
| `ServerStreams.OneTaskHoldsReader` | src/asynchronous/server.rs:451-486 | only the handler of the frame read last keeps the reader waiting |
| `ServerStreams.RegisteredExactly` | src/asynchronous/stream.rs:694-698 | a stream's id leads to it for as long as it is alive, in every run, exactly if no other stream request has its id |
| `ServerStreams.AllRegisteredExactly` | src/asynchronous/stream.rs:694-698 | this holds for all streams of a connection exactly if all stream requests have distinct ids |
| `ServerStreams.OrderHoldsExactly` | src/asynchronous/server.rs:682-698 | a data frame meets the order of the wire in every run exactly if the request before it has an id of its own |
| `ServerStreams.RepeatedIdLosesStream` | src/asynchronous/stream.rs:694-698 | for any frames in which two stream requests share an id and data follow, a run in which the data find nothing although the second stream is alive |
| `EndToEnd.SidesHold` | src/asynchronous/connection.rs:160-209 | in the joined system both sides keep the guarantees of their own machines |
| `Delivery.HeardIsKnown` | src/asynchronous/client.rs:237-255 | an id reaches the server only after the client registered it |
| `Delivery.NextFrame` | src/asynchronous/client.rs:410-420 | the client's next decoded frame is the server's next message and opens to what was sealed |
| `Delivery.InvHolds` | src/asynchronous/server.rs:536-561 | in every run the server's queue holds, per stream, the handler's entered sends in program order, and nothing after its closing frame |
| `StreamDelivery.RecvIsFaithful` | src/asynchronous/stream.rs:757-810 | end-to-end delivery: a prefix, in order, without repetition, of what the handler enqueued, and all of it at end of file; a response yields its decoded payload exactly if its status is OK, and every other result is what the item tells |
| `StreamDelivery.ItemsComeFromServer` | src/asynchronous/client.rs:237-264 | in every run whatever a request or a stream finds in its mailbox is a message the server enqueued for its id, opened to what was sent, or the loss of the connection |
| `EndToEnd.ReaderTakesAnyFrame` | src/asynchronous/client.rs:406-425 | whatever has arrived and whatever the pipeline makes of it, the client's reader routes it |
| `StreamDelivery.RecvAbsorbs` | src/asynchronous/stream.rs:757-810 | in every run of client and server, after an error or a terminal payload every later `recv` is an error and no end of file |
| `EndToEndRun.DataLeavesIdRegistered` | src/asynchronous/client.rs:253-264 | for every data frame within the limit that does not close the stream there is a run in which a unary caller takes it, is over, and its id is still registered |
| `EndToEndRun.DataArrives` | src/asynchronous/stream.rs:710-725 | for every such frame there is a run from opening the stream to the client's `recv` returning it and the handler's send returning success |
| `ConnectionMap.InvKept` | src/sync/server.rs:455-485 | every step of listener, handlers and reaper keeps the bookkeeping invariant |
| `ConnectionMap.MapIsFaithful` | src/sync/server.rs:688-707 | keys are open descriptors of their own connections, and an insert finds its key free |
| `ConnectionMap.NoUseAfterClose` | src/sync/server.rs:670-684 | while a thread of a connection lives, its descriptor is open and its own |
| `ConnectionMap.TakeFindsItsOwn` | src/sync/server.rs:463-476 | the reaper finds for each reported descriptor the connection that reported it, and removes no other |
| `ConnectionMap.ClosedExactlyOnce` | src/sync/server.rs:463-476 | each descriptor is closed once, while it is its connection's |
| `ConnectionMap.CleanupNeverStuck` | src/sync/server.rs:455-485 | while an ended connection is open some thread can go on with its cleanup, even though the reaper holds the map's lock through join and close |
| `WorkerPool.PoolBound` | src/sync/server.rs:156-179 | at most `max` workers block in the receive; until quit the counter is those admitted plus those about to undo |
| `WorkerPool.StartCountInRange` | src/sync/server.rs:291-296 | `default - c` lies between one and `default` |
| `WorkerPool.SupplyShortByRefusals` | src/sync/server.rs:156-179 | while the main thread waits, a request for workers is on its way or the workers fall short of the minimum by no more than the admissions refused since its last check |
| `WorkerPool.StarvationNeedsRefusals` | src/sync/server.rs:287-300 | a pool without workers and without a request for them has refused at least `minimum` since the last check |
| `PoolStarvation.RefusalsStarve` | src/sync/server.rs:157-161 | in every configuration with a positive minimum, exactly that many refusals can leave such a pool |
| `Shutdown.CounterIsHandles` | src/asynchronous/shutdown.rs:115-133 | the counter is the number of live handles |
| `Shutdown.NoLostShutdown` | src/asynchronous/shutdown.rs:105-113 | once the notifying call has notified, no `wait_shutdown` is stuck, and its own steps bring it to its return, never to a timeout |
| `Shutdown.NoLostExit` | src/asynchronous/shutdown.rs:177-187 | while no handle lives and no drop owes a notification, no `wait` is stuck, and its last own step is a return with success |
| `Shutdown.WaitShutdownReturns` | src/asynchronous/shutdown.rs:105-113 | in every run a `wait_shutdown` after the notification has returned exactly when it took the steps it still had, at most two |
| `Shutdown.WaitAllExitSucceeds` | src/asynchronous/shutdown.rs:167-187 | in every run a `wait_all_exit` that does not time out has succeeded exactly when it took its steps, at most two, while no handle lived and no notification was owed |
| `Shutdown.ElapsedOnlyByTimeOut` | src/asynchronous/shutdown.rs:167-173 | only an expired timeout makes `wait_all_exit` report one |
| `Shutdown.StuckOnlyWhileHandlesLive` | src/asynchronous/shutdown.rs:177-187 | a stuck `wait` means a live handle or a notification still owed |
| `Shutdown.OkMeansAllExited` | src/asynchronous/shutdown.rs:167-187 | success means that no handle was live at some moment of the call |
| `Names.NameSpliter.SegmentEnd` | ttrpc-codegen-prost/src/util.rs:33-56 | the scan finds the end of the declaratively defined first word |
| `Names.NameSpliter.Next` | ttrpc-codegen-prost/src/util.rs:23-60 | each step moves forward and yields the first of the words that are left, for either crate |
| `Names.ToSnakeCase` | ttrpc-codegen-prost/src/util.rs:82-93 | the lower-case words joined by underscores |
| `Names.ToCamelCase` | compiler/src/util/mod.rs:91-99 | the capitalised words, or the panic on an empty word exactly if there is one |
| `Names.SegmentsPartitionName` | ttrpc-codegen-prost/src/util.rs:23-60 | words are non-empty and underscore-free, and together are the name without its underscores |
| `Names.SnakeCaseIdempotent` | ttrpc-codegen-prost/src/util.rs:82-93 | snake case is idempotent |
| `Names.CamelOfSnake` | ttrpc-codegen-prost/src/util.rs:68-79 | snake case before camel case changes nothing |
| `Names.CratesAgree` | compiler/src/util/mod.rs:42-77 | the splitters agree exactly on names without a trailing underscore |
| `Scope.FindInFile` | compiler/src/util/scope.rs:211-224 | the descent without backtracking computes the first-fit chain |
| `Scope.FindMessage` | compiler/src/util/scope.rs:197-226 | a hit spells exactly the name and is in the first file that declares it; a miss means no file does |
| `Scope.EmptyComponentUndeclared` | compiler/src/util/scope.rs:208-208 | the assertion can fire only for names that no file declares |

## Left out

- Sockets, transports, polling and Windows pipes: only a byte stream with short reads and writes, end of file and errors.
- Protobuf encoding and the generated message types: the codec is a parameter; a request frame's body is arbitrary.
- Real time: deadlines are events that may come at any time.
- Accept and connect hooks, duplicated descriptors and connection data: policy and system plumbing; a rejected accept is modelled.
- The build without the security extension: there the transform is absent, which the model covers as `None`.
- Order of data that a client sends to a server: the server lets go of its reader before it delivers data, so no order is guaranteed.
- Data sent after `close_send` by another clone of the same sender: the flag and the send are not atomic.
- Replenishment of the worker pool after `minimum` refusals: not guaranteed by the source, see `PoolStarvation.RefusalsStarve`.
- The synchronous client's sender thread after a write error: it goes on, and the wire may then hold a partial frame in the middle.
- Requests that the synchronous client's sender inserts after the receiver thread has ended: nobody is left to answer them.
- Names outside ASCII: case conversion is modelled for ASCII only.
- Thread-spawn failure in the synchronous server: a descriptor whose handler thread cannot be started is not modelled.
- Delivery.InvHolds: assumes that a handler awaits each send before the next, as the stream's documentation asks for.
- ClientTheorems.NobodyIsStuck: says that a next step exists, not that a scheduler takes it.
- Shutdown.NoLostExit: speaks of a count that stays at zero; handles created in between make `wait` test again, as in the source.
- Generated service code, `rust_type`, keyword handling, request metadata, address parsing and error texts: templates or easy members.
