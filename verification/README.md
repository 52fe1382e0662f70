# asio-kcp: a verified model

This project models the connection layer that `include/kcp.hpp` builds on KCP and UDP, together with
the asio components it relies on that carry state of their own, and proves what they promise.

* **Connection** (`ConnectionSpec`, `ConnectionLaws`, `ConnectionTheorems`, `ConnectionOutcomes`,
  `ConnectionPair`, `ConnectionModel`): the idle/opened/closed machine with one pending read and one pending write.
  Completion handlers run
  inline and may start operations or close the connection again. A handler is a finite script of the
  calls it makes while it runs; since every statement is for all scripts, it is for all handlers that
  return. `ConnectionModel.Connection` updates fields in place, drains KCP into real `Streambuf`
  objects, and is tied by its invariant to the value `model`, which each method takes from one value of
  `ConnectionSpec` to the next. The laws are about those values, and hold for every run, also one in
  which a streambuf throws for lack of room; the exception leaves the event loop, so that connection then
  takes no further step. `Ample` is a test of the events alone that rules this out.
* **KCP** (`KcpQueue`, `KcpModel`) is seen through the segments that have arrived in order and the count
  of packets not yet acknowledged. A message is one segment or several fragments, and may be empty.
  Receiving is modelled as `ikcp_recv` does it, window and refill included. Which segments a datagram
  brings into order and which packets it acknowledges, what `ikcp_send` answers and what `ikcp_check`
  returns are given with each step; nothing is assumed of them, so the statements hold whatever they are.
* **Acceptor** (`AcceptorSpec`, `AcceptorLaws`, `AcceptorTheorems`, `AcceptorModel`): the map of connections, the queue of
  accepts, the handshake coroutine and the sweep. Time is the number given with each step.
* **Network** (`Network`, `NetworkLaws`): clients running `async_connect` against the acceptor over a
  network in which a datagram once sent may arrive any number of times, in any order, or never.
* **Streambuf** and **SocketStreambuf**: the two asio stream buffers, with their offsets and vectors.
* **CompletionHandler** and **AlignedBlock**: `any_completion_handler` and its aligned allocator.
* **HostPort** and **BufferPool**: `parse_host_port`, `address`, and the pool of datagram buffers.

Where the code and its own description differ, the model follows the code:

* `close` with a zero error code completes only what can finish at once and leaves the rest pending on
  a closed connection. `CloseDrainsExactly` says which closes leave nothing pending;
  `CloseWithZeroStrandsAWrite` is a run in which a write is left.
* Both reads take an answer of 0 from `ikcp_recv` for "nothing there", but it means that an empty message
  has been taken off the queue. A read put back for that reason sleeps until the next datagram even if
  what lies behind the empty message would finish it. `CheckFallsAsleep` says exactly when that happens,
  by the queue before the check; `EmptyMessageHidesData` is a run in which it does; `NoLostWakeups` says
  that it is the only way for a read to oversleep and takes a peer that sends an empty message. A peer
  that runs this code does not: in stream mode `ikcp_send` queues nothing for an empty send
  (`3rd/kcp/ikcp.c:502-504`).
* `prepare` moves the readable bytes to the front of the vector before it checks the limit, and when it
  then throws the offsets stay. The readable bytes are what they were exactly if they repeat with the
  count of consumed bytes before them as period, so always if nothing was consumed or at least as many
  bytes as are left. `Prepare` and `SlidKeeps` say so for all buffers; `FailedPrepare` is the run that ends
  in such a throw, for any limit and contents, and by `SlidWitness` it turns 2, 3, 4 into 3, 4, 4.
* A flush that fails half-way leaves the bytes already sent in the put area, so the next flush sends them
  again. `Overflow` and `Sync` say that the stream is still intact exactly if the socket took none;
  `FailedFlushRepeats` is a run in which a character reaches the socket twice.
* `address` prints an IPv6 host without brackets; `AddressRoundTrip` says exactly which hosts are read
  back, and by `LoopbackIsMisread` "::1" at port 9 comes back as no host at port 19.

## Model

| member | source | states |
|---|---|---|
| ConnectionTheorems.BytesArriveInOrder | include/kcp.hpp:283-357 | over every run, with any re-entrant handlers: bytes delivered to read buffers and streambufs, then those still in KCP's queue, are exactly the bytes KCP accepted in the steps the connection took part in, in order, even if a read throws; and each streambuf holds what was delivered to it minus what was consumed |
| ConnectionTheorems.CountsAreRight | include/kcp.hpp:295-299 | over every run, even if a read throws: the counts told to the handlers of successful async_read_some calls are, one to one and in order, the sizes of what was put into their arrays, with the same handler, at least 1 and at most the capacity; a successful async_read is told what it asked for; everything else is told 0 |
| ConnectionTheorems.HandlersRunOnce | include/kcp.hpp:386-556 | over every run each initiated use of a handler is completed, posted or pending and only one of these, except the handler of the one read that threw, if any; none completes more often than it was initiated |
| ConnectionTheorems.NoLostWakeups | include/kcp.hpp:400-628 | between steps, unless a read has thrown, a pending write means more than 128 packets wait, and a pending read has a posted check or cannot finish, or was put back behind an empty message; if no datagram brings an empty segment, that never happens; and always, after any input or send the next update drives KCP |
| ConnectionTheorems.CheckFallsAsleep | include/kcp.hpp:295-356 | a check, of any state in which no other is posted and the streambuf does not overflow, puts the read back although it could finish if and only if the first message in the queue that is empty or too big for it was empty, what lay before it is too little, and what lies behind it is enough |
| ConnectionTheorems.EmptyMessageHidesData | include/kcp.hpp:295-299 | a run: one datagram with an empty message and a byte behind it leaves the pending read asleep with that byte in the queue |
| ConnectionTheorems.LifeCycle | include/kcp.hpp:791-805 | states only move from idle to opened to closed; the disconnect frame never leaves before the close nor twice, and it is missing on a closed connection only if a read threw |
| ConnectionTheorems.ClosedIsDrained | include/kcp.hpp:533-556 | a connection closed with an error never throws, has no pending read or write, and never gets one in any continuation |
| ConnectionTheorems.ClientKeepsGoing | include/kcp.hpp:597-677 | over every run a started client has a receive under way and its timer running until it closes, and a closed client has no receive under way and its socket is closed |
| ConnectionTheorems.ClientTimesOut | include/kcp.hpp:602-615 | over every run of a started client, a timer at now closes it if and only if now is more than 30000 ms after its last datagram of 24 bytes or more, or its creation if there was none; then the reason is timed_out and nothing is pending, else it stays open with its timer running |
| ConnectionTheorems.StampIsLastSign | include/kcp.hpp:558-565 | over every run of a started connection that has not thrown, the time stamp is the time of the last datagram of 24 bytes or more, or of the creation |
| ConnectionTheorems.AmpleRunsKeepEverything | include/kcp.hpp:283-628 | if every streambuf made can hold all bytes KCP accepts in the run and one more prepare, and a client is started first, nothing throws: the bytes are all the bytes accepted, every handler is accounted for, no read sleeps except behind an empty message, and a closed connection has sent one disconnect |
| ConnectionTheorems.AmpleNeverThrows | include/kcp.hpp:325-348 | a run whose streambufs have that much room never throws |
| ConnectionTheorems.CloseDrainsExactly | include/kcp.hpp:791-805 | closing throws if and only if the code is zero and the pending read overflows its streambuf; otherwise it leaves nothing pending if and only if the code is not zero, or no write waits and the pending read can finish with the messages before the first that is empty or too big |
| ConnectionTheorems.CloseWithZeroStrandsAWrite | include/kcp.hpp:791-805 | a run in which a close with a zero code leaves a write pending on a closed connection |
| ConnectionTheorems.AsyncReadOutcome | include/kcp.hpp:325-357 | async_read finishes if and only if streambuf and the messages before the first that is empty or oversized hold what it needs; it takes all of those either way, and that one too if it is empty; it ends with at least what it needs, and throws if and only if there is no room for one more prepare |
| ConnectionLaws.DrainTakesFitting | include/kcp.hpp:336-348 | the drain loop takes exactly the messages up to the first one that is empty or over 2048 bytes, that one too exactly if it is empty, and throws exactly if there is no room for one more prepare behind them |
| ConnectionTheorems.ReadInitiation | include/kcp.hpp:386-415 | a read on a closed connection is answered operation_aborted and one beside another read in_progress, both without touching the slot; any other becomes the pending read and its posted task is one check |
| ConnectionTheorems.WriteInitiation | include/kcp.hpp:471-512 | a write on a closed connection is answered operation_aborted and one beside another write in_progress, both without touching KCP; any other makes KCP due at once and is answered message_size if KCP rejects it, success if at most 128 packets then wait, and else stays in its slot |
| ConnectionTheorems.SignOfLife | include/kcp.hpp:558-565 | exactly the datagrams of 24 bytes or more open an idle connection and renew its time stamp; shorter ones change nothing |
| ConnectionOutcomes.OperationsAreToldWhy | include/kcp.hpp:533-556 | over every run a read or write that had its slot succeeds, or is told the reason for which the connection is closed, and nothing else |
| ConnectionOutcomes.WaitingWrite | include/kcp.hpp:436-450 | a check without an error tells the waiting write success if at most 128 packets wait, and otherwise changes nothing |
| ConnectionOutcomes.AcknowledgementsWakeTheWrite | include/kcp.hpp:575-582 | a data datagram takes the acknowledged packets off the count; if that leaves at most 128, the write still in its slot after the read has been settled is told success, and with more it stays |
| ConnectionOutcomes.OtherFrames | include/kcp.hpp:584-594 | a datagram of 24 bytes or more that is neither data nor a disconnect opens an idle connection and renews the stamp, and does nothing else |
| ConnectionOutcomes.ClosedGet | include/kcp.hpp:791-805 | closing an open connection with an error tells it to the pending read first and then to the pending write, leaves nothing pending, sends one frame and does not touch KCP |
| ConnectionOutcomes.StepCloses | include/kcp.hpp:584-653 | the user's code, the socket's error, eof for a disconnect and timed_out for silence: whichever closes the connection is its reason and what both operations are told; a client has then given up socket, receive and timer |
| ConnectionOutcomes.ScriptActs | include/kcp.hpp:283-302 | every read and write a handler starts is started, once and in order, unless it closes an open connection on the way |
| ConnectionOutcomes.ScriptsCompose | include/kcp.hpp:283-302 | what a handler does is the first part of it and then the rest |
| ConnectionOutcomes.HandlersAct | include/kcp.hpp:331-556 | the handler of a posted answer, of a read that finishes and of a write that finishes makes all its calls |
| ConnectionOutcomes.ReadAgain | include/kcp.hpp:535-542 | a handler of a finished read that reads again becomes the next pending read, with a check posted |
| ConnectionOutcomes.WriteAgain | include/kcp.hpp:546-556 | a handler of a finished write that writes again is sent and answered, or waits in the slot |
| ConnectionOutcomes.TimerDrives | include/kcp.hpp:602-628 | the timer of an open client first drives KCP if it is due, which then comes due when it says, and leaves tick and KCP alone if not; if it does not close it changes nothing else |
| ConnectionOutcomes.TimersLeaveNothingUnsent | include/kcp.hpp:602-628 | over every run, after a timer nothing an open client has sent or received still waits for KCP to be driven |
| ConnectionOutcomes.WorkMakesKcpDue | include/kcp.hpp:485-580 | a data datagram, whatever its handlers do, and every write that is not refused leave KCP due at once |
| ConnectionOutcomes.NewIsDue | include/kcp.hpp:618-628 | a new connection is driven by the first update at or after time 0 |
| ConnectionOutcomes.ConsumeOutcome | 3rd/asio/basic_streambuf.hpp:247-254 | what user code takes from a streambuf is as many bytes as asked for or all there are, from its front, and nothing else changes |
| ConnectionTheorems.DisconnectFrameCloses | include/kcp.hpp:586-591 | the frame close sends passes the peer's size check and leaves the peer closed, drained, with one frame of its own sent |
| ConnectionPair.DisconnectsSettle | include/kcp.hpp:586-591 | two linked peers with lossy, copying links between them: each sends at most one disconnect in any interleaving; once both are closed neither sends another, and once those in flight are gone there is never one in flight again |
| ConnectionPair.PeersCloseTogether | include/kcp.hpp:791-805 | a peer that gets a disconnect frame is closed; with nothing in flight and nothing lost towards b, a that closed without throwing means b is closed, and the other way round |
| ConnectionPair.PairRunKeeps | include/kcp.hpp:586-591 | over every run of the pair each frame sent or copied is in flight, delivered or lost and only one of these, and closed peers stay closed |
| ConnectionLaws.StepIsStable | include/kcp.hpp:533-677 | every outermost step keeps the invariant: handlers, bytes and counts accounted for, wake-ups up to empty messages, drained after an error, one disconnect, client receiving and ticking; it throws only if some streambuf lacks room for all bytes and one more prepare |
| ConnectionLaws.RunIsStable | include/kcp.hpp:533-677 | the same over whole runs, thrown or not, and the bytes in and behind the queue grow by exactly the bytes accepted |
| ConnectionLaws.OnReceiveIsStable | include/kcp.hpp:558-595 | receiving any datagram, whatever segments it brings, keeps the invariant and adds their bytes |
| ConnectionLaws.RunTaskIsStable | include/kcp.hpp:404-412 | running any posted task, in any order, keeps the invariant |
| ConnectionLaws.RunScriptKeeps | include/kcp.hpp:283-302 | whatever a handler does inline, no byte or handler is lost, no slot changes on a closed connection, and nothing throws unless an open connection is closed |
| ConnectionLaws.CheckReadKeeps | include/kcp.hpp:533-544 | after a check the pending operations cannot finish, or the read was put back behind an empty message; with an error on a closed connection there are none |
| ConnectionLaws.SettleReadKeeps | include/kcp.hpp:535-542 | a read that finds too little queued is back in its slot; one that finishes leaves the slot to whatever its handler starts, and no byte or handler is lost either way |
| ConnectionLaws.CheckWriteKeeps | include/kcp.hpp:546-556 | after a check a pending write has more than 128 packets before it |
| ConnectionLaws.CloseKeeps | include/kcp.hpp:791-813 | closing an open connection accounts for every handler, sends one disconnect, and with an error never throws |
| ConnectionLaws.TryReadAttempts | include/kcp.hpp:283-357 | an attempt finishes exactly if it can, moves bytes from the queue to the user in order and changes nothing else; if it fails it would fail again, unless it took an empty message |
| ConnectionLaws.TryReadExhausts | include/kcp.hpp:283-357 | an attempt that fails would succeed the next time if and only if an empty message hid enough, by the queue before it |
| ConnectionLaws.TryReadThrows | include/kcp.hpp:336-348 | an attempt that throws has still moved the same bytes in order, and some streambuf lacked room for all of them |
| ConnectionSpec.DrainGrows | include/kcp.hpp:336-348 | the drain loop appends to the streambuf what it takes off the queue |
| KcpQueue.RecvTakes | 3rd/kcp/ikcp.c:358-435 | whatever ikcp_recv answers, what it hands over followed by what stays is what was queued |
| KcpQueue.RecvIs | 3rd/kcp/ikcp.c:358-463 | a message whose announced fragments have arrived is received exactly if it fits, up to and with the first segment marked as the last; otherwise the answer is negative |
| KcpQueue.NoneEmptyRecv | 3rd/kcp/ikcp.c:358-435 | with no empty segment queued a receive never answers 0 |
| KcpModel.KcpControl.PeekSize | 3rd/kcp/ikcp.c:441-463 | the size of the message at the head of the queue, over all its fragments, or a negative answer while some are missing by the count in the first |
| KcpModel.KcpControl.Recv | 3rd/kcp/ikcp.c:358-435 | takes the head message if it fits, possibly an empty one with answer 0, and nothing with a negative answer; segments that waited for room in the window move up and none is lost or reordered |
| KcpModel.KcpControl.Merge | 3rd/kcp/ikcp.c:383-408 | joins the fragments of the head message in order and leaves the rest |
| KcpModel.KcpControl.Refill | 3rd/kcp/ikcp.c:413-424 | moves waiting segments up until the window is full, in order |
| ConnectionModel.Connection.constructor | include/kcp.hpp:656-664 | a new connection is idle, with nothing pending and the given time stamp |
| ConnectionModel.Connection.InitiateAsyncRead | include/kcp.hpp:386-415 | refuses by posting the handler, or stores the operation and posts a check |
| ConnectionModel.Connection.InitiateAsyncWrite | include/kcp.hpp:471-512 | refuses, or sends and either posts the answer or waits |
| ConnectionModel.Connection.SendNow | include/kcp.hpp:485-510 | resets next_tick_, sends, and answers message_size, success, or stores the operation |
| ConnectionModel.Connection.DrainStream | include/kcp.hpp:336-348 | the prepare/recv/commit loop over a real streambuf terminates and has the effect of Drain, stopping behind an empty message, or fails when prepare throws |
| ConnectionModel.Connection.DrainOnce | include/kcp.hpp:336-348 | one pass: prepare, receive, and commit what came; an empty message ends it |
| ConnectionModel.Connection.Attempt | include/kcp.hpp:283-357 | one receive, or the drain loop and the size test |
| ConnectionModel.Connection.AttemptStream | include/kcp.hpp:335-357 | the drain loop over the real streambuf and the size test, or the exception of prepare |
| ConnectionModel.Connection.CompleteReadOp | include/kcp.hpp:325-357 | do_complete: error or success to the handler, or not finished |
| ConnectionModel.Connection.SettleReadOp | include/kcp.hpp:535-542 | takes the read out of its slot, tries it, and puts it back if unfinished |
| ConnectionModel.Connection.CheckReadOp | include/kcp.hpp:533-544 | the read, then the write |
| ConnectionModel.Connection.CheckWriteOp | include/kcp.hpp:546-556 | completes the pending write on an error or when at most 128 packets wait |
| ConnectionModel.Connection.CloseWith | include/kcp.hpp:791-813 | nothing unless opened; else closed, checked with the code, and a disconnect sent; a client then closes its socket and cancels its timer |
| ConnectionModel.Connection.ConsumeFrom | 3rd/asio/basic_streambuf.hpp:247-254 | user code takes bytes from the front of one streambuf; the connection's other streambufs and operations stay as they are |
| ConnectionModel.Connection.OnReceive | include/kcp.hpp:558-595 | the size test, opening, time stamp, and the switch on the opcode |
| ConnectionModel.Connection.OnClientDatagram | include/kcp.hpp:630-654 | the client's receive handler: the datagram is handled, and the next receive begins unless the connection has closed |
| ConnectionModel.Connection.OnReceiveError | include/kcp.hpp:643-646 | an error on the client's socket closes the connection with it, and no receive begins |
| ConnectionModel.Connection.Update | include/kcp.hpp:618-628 | drives KCP when its tick is due and returns the time stamp |
| ConnectionModel.Connection.OnTimer | include/kcp.hpp:597-616 | the client's timer: update, and close with timed_out after 30000 ms of silence, or start the timer again |
| ConnectionModel.Connection.RunPostedTask | include/kcp.hpp:404-412 | takes one posted task out of the queue and runs it |
| ConnectionModel.Connection.StartClient | include/kcp.hpp:666-677 | opens an idle client, begins its first receive and starts its timer; does nothing to any other connection |
| AcceptorLaws.TimeoutAccuracy | include/kcp.hpp:893-921 | with sweeps at most G ms apart, an open connection last heard from at r survives every sweep at now <= r + 30000 - G and is gone after a sweep at now > r + 30000, although receives are stamped with the time of the last sweep |
| AcceptorLaws.RunKeepsStamps | include/kcp.hpp:951-954 | the stamp of an open connection is at most G ms before its last datagram and never after it |
| AcceptorLaws.MapAndAcceptOrder | include/kcp.hpp:968-1001 | over every run each key is its connection's endpoint, the k-th handshake served takes the k-th accept queued, and pushes are completions plus queue length |
| AcceptorLaws.RunKeepsInv | include/kcp.hpp:893-1001 | over every run each connection held keeps the connection's invariant, under its own key |
| AcceptorLaws.BytesStayWithTheirConnection | include/kcp.hpp:951-954 | over every run, bytes delivered and bytes queued on each connection held are exactly the bytes KCP accepted from its address since the connection was made, in order |
| AcceptorLaws.AmpleNeverHalts | include/kcp.hpp:336-348 | if every streambuf made on a server connection can hold all bytes that arrive in the run and one more prepare, no connection ever throws |
| AcceptorLaws.HandshakeOutcome | include/kcp.hpp:968-1001 | after a handshake the entry is idle and the answer names its conversation; an idle entry is kept with its stamp, any other is replaced by one stamped with the clock after a close with operation_aborted, which its pending operations are given if it was open; the accept handler's calls are made; other entries are untouched; the other spawned handshakes wait in their order |
| AcceptorLaws.RemovedIsDrained | include/kcp.hpp:978-982 | a connection past idle that is closed because it is replaced or swept ends closed with one disconnect; it has nothing pending if it was open, or had been closed with an error, and if it was open its pending operations were completed with the error |
| AcceptorLaws.RetiredHaveParted | include/kcp.hpp:902-982 | over every run, every connection the acceptor replaced or swept away was idle and stays so, or ends closed; it ends with nothing pending if and only if it was open or had nothing pending before, so one that a user closed with a zero code may keep its operation; if it was open its operations were completed with the reason and one disconnect was sent |
| AcceptorLaws.NothingLeavesUnseen | include/kcp.hpp:902-982 | a connection whose address is free after a step, or held by one less far in its life, was recorded in that step as it was, and ended as Parted says |
| AcceptorLaws.SweptOutcome | include/kcp.hpp:902-914 | KCP is driven on every entry that is due; a stale open connection is then closed, its operations learn timed_out and one disconnect is sent; every other connection keeps state, history and operations |
| AcceptorTheorems.IdleTimeout | include/kcp.hpp:902-989 | over every run, an entry not heard from yet survives exactly the sweeps up to 30000 ms after the handshake that made it, as it was, and is gone after a later one; repeating the handshake does not renew it |
| AcceptorTheorems.SweepOutcome | include/kcp.hpp:899-915 | over every run, a sweep keeps exactly the entries that are not closed and whose stamp is at most 30000 ms old, leaves nothing unsent on any of them, sets the tick of those that were due to KCP's answer and keeps the tick of the others |
| AcceptorTheorems.HandshakesRunOnce | include/kcp.hpp:940-1001 | over every run, each handshake asked for with the acceptor's magic has run once or still waits, and no other runs; the k-th that ran is the k-th served |
| AcceptorModel.Acceptor.constructor | include/kcp.hpp:870-876 | no connection, no accept, and the clock's time as the time of the last sweep |
| AcceptorModel.Acceptor.AsyncAccept | include/kcp.hpp:839-844 | the accept goes to the back of the queue |
| AcceptorModel.Acceptor.OnDatagram | include/kcp.hpp:931-965 | a handshake of the right size and magic is spawned with its conversation; any other known opcode goes to the sender's connection with the cached time |
| AcceptorModel.Acceptor.RunHandshake | include/kcp.hpp:968-1001 | finds or replaces the entry, recording what it closed with operation_aborted, answers, and completes the accept at the front |
| AcceptorModel.Acceptor.FindOrReplace | include/kcp.hpp:971-989 | the idle connection under the address, or a new one after closing what was there with operation_aborted, which it hands back closed |
| AcceptorModel.Acceptor.Sweep | include/kcp.hpp:899-915 | the map keeps exactly the entries neither closed nor stale, updated; each erased entry was updated and closed |
| AcceptorModel.Acceptor.SweepEntries | include/kcp.hpp:902-914 | the erase-while-iterating loop terminates, visits each entry once, in any order, with the effect of Sweep |
| AcceptorModel.Acceptor.Visit | include/kcp.hpp:904-908 | one entry: update, and close with operation_aborted or timed_out if closed or stale |
| NetworkLaws.HandshakeAgreement | include/kcp.hpp:1013-1043 | under loss, duplication and reordering a connected client names the server as its peer and carries the conversation of the idle server connection held under its address when its answer was sent, and an earlier connect from that address with the server's magic had asked for it |
| NetworkLaws.ConnectSucceeds | include/kcp.hpp:1013-1043 | after any run that has not halted and has an accept queued: if the request and the answer of one more connect are delivered, at any times, the client is connected, open, started and stamped with the time of the answer, client and server entry name each other's endpoint and hold the same conversation, and it is the one asked for if and only if no idle entry with another one was there |
| NetworkLaws.StepStaysHonest | include/kcp.hpp:931-948 | every step of clients, server and network keeps: requests were asked for, answers were given, entries were asked for |
| NetworkLaws.HandshakeReadsBack | include/kcp.hpp:1022-1025 | a handshake frame that passes the server's test carries the server's magic and yields the conversation put in |
| NetworkLaws.ResponseReadsBack | include/kcp.hpp:1029-1041 | the client reads the conversation out of the answer |
| NetworkLaws.HandshakeAnswers | include/kcp.hpp:991-996 | each answer sent names the conversation then held under the address and asked for from it |
| StreambufModel.Streambuf.constructor | 3rd/asio/basic_streambuf.hpp:131-141 | empty, within the limit, with the offsets in order |
| StreambufModel.Streambuf.Size | 3rd/asio/basic_streambuf.hpp:158-161 | the number of readable bytes, never above max_size |
| StreambufModel.Streambuf.Reserve | 3rd/asio/basic_streambuf.hpp:308-346 | succeeds if and only if size() + n <= max_size(), then keeps the readable bytes across move and resize and has n bytes of room; on failure they are what the move has left at the old offsets |
| StreambufModel.Streambuf.Prepare | 3rd/asio/basic_streambuf.hpp:214-219 | fails if and only if size() + n > max_size(); then the readable bytes are unchanged if and only if they repeat with the number of consumed bytes before them as period |
| StreambufModel.SlidKeeps | 3rd/asio/basic_streambuf.hpp:322-326 | the bytes left by a move to the front, read at the old offsets, are the old ones if and only if they repeat with that period |
| StreambufModel.MovedIsSlid | 3rd/asio/basic_streambuf.hpp:322-326 | what the move leaves at the old offsets, for every buffer and offset |
| StreambufModel.FailedPrepare | 3rd/asio/basic_streambuf.hpp:308-346 | a run, for any limit: any bytes that fit, some of them consumed, and a prepare over the limit, which leaves the others as the move does |
| StreambufModel.SlidWitness | 3rd/asio/basic_streambuf.hpp:322-326 | 2, 3, 4 behind one consumed byte become 3, 4, 4; 3, 4 behind two stay |
| StreambufModel.Streambuf.Fill | 3rd/asio/basic_streambuf.hpp:198-213 | writing through the prepared buffer does not touch the readable bytes |
| StreambufModel.Streambuf.Commit | 3rd/asio/basic_streambuf.hpp:233-238 | appends the bytes written, at most those prepared |
| StreambufModel.Streambuf.Consume | 3rd/asio/basic_streambuf.hpp:247-254 | removes bytes from the front, at most all of them |
| StreambufModel.Streambuf.Underflow | 3rd/asio/basic_streambuf.hpp:263-274 | the first readable byte, if there is one, and makes it gettable |
| StreambufModel.Streambuf.Overflow | 3rd/asio/basic_streambuf.hpp:283-306 | appends a character if and only if size() < max_size(), and otherwise leaves the contents unchanged |
| StreambufModel.Streambuf.PutChar | 3rd/asio/basic_streambuf.hpp:283-306 | a character put is appended if and only if there is room |
| StreambufModel.Streambuf.GetChar | 3rd/asio/basic_streambuf.hpp:263-274 | a character got is the oldest one left; what is readable is what was put in less what was taken |
| StreambufModel.Streambuf.ReadSizeHelper | 3rd/asio/basic_streambuf.hpp:353-359 | never more than can be prepared, nor than asked, nor than the larger of 512 and the free capacity; and always equal to one of these bounds |
| SocketStreambufModel.SocketStreambuf.constructor | 3rd/asio/basic_socket_streambuf.hpp:566-576 | both areas empty, buffered |
| SocketStreambufModel.SocketStreambuf.SendAll | 3rd/asio/basic_socket_streambuf.hpp:490-523 | for any pattern of partial sends, waits and failures the socket gets exactly the bytes it takes turn by turn, in order; the loop succeeds if and only if that is all of them, and otherwise reports what stopped it |
| SocketStreambufModel.TakenIs | 3rd/asio/basic_socket_streambuf.hpp:490-523 | up to the first turn that expires or fails the socket takes what it offers or all there is; a sender that has more is told timed_out or the failure of that turn |
| SocketStreambufModel.PatientSendSucceeds | 3rd/asio/basic_socket_streambuf.hpp:490-523 | a socket that only ever sends some or blocks, and sends often enough, takes everything |
| SocketStreambufModel.SocketStreambuf.Overflow | 3rd/asio/basic_socket_streambuf.hpp:468-540 | succeeds if and only if the socket takes the whole output, and then bytes sent and put area are the characters written, buffered or not; on failure they still are if and only if it took none |
| SocketStreambufModel.SocketStreambuf.PutChar | 3rd/asio/basic_socket_streambuf.hpp:468-540 | with room a character is stored without touching the socket; without, it succeeds if and only if the socket takes the output, and a failure leaves the put area as it was |
| SocketStreambufModel.SocketStreambuf.Sync | 3rd/asio/basic_socket_streambuf.hpp:542-545 | succeeds if and only if the socket takes the whole put area, and then it has everything written; after a failure the stream is intact if and only if it took none |
| SocketStreambufModel.FlushTwice | 3rd/asio/basic_socket_streambuf.hpp:468-540 | for any state and any socket: a flush that fails and one that then succeeds put what the first had sent on the wire twice |
| SocketStreambufModel.FailedFlushRepeats | 3rd/asio/basic_socket_streambuf.hpp:468-540 | a run in which the socket takes one of two characters and fails, and the next sync sends the first one again |
| SocketStreambufModel.SocketStreambuf.SetBuf | 3rd/asio/basic_socket_streambuf.hpp:547-558 | switches buffering off if and only if asked for no buffer with nothing waiting, and loses nothing |
| SocketStreambufModel.FirstArrivalIs | 3rd/asio/basic_socket_streambuf.hpp:422-463 | after any number of turns that would block, the reader gets the bytes that arrive, up to 504, or the expiry, end of stream or failure that comes; blocking to the end is an expiry |
| SocketStreambufModel.SocketStreambuf.Underflow | 3rd/asio/basic_socket_streambuf.hpp:414-466 | with an empty get area it becomes exactly the first bytes to arrive, or end-of-file with the error that came first; with characters left, end-of-file and no change, which sbumpc never asks for |
| SocketStreambufModel.SocketStreambuf.GetChar | 3rd/asio/basic_socket_streambuf.hpp:414-466 | the oldest character left, or with an empty get area the first that arrives, or end-of-file with the error that came first; what is left is what arrived less what was read |
| CompletionHandler.SingleShot | 3rd/asio/any_completion_handler.hpp:532-635 | over every program of constructions, moves, swaps, null assignments, calls and destructions, also inside handlers: one owner a block, at most one run and one release, always by the right type's functions, and each block released exactly once when all wrappers are gone |
| CompletionHandler.ReleasedBeforeBody | 3rd/asio/any_completion_handler.hpp:176-188 | when a handler body starts its block is released and no wrapper owns it |
| CompletionHandler.CallRunsOnce | 3rd/asio/any_completion_handler.hpp:624-635 | a call enters the handler exactly once, with the wrapper empty and the block freed, and what the handler does comes after that and changes neither |
| CompletionHandler.ExecKeepsOwned | 3rd/asio/any_completion_handler.hpp:561-635 | each operation keeps ownership unique and every block accounted for |
| CompletionHandler.RenameMoves | 3rd/asio/any_completion_handler.hpp:571-612 | a move takes the handler to the new wrapper and a swap exchanges two; no other wrapper and no block changes |
| CompletionHandler.AnyCompletionHandler.From | 3rd/asio/any_completion_handler.hpp:561-569 | owns a new block under its own type's table |
| CompletionHandler.AnyCompletionHandler.Move | 3rd/asio/any_completion_handler.hpp:571-577 | takes table and block, and leaves the source empty |
| CompletionHandler.AnyCompletionHandler.Swap | 3rd/asio/any_completion_handler.hpp:608-612 | exchanges tables and blocks, also with itself |
| CompletionHandler.AnyCompletionHandler.AssignNull | 3rd/asio/any_completion_handler.hpp:586-590 | empties the wrapper and releases its block |
| CompletionHandler.AnyCompletionHandler.Destroy | 3rd/asio/any_completion_handler.hpp:592-596 | releases the block, if there is one |
| CompletionHandler.AnyCompletionHandler.Call | 3rd/asio/any_completion_handler.hpp:624-635 | empties the wrapper, releases the block, then enters the handler; fails if and only if empty |
| AlignedBlock.AlignFits | 3rd/asio/any_completion_handler.hpp:137-143 | a block always fits, for any size, alignment and base, at the next aligned address |
| AlignedBlock.WordReadsBack | 3rd/asio/any_completion_handler.hpp:166-168 | a word copied into memory and back is the same number |
| AlignedBlock.Memory.Allocate | 3rd/asio/any_completion_handler.hpp:128-153 | never fails; the block is aligned, it and the offset word behind it lie inside the larger block, and no other byte changes |
| AlignedBlock.Memory.Deallocate | 3rd/asio/any_completion_handler.hpp:155-173 | the larger block goes back with its own base and byte count, and nothing for a null pointer |
| AlignedBlock.Memory.UseBlock | 3rd/asio/any_completion_handler.hpp:128-173 | allocate, overwrite the whole block, deallocate: the allocator holds what it held before |
| HostPort.ParseHostPort | include/kcp.hpp:71-99 | the scanning loop computes Parse: brackets dropped, colons inside them kept, the default port when there is none or it cannot be read |
| HostPort.NoPort | include/kcp.hpp:71-92 | a text without bracket and colon is all host, with the default port |
| HostPort.HostAndPort | include/kcp.hpp:71-99 | with one colon the host is what stands before it and the port what std::stoul makes of the rest, cut to 16 bits, or the default if it makes nothing of it or nothing is there |
| HostPort.StoulReads | include/kcp.hpp:93 | a port may have spaces and a sign before it and anything but a digit behind it; a number beyond 64 bits is none |
| HostPort.StoulFails | include/kcp.hpp:93-98 | without a digit behind spaces and sign the port cannot be read |
| HostPort.AddressRoundTrip | include/kcp.hpp:71-111 | what address prints is parsed back for every port if and only if the host has no bracket and no colon |
| HostPort.LoopbackIsMisread | include/kcp.hpp:71-111 | "::1" at port 9 is printed as "::1:9" and parsed as no host at port 19 |
| HostPort.BracketedRoundTrip | include/kcp.hpp:76-87 | "[h]:p" is parsed to h and p for every h without brackets, colons included |
| HostPort.PortReadsBack | include/kcp.hpp:93 | the decimal digits of every port from 0 to 65535 are read back |
| HostPort.ScannedHost | include/kcp.hpp:76-87 | a parsed host never holds a bracket, and a colon only if the text had brackets |
| BufferPool.StaticBuffer.Write | include/kcp.hpp:166-172 | the buffer holds the opcode and the payload |
| BufferPool.Pool.Make | include/kcp.hpp:205-219 | the buffer handed out is empty and owned by no one else, from the pool if it has one |
| BufferPool.Pool.Release | include/kcp.hpp:189-201 | the buffer goes back to the pool, or is freed if and only if 1024 are pooled; the pool has no duplicates and none that is handed out |

## Left out

- KCP beyond receiving: retransmission, congestion, and which segments a datagram brings into order. `kcp/ikcp.h` is not part of this model.
- UDP sockets, timers, executors, coroutine mechanics, clocks and logging: atomic steps and a number for the time stand in for them. Posted tasks may run in any order.
- Exceptions from a socket send inside `close`, `~connection`, and object lifetime (`shared_from_this`, captured raw pointers).
- Handlers that act on another connection, or on the acceptor other than by accepting again.
- AcceptorModel.Acceptor.Sweep: the map holds connections as values, so a connection shared between the acceptor and a user is not captured, nor what a user does with one after it was replaced or erased; the connection's own updates in place are in ConnectionModel.
- AcceptorModel.Acceptor.RunHandshake: requires a queued accept, because the code takes the front of the queue without a test.
- ConnectionTheorems.BytesArriveInOrder: after a read has thrown nothing is said about the connection's streambufs. AsyncReadOutcome says exactly when it throws, Streambuf.Prepare what is left, and AmpleNeverThrows when it cannot happen.
- ConnectionTheorems.NoLostWakeups: says nothing about pending operations once a read has thrown, because the exception leaves the event loop and nothing runs any more.
- ConnectionPair.PeersCloseTogether: leaves out a peer that threw while closing, because it may have sent no frame.
- Sizes beyond the range of `int` in `ikcp_recv`, `ikcp_send`, `pbump` and `gbump`, and pointer overflow in `consume`.
- Whether a rejected `ikcp_send` has queued part of its data.
- That conversation numbers are distinct: `async_connect` overwrites its counter with the answer it gets.
- Putback and seeking on the stream buffers, and their capacity beyond being at least the vector's size.
- The expiry time of the socket buffer as a clock: each pass of a loop is told whether it has expired, and one that would wait for ever is not modelled.
- `connect`, `close`, endpoint resolution and move operations of `basic_socket_streambuf`.
- Move assignment of `any_completion_handler`, its executors, cancellation slots and associators.
- Platforms on which `unsigned long` has 32 bits: `std::stoul` is modelled with 64.
- `include/error.hpp`, the example program and asio's remaining wrappers, which only forward.
