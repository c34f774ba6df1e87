# Models and proofs for the network, threading and shell exercises

A Dafny model of five parts of this repository, with proofs of what they promise. Each module follows one source
file or component.

- **Queues.** `BlockQueueModel` and `RingQueueModel` are transition systems with any number of producers and
  consumers, each with a finite list of items to push or a number of pops to make. One action is one lock, test, wait, signal,
  semaphore operation, slot access or unlock. The classes `BlockQueue` and `RingQueue` carry out these actions on the
  fields of the C++ objects. A popped element counts as taken at `block_queue.hpp:56` or `ring_queue.hpp:75`.
- **Calculator protocol.** `Calculator`, `Decimal` and `Protocol` model the text codec, the framing and the drain loop
  of `cal_IO`. Each loop is a method proved equal to a function on strings, and the theorems are about these functions.
- **Event loops.** `Reactor` models `reactor_server.hpp` with `cal_IO` as callback. `SlotTable` with
  `SelectServerModel` and `PollServerModel` models the two servers with a descriptor array. The kernel's answers (accepted
  numbers, bytes read, counts written, ready sets, the clock) are parameters and may be anything the kernel can do,
  including the reuse of a closed number.
- **Shell and process pool.** `ShellGrammar` describes command lines as strings. `ShellInPlace` is the parser on a
  `char` array, where a pointer is an index. `Numbers` and `ProcPool` model the fork and pipe protocol with one
  descriptor table per process, for any number of workers, tasks and functions.
- **Chat room.** `ChatRoom` models the user map and `shellServer`, driven by an arbitrary message history.

`Sums` and `Workers` hold what several modules share. `dafny verify dfyconfig.toml` checks everything.

## What turned out different from what one might expect

- The end-to-end theorem of the calculator holds for every operator. A request whose operator is `\r` is not read back as
  sent (`Protocol.RequestRoundTrip` says exactly when), but both the sent and the read operator are wrong ones.
- The work of a queue need not be balanced to complete: it completes exactly when pushes minus pops lies between 0 and the
  capacity. With capacity 0 it completes only when there is nothing to push.
- The reference returned by the ring's `pop` can name an overwritten slot before its own `V(_write)`. Some run comes to
  that if and only if there are at least two places, more pushes than places, and two consumers with something to pop
  (`RingQueueModel.WhenOverwritten`); otherwise no run does (`RingQueueModel.ReferenceIsSafe`).
- `writer` leaves its loop only with an empty buffer, so the branch at `reactor_server.hpp:297-298` is never taken and
  `EPOLLOUT` is never registered, although the comment at line 269 says that epoll takes over what was not sent. The
  test after the loop is kept, and the invariant `Server.Wired` has every registration for input only.
- `writer` with nothing to send takes the 0 returned by `write` for the end of the client and closes the connection. The
  output of `cal_IO` does not depend on how the stream is cut, but the server does: a client that takes every reply at
  once is closed exactly when one of its chunks completes no request (`Reactor.PromptClient`), so any request cut in
  two loses it the connection (`Reactor.CutRequestCloses`). `Reactor.StaysOpen` has the condition for all writes.
- Spaces before a `|` in a shell line are harmless exactly when the command has no redirection; otherwise they end up
  in the file name (`ShellGrammar.BlankAfterCommand`).
- `shellServer` tests for `offline` first, and broadcasts an `online` sent by a user who is online already.

## Model

| member | source | states |
|---|---|---|
| BlockQueueModel.InitInv | thread_t/block_queue/block_queue.hpp:16-22 | a new queue with idle threads satisfies the invariant |
| BlockQueueModel.MoveIsFifo | thread_t/block_queue/block_queue.hpp:41-57 | enqueueing never exceeds the capacity and appends; dequeueing yields the oldest element not yet taken |
| BlockQueueModel.StepAttends | thread_t/block_queue/block_queue.hpp:33-64 | how every single action changes the number of threads that will still look at the queue for each side |
| BlockQueueModel.StepInv | thread_t/block_queue/block_queue.hpp:33-64 | every action of any thread keeps mutual exclusion, the FIFO relation, the capacity and the wake-up counts |
| BlockQueueModel.RunInv | thread_t/block_queue/block_queue.hpp:33-64 | so does every run |
| BlockQueueModel.MutualExclusion | thread_t/block_queue/block_queue.hpp:35-45 | in no run are two threads in the critical section |
| BlockQueueModel.FifoRefinement | thread_t/block_queue/block_queue.hpp:33-64 | in every run the dequeued elements followed by the queued ones are the enqueued ones, within capacity |
| BlockQueueModel.NoLostWakeup | thread_t/block_queue/block_queue.hpp:37-44 | outside critical sections, a sleeping consumer implies at most as many queued elements as woken consumers, and dually for producers and free places, in spite of overtaking and spurious wake-ups |
| BlockQueueModel.RunKeepsSurplus | thread_t/block_queue/block_queue.hpp:33-64 | pushes to come plus queued elements minus pops to come never changes |
| BlockQueueModel.RunKeepsStreams | thread_t/block_queue/block_queue.hpp:33-46 | what a thread has stored followed by what it has to store is always its original list: nothing lost, repeated or reordered |
| BlockQueueModel.NoRoomNoMoves | thread_t/block_queue/block_queue.hpp:37-38 | with capacity 0 no run stores anything |
| BlockQueueModel.HolderMoves | thread_t/block_queue/block_queue.hpp:35-45 | the holder of the mutex can always go on |
| BlockQueueModel.StuckThread | thread_t/block_queue/block_queue.hpp:33-64 | when nobody can go on, the mutex is free and every thread is done or asleep |
| BlockQueueModel.StuckMeansDone | thread_t/block_queue/block_queue.hpp:33-64 | a reachable state without a next step has completed all work if and only if the work fits |
| BlockQueueModel.MaximalRunCompletes | thread_t/block_queue/block_queue.hpp:33-64 | every maximal run completes all operations if and only if the work fits, and then has stored each producer's items in order and dequeued all but the surplus |
| BlockQueueModel.StepWorks | thread_t/block_queue/block_queue.hpp:33-64 | every step lowers the measure, except a spurious wake-up, which raises it by three |
| BlockQueueModel.RunIsBounded | thread_t/block_queue/block_queue.hpp:33-64 | a run is no longer than the work at its start plus four times its spurious wake-ups |
| BlockQueueModel.BlockQueue.constructor | thread_t/block_queue/block_queue.hpp:16-22 | the object starts in an initial state, with capacity 5 by default |
| BlockQueueModel.BlockQueue.AcquireMutex | thread_t/block_queue/block_queue.hpp:35 | the lock step on the object is the lock action of the transition system |
| BlockQueueModel.BlockQueue.TestOrWait | thread_t/block_queue/block_queue.hpp:37-38 | likewise one test of the wait loop, giving the mutex up when it is true |
| BlockQueueModel.BlockQueue.MoveElement | thread_t/block_queue/block_queue.hpp:41-57 | likewise the transfer; a consumer gets the front element |
| BlockQueueModel.BlockQueue.SignalOther | thread_t/block_queue/block_queue.hpp:44-60 | likewise the signal, which wakes one sleeper of the other side if there is one |
| BlockQueueModel.BlockQueue.ReleaseMutex | thread_t/block_queue/block_queue.hpp:45-61 | likewise the unlock |
| RingQueueModel.InitInv | thread_t/ring_queue/ring_queue.hpp:18-37 | a new ring of any capacity satisfies the invariant |
| RingQueueModel.StoreAvoidsWindow | thread_t/ring_queue/ring_queue.hpp:65 | the slot a producer writes is none of those still to be taken or still being returned |
| RingQueueModel.TakeIsNext | thread_t/ring_queue/ring_queue.hpp:75 | a consumer at its slot access finds the oldest element not taken |
| RingQueueModel.StepInv | thread_t/ring_queue/ring_queue.hpp:61-80 | every action keeps the mutexes, the permit equations and the slot contents |
| RingQueueModel.RunInv | thread_t/ring_queue/ring_queue.hpp:61-80 | so does every run |
| RingQueueModel.FifoRefinement | thread_t/ring_queue/ring_queue.hpp:61-80 | the k-th slot access of a consumer selects the k-th stored element, and 0 <= wPos - rPos <= cap, whatever the order of the posts |
| RingQueueModel.PermitConservation | thread_t/ring_queue/ring_queue.hpp:63-78 | both semaphores plus the permits of threads in mid-operation always add up to the capacity |
| RingQueueModel.SlotExclusion | thread_t/ring_queue/ring_queue.hpp:63-78 | two threads at a slot access are on different sides and at different slots |
| RingQueueModel.DrainedSlotsIntact | thread_t/ring_queue/ring_queue.hpp:75-78 | while d consumers have selected a slot and not posted, the last d selected slots still hold their elements |
| RingQueueModel.ReferenceNames | thread_t/ring_queue/ring_queue.hpp:75-78 | until its consumer posts, a selected slot holds the popped element, or one stored at least a whole turn of the ring later if it has been overwritten |
| RingQueueModel.WhenOverwritten | thread_t/ring_queue/ring_queue.hpp:61-80 | from an initial state some run overwrites a selected slot before its consumer posts if and only if there are two places, more pushes than places, and two consumers with pops to make |
| RingQueueModel.ReferenceIsSafe | thread_t/ring_queue/ring_queue.hpp:71-80 | otherwise, in every run, a consumer that has not posted finds the element it popped |
| RingQueueModel.StaleReference | thread_t/ring_queue/ring_queue.hpp:75-79 | two places, pushes of 7, 8, 9 and two consumers: a run in which the one that popped the 7 finds the 9 before it posts |
| RingQueueModel.RunKeepsSurplus | thread_t/ring_queue/ring_queue.hpp:61-80 | pushes to come plus elements in the ring minus pops to come never changes |
| RingQueueModel.RunKeepsStreams | thread_t/ring_queue/ring_queue.hpp:61-69 | each producer's items are stored in its own order, none lost or repeated |
| RingQueueModel.HolderMoves | thread_t/ring_queue/ring_queue.hpp:64-77 | the holder of either mutex can always go on |
| RingQueueModel.StuckThread | thread_t/ring_queue/ring_queue.hpp:61-80 | when nobody can go on, every thread is between operations, and an unfinished one waits for a semaphore at zero |
| RingQueueModel.StuckMeansDone | thread_t/ring_queue/ring_queue.hpp:61-97 | a reachable state without a next step has completed all work if and only if the work fits the ring |
| RingQueueModel.RunUsesWork | thread_t/ring_queue/ring_queue.hpp:61-97 | every step uses up exactly one unit of work, so runs have bounded length |
| RingQueueModel.MaximalRunCompletes | thread_t/ring_queue/ring_queue.hpp:61-97 | every maximal run completes all operations if and only if pushes minus pops is between 0 and the capacity, and with capacity 0 nothing is to be pushed; the items are then in order |
| RingQueueModel.RingQueue.constructor | thread_t/ring_queue/ring_queue.hpp:18-37 | the object starts in an initial state, with capacity 5 by default and any other, 0 included |
| RingQueueModel.RingQueue.SemWait | thread_t/ring_queue/ring_queue.hpp:63-73 | the P step on the object is that of the transition system |
| RingQueueModel.RingQueue.LockSide | thread_t/ring_queue/ring_queue.hpp:64-74 | likewise the lock of the thread's own side |
| RingQueueModel.RingQueue.AccessSlot | thread_t/ring_queue/ring_queue.hpp:65-75 | likewise the slot access; a consumer gets the element in the slot |
| RingQueueModel.RingQueue.UnlockSide | thread_t/ring_queue/ring_queue.hpp:67-77 | likewise the unlock |
| RingQueueModel.RingQueue.SemPost | thread_t/ring_queue/ring_queue.hpp:68-78 | likewise the V on the other side's semaphore |
| Calculator.TruncatedDivision | IO/reactor/cal.hpp:103-118 | quotient and remainder are those of C++: they recombine, and the remainder is smaller than the divisor and never of the other sign than the dividend |
| Calculator.QuotientIsInt | IO/reactor/cal.hpp:108 | the quotient of two ints is an int except for INT_MIN / -1 |
| Calculator.TruncationIsUnique | IO/reactor/cal.hpp:103-118 | there is no other quotient and rest that recombine, with the rest smaller than the divisor and not of the other sign |
| Calculator.DefinedMeans | IO/reactor/cal.hpp:90-125 | an evaluation is defined if and only if its exact result is an int or its operator or divisor is answered with an error code |
| Calculator.EvaluateMeans | IO/reactor/cal.hpp:90-125 | each error code occurs exactly in its case, UNKNOWN never, and errors carry 0; otherwise the number is the sum, the difference, the product, or the quotient or the rest of the division that truncates toward zero |
| Decimal.NatToString | IO/reactor/protocol.hpp:63-65 | the decimal text of a number has digits only, at least one, and no leading zero |
| Decimal.NumeralIsCanonical | IO/reactor/protocol.hpp:63-65 | a numeral without a leading zero is the only text printed for its value |
| Decimal.StoiReads | IO/reactor/protocol.hpp:96-97 | on any text stoi skips blanks, takes at most one sign and all digits, ignores the rest, and throws without digits or outside int |
| Decimal.SpacesAre | IO/reactor/protocol.hpp:96-97 | the blanks that stoi skips are the six of the C locale |
| Decimal.StoiToString | IO/reactor/protocol.hpp:96-97 | stoi reads back every int that to_string printed |
| Protocol.FindEnd | IO/reactor/protocol.hpp:178-180 | the first place where `\r\n` starts, and None exactly when there is none |
| Protocol.ResidueHasNoFrame | IO/reactor/test.cc:27-47 | what the drain loop leaves holds no `\r\n` |
| Protocol.DrainAppend | IO/reactor/test.cc:24-50 | later bytes do not change what is done with the frames already complete, also when the cut is inside `\r\n` |
| Protocol.ChunkIndependence | IO/reactor/test.cc:24-50 | for every frame handler and every way to cut a stream, draining after each chunk gives the output, status and residue of one drain |
| Protocol.DecodeStaysInFrame | IO/reactor/protocol.hpp:39-45 | the unbounded scan of decode stops inside every frame that recvmessage cuts out |
| Protocol.RequestRoundTrip | IO/reactor/protocol.hpp:59-111 | a framed request is read back if and only if its operator is not `\r`, and what is read otherwise |
| Protocol.ParseFields | IO/reactor/protocol.hpp:81-111 | on any text the first field is what comes before the first blank, the second ends at the next blank or the end, a text without a blank is read twice, and the operator is the last character |
| Protocol.ResultRoundTrip | IO/reactor/protocol.hpp:127-170 | every result with every exit code is read back |
| Protocol.CodeDigits | IO/reactor/protocol.hpp:127-145 | a result is its number, a blank and the digit 0 to 4 of its exit code |
| Protocol.ServeOne | IO/reactor/test.cc:29-41 | the reply to a framed equation without overflow is its framed result |
| Protocol.ServeAll | IO/reactor/test.cc:24-50 | draining a stream of requests yields the stream of results and no residue |
| Protocol.ReadBack | IO/reactor/protocol.hpp:148-186 | a client that cuts the result stream into frames and parses them gets the results in order |
| Protocol.EndToEnd | IO/reactor/test.cc:24-50 | equations without overflow, serialized, framed, cut anywhere and drained piece by piece: the client reads exactly the calculator's results, in order, and nothing is left |
| Protocol.OnTheWire | IO/reactor/test.cc:24-50 | one request and its reply, byte for byte |
| Protocol.RecvMessage | IO/reactor/protocol.hpp:176-186 | cuts the first complete frame off the string, or changes nothing and reports false |
| Protocol.DecodeMessage | IO/reactor/protocol.hpp:39-45 | the scanning loop finds what comes before the first `\r` |
| Protocol.Encode | IO/reactor/protocol.hpp:47-50 | appends the terminator |
| Protocol.Request.Deserialization | IO/reactor/protocol.hpp:81-111 | sets the fields to what the text says, or fails where stoi throws |
| Protocol.Respond | IO/reactor/test.cc:29-41 | one turn of the loop produces the reply the model assigns to the frame |
| Protocol.CalIO | IO/reactor/test.cc:24-50 | the loop terminates, leaves the residue in the input and appends exactly the drained output |
| Reactor.WriteKeepsBytes | IO/reactor/reactor_server.hpp:273-303 | bytes written followed by bytes kept are the buffer, for every sequence of partial, interrupted and failed writes |
| Reactor.WritesAddUp | IO/reactor/reactor_server.hpp:273-303 | writer by its first answer that is not an interruption or a count with more to send: the counts before it add up to what has been sent, and EAGAIN, a failure, a 0 or the last count end the call, each in its way |
| Reactor.ServeConserves | IO/reactor/reactor_server.hpp:262-269 | conservation is kept by one turn of recver's loop |
| Reactor.ReceiveConserves | IO/reactor/reactor_server.hpp:241-303 | for every split of the input and every sequence of write results, bytes sent followed by the output buffer are exactly the replies to all bytes received, and the input buffer is their unfinished tail |
| Reactor.FlushConserves | IO/reactor/reactor_server.hpp:273-303 | conservation is kept by a write handler call |
| Reactor.HandleConserves | IO/reactor/reactor_server.hpp:170-173 | and by the read and write handler calls for one report |
| Reactor.HandleMeans | IO/reactor/reactor_server.hpp:167-173 | by the flags of a report alone: input or hang-up calls recver, output or hang-up calls writer if recver has left the connection open |
| Reactor.ServedAnswers | IO/reactor/reactor_server.hpp:241-303 | a connection that has received the requests of some equations holds or has sent exactly their framed results |
| Reactor.EmptyWriteCloses | IO/reactor/reactor_server.hpp:273-303 | for all answers that write can give, writer closes the connection if and only if write reports a failure before the buffer is sent, or the buffer is empty and write returns a count |
| Reactor.NothingToSendCloses | IO/reactor/reactor_server.hpp:262-290 | a turn of recver closes the connection if and only if write reports a failure, or the turn leaves nothing to send and write returns a count |
| Reactor.NextRead | IO/reactor/reactor_server.hpp:244-270 | after reads that leave the connection open, an end of file or a failure closes it, EAGAIN ends the call, an interruption changes nothing, and data is served |
| Reactor.NothingAfterTheEnd | IO/reactor/reactor_server.hpp:244-270 | what would come after a closing read or an exception is not looked at |
| Reactor.StaysOpen | IO/reactor/reactor_server.hpp:241-303 | for every script of reads and writes: the connection is closed if and only if a read or a write says that the client has gone or an answered write had nothing to send; otherwise bytes sent and output buffer are the replies to all bytes read, however they were cut |
| Reactor.PromptClient | IO/reactor/reactor_server.hpp:241-303 | a client that takes every reply at once is closed if and only if one of its chunks completes no request |
| Reactor.CutRequestCloses | IO/reactor/reactor_server.hpp:241-303 | any request, cut anywhere in two, loses such a client its connection |
| Reactor.WholeRequestStays | IO/reactor/reactor_server.hpp:241-303 | the same request in one piece is answered and the connection stays open |
| Reactor.TimesOutMeans | IO/reactor/reactor_server.hpp:134-143 | in clock values: a connection times out if and only if it is not exempt and has been quiet for more than 300 seconds, or since a time later than now unless by almost the whole range |
| Reactor.AdmittedMeans | IO/reactor/reactor_server.hpp:179-205 | a descriptor is taken on if and only if accept returns it before it fails with anything but EINTR |
| Reactor.ReadersAreTheReported | IO/reactor/reactor_server.hpp:162-171 | a connection is among the read handler calls of a pass if and only if some handled report has its number and says input or hang-up, and then once |
| Reactor.WritersAreTheReported | IO/reactor/reactor_server.hpp:162-173 | a client is among the write handler calls if and only if some handled report has its number and says output or hang-up and its read handler, if called, has left it open |
| Reactor.NextReport | IO/reactor/reactor_server.hpp:162-173 | when the pass comes to a report its connection is still registered under that number and as the pass found it |
| Reactor.ServedStep | IO/reactor/reactor_server.hpp:162-174 | one more report changes its own connection as specified and no other |
| Reactor.Server.constructor | IO/reactor/reactor_server.hpp:315-346 | at the start the listener is the only connection, registration and open socket |
| Reactor.Server.CloseFd | IO/reactor/reactor_server.hpp:208-214 | closing removes the descriptor from the connections, the registrations and the open sockets, which stay equal |
| Reactor.Server.Acceptor | IO/reactor/reactor_server.hpp:177-206 | the descriptors of the accepted answers are added, each with a fresh connection dated now; known connections stay and the tables stay equal |
| Reactor.Server.Writer | IO/reactor/reactor_server.hpp:273-303 | the loop sends and keeps what the specification says, closes exactly when it says so, registers for input only although the test after the loop could choose otherwise, and updates the time only when it has sent everything |
| Reactor.Server.ServeData | IO/reactor/reactor_server.hpp:262-269 | likewise one turn of recver's loop after a read |
| Reactor.Server.Recver | IO/reactor/reactor_server.hpp:241-271 | likewise the whole of recver, which also renews the time; a connection it closes, by an end of file for one, is in none of the three tables, and any other is in all |
| Reactor.Server.CallRecver | IO/reactor/reactor_server.hpp:170-171 | a read handler call changes this connection only, its traffic and its time, as specified |
| Reactor.Server.CallWriter | IO/reactor/reactor_server.hpp:172-173 | a write handler call changes this connection only, its traffic and its time, as specified |
| Reactor.Server.CallAcceptor | IO/reactor/reactor_server.hpp:341 | the listener's handler adds exactly the accepted descriptors, with fresh connections dated now, and keeps every known connection as it is |
| Reactor.Server.Dispatch | IO/reactor/reactor_server.hpp:164-173 | one report, by its own flags: which handlers are called, on which connection, what they leave of it, and that all others stay |
| Reactor.Server.Dispatcher | IO/reactor/reactor_server.hpp:159-175 | in a pass over distinct reported descriptors every handler call is on the connection that was registered when the pass began, even if numbers are closed and reused on the way; the calls, every old connection's traffic and time, and which of them are still registered are those of the reports one by one; the tables stay equal, the listener registered and all bytes conserved |
| Reactor.Server.Expire | IO/reactor/reactor_server.hpp:363-367 | closes the connection if and only if it has timed out |
| Reactor.Server.Sweep | IO/reactor/reactor_server.hpp:361-368 | over a snapshot in any order, exactly the clients quiet for more than 300 seconds that are not exempt are closed, and the others kept |
| Reactor.Server.Around | IO/reactor/reactor_server.hpp:352-369 | one turn: the pass over what is reported, then the sweep |
| Reactor.Server.Run | IO/reactor/reactor_server.hpp:348-370 | over any number of turns with any kernel answers, each turn serves its reports and then sweeps, beginning with the tables, statuses and calls the one before it left, and the run ends early exactly with a turn in which cal_IO throws; the tables stay equal, the listener stays, and every connection there ever was has conserved its bytes |
| SlotTable.FirstFree | IO/poll_server/poll_server.hpp:113-120 | the first free slot, or the length of a full table |
| SlotTable.AgreeAfterAccept | IO/select_server/select_server.hpp:55-70 | putting an unused number into the first free slot keeps the table in agreement with the open clients |
| SlotTable.AgreeAfterClose | IO/select_server/select_server.hpp:82-95 | so does closing a client and freeing its slot |
| SlotTable.VisitsAreTheReported | IO/select_server/select_server.hpp:36-45 | the visits of a pass go up the table and are exactly the reported clients, once each |
| SlotTable.NeverTheArrival | IO/poll_server/poll_server.hpp:90-99 | none of them is the client accepted in the pass |
| SlotTable.ArrivalIsReadLater | IO/select_server/select_server.hpp:33-94 | in the passes of a run a client accepted in one is read in later ones only |
| SlotTable.PassCloses | IO/select_server/select_server.hpp:81-95 | after a pass a reported client whose read failed or was empty is gone from table and connections, one whose read brought anything is where it was, and so is every client not reported |
| SlotTable.PassAdmits | IO/select_server/select_server.hpp:55-70 | after a pass the arrival is in the slot that was free first, and the other free slots are free |
| SlotTable.RunCloses | IO/poll_server/poll_server.hpp:149-162 | in every pass of a run exactly the reported clients whose read failed or was empty go |
| SlotTable.ScanListener | IO/select_server/select_server.hpp:41-42 | visiting slot 0 first leaves all reported slots as they were reported |
| SlotTable.ScanReported | IO/select_server/select_server.hpp:43-44 | when the scan comes to a reported slot it still holds the descriptor and the connection it was reported for |
| SelectServerModel.SelectServer.constructor | IO/select_server/select_server.hpp:120-133 | slot 0 is the listener and there are no clients |
| SelectServerModel.SelectServer.Register | IO/select_server/select_server.hpp:140-149 | the set handed to select is the listener and the open clients, and maxfd is its greatest element |
| SelectServerModel.SelectServer.Acceptor | IO/select_server/select_server.hpp:48-71 | the new client gets the first free slot, and a full table or a failed accept changes nothing |
| SelectServerModel.SelectServer.Recver | IO/select_server/select_server.hpp:73-117 | a failed or empty read closes the client and frees its slot, and nothing else changes |
| SelectServerModel.SelectServer.Look | IO/select_server/select_server.hpp:38-44 | one turn of the scan, by the slot and the reported set |
| SelectServerModel.ReachNext | IO/select_server/select_server.hpp:36-45 | whatever the turn does, the scan goes on with the slots ahead as they were reported |
| SelectServerModel.SelectServer.HandleReadEvents | IO/select_server/select_server.hpp:33-46 | recver runs exactly once on every reported client, in slot order, on the connection select reported and never on the one accepted in the pass; what every slot holds afterwards |
| SelectServerModel.SelectServer.Run | IO/select_server/select_server.hpp:135-169 | over any number of turns the slots are the listener and exactly the open clients, pairwise distinct; all calls of recver are those of one pass for each turn that reported something, each beginning with the table the one before it left |
| PollServerModel.PollServer.constructor | IO/poll_server/poll_server.hpp:33-59 | entry 0 is the listener and all others are reset |
| PollServerModel.PollServer.Poll | IO/poll_server/poll_server.hpp:65 | poll overwrites the reports only, with none for free entries |
| PollServerModel.PollServer.ResetPollFd | IO/poll_server/poll_server.hpp:134-138 | frees the entry and clears its events and reports |
| PollServerModel.PollServer.Acceptor | IO/poll_server/poll_server.hpp:104-132 | the new client gets the first free entry, with no report in it, and a full array changes nothing |
| PollServerModel.PollServer.Recver | IO/poll_server/poll_server.hpp:140-181 | a failed or empty read closes the client and resets its entry |
| PollServerModel.PollServer.Look | IO/poll_server/poll_server.hpp:92-98 | one turn of the scan, by the entry and its report |
| PollServerModel.ReachNext | IO/poll_server/poll_server.hpp:90-99 | whatever the turn does, the scan goes on with the entries ahead as they were reported |
| PollServerModel.PollServer.HandleEvents | IO/poll_server/poll_server.hpp:85-102 | recver runs exactly once on every client reported readable and never on the one accepted in the pass; what every entry holds afterwards |
| PollServerModel.PollServer.Run | IO/poll_server/poll_server.hpp:61-81 | over any number of turns entry 0 is the listener, the other occupied entries are exactly the open clients, pairwise distinct, and free entries carry no report; all calls of recver are those of one pass for each turn that reported something, each beginning with the array the one before it left |
| ShellGrammar.TrimLeftMeans | pipe_t/MyShell/myshell.c:49-53 | trimming removes exactly the leading blanks |
| ShellGrammar.SplitJoin | pipe_t/MyShell/myshell.c:58-81 | the pieces have no bar and make up the line, for every line |
| ShellGrammar.JoinSplit | pipe_t/MyShell/myshell.c:58-81 | pieces without a bar are what their line splits into, empty ones included |
| ShellGrammar.RedirOfPrinted | pipe_t/MyShell/myshell.c:84-132 | sign, kind and file name are found behind the words, for all three kinds and none, with any blanks after the sign |
| ShellGrammar.WordsOfPrinted | pipe_t/MyShell/myshell.c:142-154 | the words of a printed command are the words it was printed from, however many spaces part them |
| ShellGrammar.BlanksAre | pipe_t/MyShell/myshell.c:49-53 | the blanks that are trimmed are the six of the C locale |
| ShellGrammar.WordsCover | pipe_t/MyShell/myshell.c:142-154 | any text is its words parted by spaces, and no word is empty or has a space |
| ShellGrammar.ParsePrint | pipe_t/MyShell/myshell.c:58-164 | parsing a pipeline printed in any layout recovers its commands, arguments, redirections and file names; the layout is free in the spaces between words and before signs, and, without a redirection, before bars, and in the blanks after bars and signs |
| ShellGrammar.BlankAfterCommand | pipe_t/MyShell/myshell.c:123-127 | spaces behind a command are harmless if and only if it has no redirection; else they are the end of its file name |
| ShellInPlace.StartsAreApart | pipe_t/MyShell/myshell.c:64-75 | the C strings at the stored starts lie one behind the other in the buffer |
| ShellInPlace.CutMeans | pipe_t/MyShell/myshell.c:64-75 | in a buffer with a NUL for every bar, the C strings at the stored starts are the segments |
| ShellInPlace.PipeCheck | pipe_t/MyShell/myshell.c:58-81 | for every line with at most 64 bars the C strings at the start and at the stored pointers are the segments of the functional split and do not overlap, and all accesses are inside the buffer |
| ShellInPlace.RedirCheck | pipe_t/MyShell/myshell.c:84-132 | the command is cut at its first sign, with the kind and the file name of the functional parse, and nothing outside it changes |
| ShellInPlace.StrTok | redirection/MyShell/myshell.c:122-134 | strtok yields the next word, overwrites only a blank, and goes on behind it |
| ShellInPlace.DenotesKept | redirection/MyShell/myshell.c:134 | later calls of strtok leave the words found before alone |
| ShellInPlace.TokenizeRest | redirection/MyShell/myshell.c:134 | the loop fills the vector with the remaining words and ends it with a null pointer |
| ShellInPlace.CommandAnalysis | pipe_t/MyShell/myshell.c:134-164 | the vector, the redirection kind and the file name are those of the functional parse; ll becomes ls -l --color=auto, ls becomes ls --color=auto, any other command is its words, and only cd is not to be run |
| ShellInPlace.Analyse | pipe_t/MyShell/myshell.c:134-164 | one call of Command_Analysis gives the command of the string, and nothing outside the string changes |
| ShellInPlace.OneLess | pipe_t/MyShell/myshell.c:251-264 | analysing a command leaves all earlier ones as they were |
| ShellInPlace.ParsePipeline | pipe_t/MyShell/myshell.c:233-267 | analysing the commands from the last to the first in one buffer, as the processes of a pipeline do one after the other, gives for each the vector, redirection and file name of its segment |
| ShellInPlace.ParseInPlace | pipe_t/MyShell/myshell.c:58-164 | with a pipeline printed in any layout in the buffer, the in-place parser comes to the same pipeline |
| ProcPool.InitInv | pipe_t/procpool/procpool.cc:94-96 | the parent starts without pipes and workers |
| ProcPool.StepInv | pipe_t/procpool/procpool.cc:76-177 | every system call of every process keeps the descriptor tables, the pipe contents and the bookkeeping of tasks |
| ProcPool.RunInv | pipe_t/procpool/procpool.cc:76-177 | so does every interleaving |
| ProcPool.WriteEnds | pipe_t/procpool/procpool.cc:94-129 | after set-up the write end of a pipe is with the parent until it closes it and with the workers whose close loop has not come to it, and with nobody else |
| ProcPool.ReadEnds | pipe_t/procpool/procpool.cc:94-129 | after set-up the read end of pipe k is with worker k until it exits, and with nobody else |
| ProcPool.ReadingTable | pipe_t/procpool/procpool.cc:115-123 | a worker in its read loop has one descriptor, its own read end |
| ProcPool.WritesHaveReaders | pipe_t/procpool/procpool.cc:138 | every write of a task is on an open write end of a pipe with a live reader |
| ProcPool.StuckMeansFinished | pipe_t/procpool/procpool.cc:76-177 | the system has no next step if and only if the parent has waited for every worker |
| ProcPool.StepUsesOne | pipe_t/procpool/procpool.cc:76-177 | every step uses up exactly one of the calls that are left |
| ProcPool.MaximalRunCompletes | pipe_t/procpool/procpool.cc:76-177 | every interleaving ends after exactly n(n+13)/2 + 2m calls, with every waitpid returned, no descriptor open, every pipe empty, and every worker having executed its tasks in order |
| ProcPool.Deal | pipe_t/procpool/procpool.cc:133-138 | the q-th task of worker k is number qn + k, and how many it gets |
| ProcPool.TaskIsDealt | pipe_t/procpool/procpool.cc:133-138 | task number i is in one known place: number i / n of worker i mod n |
| ProcPool.LoadsDiffer | pipe_t/procpool/procpool.cc:133-138 | the loads of two workers differ by at most one |
| ProcPool.FifteenRounds | pipe_t/procpool/procpool.cc:133-136 | with 5 workers and 4 functions the 15 rounds repeat no pair |
| ProcPool.Pool.constructor | pipe_t/procpool/procpool.cc:181-188 | the program starts in the initial state |
| ProcPool.Pool.MakeNextPipe | pipe_t/procpool/procpool.cc:99-102 | pipe on the objects is that of the transition system |
| ProcPool.Pool.ForkWorker | pipe_t/procpool/procpool.cc:105-109 | likewise fork, which copies the descriptor table |
| ProcPool.Pool.CloseReadEndInParent | pipe_t/procpool/procpool.cc:126-127 | likewise the parent's close of a read end |
| ProcPool.Pool.WriteTask | pipe_t/procpool/procpool.cc:133-139 | likewise the write of a task |
| ProcPool.Pool.CloseWriteEndInParent | pipe_t/procpool/procpool.cc:170-171 | likewise the parent's close of a write end |
| ProcPool.Pool.WaitForWorker | pipe_t/procpool/procpool.cc:173-174 | likewise the return of waitpid |
| ProcPool.Pool.CloseInWorker | pipe_t/procpool/procpool.cc:115-119 | likewise a close in a worker's close loop |
| ProcPool.Pool.ReadInWorker | pipe_t/procpool/procpool.cc:78-89 | likewise a worker's read, at whose end of file it exits |
| Numbers.PairsNeverRepeat | pipe_t/procpool/procpool.cc:135-136 | i -> (i mod n, i mod f) repeats no pair within n * f rounds if and only if n and f are coprime |
| ChatRoom.KeyIsInjective | udp_t/chatroom_udp/users.hpp:25 | two endpoints have the same key if and only if they are equal, whatever their address texts are |
| ChatRoom.TagAndText | udp_t/chatroom_udp/users.hpp:44-45 | a broadcast begins with the sender's address and port in brackets, and the rest is the message |
| ChatRoom.TaggedIsInjective | udp_t/chatroom_udp/users.hpp:44-45 | two broadcasts are equal if and only if sender and message are, for addresses without a bracket |
| ChatRoom.PresentStep | udp_t/chatroom_udp/udpServer.cc:17-40 | what one message does to who is present |
| ChatRoom.PresenceIsDecided | udp_t/chatroom_udp/users.hpp:23-39 | after any history an endpoint is in the table, under its own key, if and only if it sent "online" and no "offline" since |
| ChatRoom.OneCopyEach | udp_t/chatroom_udp/users.hpp:41-51 | in whatever order the map is iterated, a broadcast reaches every user in it exactly once and nobody else |
| ChatRoom.Users.Add | udp_t/chatroom_udp/users.hpp:23-27 | adds the endpoint under its key unless the key is taken |
| ChatRoom.Users.Del | udp_t/chatroom_udp/users.hpp:29-33 | removes the endpoint's key |
| ChatRoom.Users.IsOnline | udp_t/chatroom_udp/users.hpp:35-39 | whether the endpoint's key is there |
| ChatRoom.Users.Broadcast | udp_t/chatroom_udp/users.hpp:41-51 | sends the message with the sender's address and port in front once for every entry, in iteration order |
| ChatRoom.ShellServer | udp_t/chatroom_udp/udpServer.cc:17-40 | the answer to a message is decided by the presence of endpoints in the history before it, and the table left is that of the longer history |

## Left out

- Negative capacities of `block_queue`, which turn into huge unsigned numbers in the comparison with the queue's size.
- Wrap-around of the `size_t` counters `_rPos` and `_wPos`: they are unbounded here.
- Errors of the mutex, condition and semaphore calls, which the source ignores, and fairness: liveness is stated for maximal runs.
- Use of the reference that `pop` returns after the thread has posted: the slot is then free for the producers.
- The jsoncpp branches of the codec; the model is that of the `MYSELF` branches.
- Arithmetic overflow in the calculator and exceptions of `stoi`: `Protocol.CalIO` stops and reports false there. Exit codes outside the five are not read back.
- The printing of `eq.out()` and all logging.
- `recver` goes on with its connection after `writer` has closed and deleted it (`reactor_server.hpp:269` and then 247); the model returns.
- `err_IO` has no return after closing (`reactor_server.hpp:237-239`); the model takes it as false.
- The sweep for timeouts erases from the map it iterates over (`reactor_server.hpp:361-368`); Reactor.Server.Sweep goes over a snapshot.
- The read buffer's terminator beyond a full read, and NUL bytes inside the data, which end the appended string.
- Clock readings within one turn of the reactor: handlers and sweep of a turn see the same time.
- Eventual delivery of output: after `EAGAIN` nothing watches for writability.
- `dict_handle`, which overwrites the output buffer.
- Failures of `epoll_ctl` and `fcntl`, and more descriptors than an `fd_set` holds.
- Replies of the select and poll servers: their callbacks and blocking writes do not touch the descriptor tables.
- Everything else that holds descriptors in the server processes: an unused number is one of no open client and not the listener's.
- ShellInPlace.PipeCheck: lines with more than 64 bars, for which the source writes past its array, are excluded.
- ShellInPlace.CommandAnalysis: commands without a word, for which `strcmp` gets a null pointer, and those that do not fit the argument array are excluded.
- The rest of `Pipe_Process` and `Child_Process`: `fork`, `exec`, `dup2` and the opening of files.
- Reading and prompting in the shells' `main`, and `chdir`.
- Failures of `pipe`, `fork`, `write` and `waitpid` in the process pool, and signals.
- What the four task functions print, and the sleeping.
- Datagram loss, truncation and the socket calls of the chat server; the address text is any string.
- `out_block_queue` and `thread_pool`, whose push and pop use different mutexes on one queue.
- The other lesson programs, wrappers and servers of the repository.
