# A verified model of mylib-proactor

mylib-proactor is a TCP library on io_uring: one event loop per thread, coroutines for the
business logic, a buffer ring shared with the kernel for input, a queue of fragments for
output, a timer queue and a cross-thread functor queue. This project models the parts whose
correctness depends on the order in which completions, callbacks and threads happen to act,
and proves what they guarantee in every run.

`dafny verify dfyconfig.toml` checks everything.

## How the model is built

**Connections (receive path, send path, closing).** `Connection.dfy` gives one function per
stretch of code that runs without handing control to the coroutine; a stretch returns the
requests it makes (read, cancel, write, close, callback, destroy), whether it ends by
resuming the coroutine and what is left to run after that, and whether its assertions hold.
`Peer.dfy` adds the coroutine's real position, what the kernel holds for the connection and
the history of the bytes; `ConnectionSystem.dfy` joins any number of connections to one chunk
pool and a kernel that completes requests in any order. A run is any sequence of actions;
`ConnectionTheorems.dfy` reads the results off the invariant of all runs, and `Outcomes.dfy` says
what each completion, send and close leads to, with error codes and marks written out. The objects
themselves are `SendQueue.dfy`, `BufferRing.dfy`, `ChunkPool.dfy`, `InputChainBuffer.dfy` and
`TcpConnection.dfy`: classes whose methods update their fields as the code does and are proved
to do to the object what the function of the same stretch does to its value. `SharedPool.dfy`
puts any number of them on one pool, and `ObjectSystem.dfy` runs them beside the system: the
invariant of the runs discharges the assertions of their methods, and they show every state of
the run. `ReadFailures.dfy`, `WriteFailures.dfy`, `OutputDrain.dfy`
and `ClosedSockets.dfy` deal with what the code does not promise, and exactly when.

**Timers.** `TimerQueue.dfy` (the two indexes), `TimerRuns.dfy` (runs with re-entrant
callbacks, and an allocator that may reuse the address of a destroyed timer),
`TimerTheorems.dfy`, `TimerTicks.dfy` (a whole tick as a function of what its callbacks do),
`TimerAdditions.dfy` (timers that are added, and those that a tick does not concern),
`TimerCancellation.dfy`, and the object in `TimerQueueClass.dfy`, whose methods carry the machine
of `TimerRuns.dfy` along as a ghost field.

**The loop's queues.** `LoopQueue.dfy` interleaves producers, loop thread and kernel step by
step; `Submission.dfy` is the submission queue with its low-water mark.

A fault flag in each machine collects every assertion of the code and every event that must
not happen (a second receive or write of one context, a second cancel of one multishot, a
second close, resuming or destroying a coroutine that is running, finished or gone); the
theorems show that it is never set.

### What is assumed

- A receive completion carries a chunk exactly if its result is positive, and the result is
  then at most the chunk size; a completion without data ends the multishot; nothing follows
  the completion that ends it. A cancel acts when it is submitted.
- A write with a non-negative result has sent exactly that many bytes from the front of its
  batch. The run theorems leave out the error codes that the code treats as transient
  (EAGAIN, ENOBUFS, EINTR); `WriteFailures.TransientExact` says exactly what happens then.
- Coroutines run on the loop thread, use their own connection, and do not call `Destroyed`
  themselves. One that was told of a failed write does not send again before it returns
  control; `WriteFailures.FailedWriteExact` says exactly what happens if it does.
- A pool has 1 to 32768 chunks, a power of two, as the kernel demands of a buffer ring, and a
  submission ring has at least one entry.
- `io_uring_submit` hands over every filled entry. The completion queue does not overflow.

### Where the code is not what it seems

- Comments in src/ReadContext.cc:50-54 and 121-122 say that an exhausted buffer ring (ENOBUFS)
  pauses reading until the user has consumed data. It does so exactly if a cancel had been sent;
  otherwise the code resubmits at once, for ever if need be: `ReadFailures.PauseExact`,
  `RetriesForever`.
- README.md:102 of the repository says that `PrepareToRead` yields a number of readable bytes,
  or a negative value if the connection broke. A sleeping reader is woken with zero bytes by any
  final completion that is neither fatal nor brings data: `ReadFailures.WokenResult`.
- A completion handled after `handleClose` may submit the next receive or write on the closed
  descriptor, and requests made before it still go out: `ClosedSockets.StaleWriteExact`,
  `StaleReadExact`, `IssuedAfterClose`.
- After a transient write error the cursor is not taken back, so the next batch skips bytes
  or trips the assertion in `flush`: `WriteFailures.TransientExact`, `EagainTripsAssertion`.
- A fatal write clears `is_sending_` before it resumes the coroutine; a send from there leaves
  a write in flight without a holder: `WriteFailures.FailedWriteExact`, `SendAgainFaults`.
- `retrieve` leaves empty fragments in place; `max_slices_` of them before a byte stop the
  output for good: `OutputDrain.DrainsExactly`.
- A timer cancelled before it is filed fires all the same: `TimerCancellation.CancelFinalExact`,
  `TimerTheorems.EarlyCancelIsLost`. A timer cancelled by an earlier callback of the same tick
  still runs in that tick: `TimerCancellation.CancelSilencesExact`, `CancelledStillFires`.
- A functor that the loop thread queues before it calls `loop()` does not wake the loop, which
  falls asleep on it unless something else does: `LoopQueues.NeverAsleepExact`.
- With a low-water mark of zero an SQE can be missing, and with a mark at or above the ring
  size waiting requests never leave: `Submissions.MarkExact`, `Submissions.DrainsExactly`.

## Model

| member | source | states |
|---|---|---|
| `ConnectionTheorems.NoFault` | src/ReadContext.cc:80-153 | in every run no assertion of the handlers fails, and no second receive, write, cancel or close and no resumption or destruction of an absent coroutine occurs |
| `ConnectionTheorems.ChunkInOnePlace` | src/ChunkPoolManagerInput.cc:98-124 | in every run with any number of connections each chunk is once in the ring or once in the list (chain, then unreaped completions) of exactly one connection |
| `ConnectionTheorems.ReceiveFidelity` | src/ReadContext.cc:95-106 | bytes received for a connection = bytes its coroutine consumed ++ bytes of its chain ++ bytes of its unreaped completions, in order |
| `ConnectionTheorems.SendIntegrity` | src/WriteContext.cc:80-141 | bytes accepted by the kernel ++ bytes pending = all bytes appended; the batch in flight is a prefix of the pending bytes |
| `ConnectionTheorems.ReadProtocol` | src/TcpConnection.cc:59-64 | at idle points the status is stopped iff no receive is on its way, armed or unreaped, and iff the holder is empty |
| `ConnectionTheorems.HandlesTruthful` | src/TcpConnection.cc:132-237 | at idle points a handle is set iff the coroutine is suspended in that awaiter; a closing connection has none; the task exists iff the coroutine was started and not destroyed |
| `ConnectionTheorems.NoLostWakeup` | src/TcpConnection.cc:143-226 | a sleeping reader has no data and a receive outstanding; a sleeping writer is above high water with a write in flight; open connections with pending output have a write in flight |
| `ConnectionTheorems.Backpressure` | src/ReadContext.cc:108-132 | while reading, both high-water marks are respected and the multishot has not been cancelled; while cancelling it was cancelled once |
| `ConnectionTheorems.CancelOvershoot` | src/ReadContext.cc:108-114 | a cancel is issued only above a mark, by at most one chunk, and only when the context has no receive still to be submitted |
| `ConnectionTheorems.CloseHappensOnce` | src/TcpConnection.cc:7-36 | over any order of fatal completions and `Destroyed` calls the socket is closed once, the callback runs once, the task is destroyed at most once |
| `ConnectionTheorems.ClosedForGood` | src/TcpConnection.cc:7-36 | a closed connection stays closed in every continuation, is closed and reported no second time, and nothing is appended to its output |
| `ConnectionTheorems.FreedUnreferenced` | src/ReadContext.cc:123-127 | a connection that may be freed has no receive or write outstanding, no completion unreaped and no coroutine frame |
| `ConnectionTheorems.ShapeKept` | src/ChunkPoolManagerInput.cc:12-24 | number and size of the chunks never change |
| `Outcomes.SoftEnd` | src/ReadContext.cc:50-69 | in every run, a receive that ends with ENOBUFS, EAGAIN or ECANCELED leaves the connection as open as it was and without an error: cancelled reading stops, other reading is resubmitted, a sleeping reader is woken with 0 |
| `Outcomes.HardEnd` | src/ReadContext.cc:29-48 | in every run, one that ends with 0 or any other code tells the reader -1 and closes the connection, at once or after the woken reader |
| `Outcomes.FatalCloses` | src/ReadContext.cc:134-143 | when the coroutine resumed on a fatal path has returned control, whatever it did, the connection is closed and its frame destroyed |
| `Outcomes.FailedWrite` | src/WriteContext.cc:36-78 | a write that fails with EAGAIN, ENOBUFS or EINTR leaves the connection open and without an error; every other code records the error and closes, at once or after the woken writer |
| `Outcomes.SendExact` | src/TcpConnection.cc:186-226 | a send on an open connection suspends the coroutine iff more than `outHighWater` bytes are then pending; one that goes on leaves at most that many |
| `Outcomes.ClosedAwaits` | src/TcpConnection.cc:132-237 | on a closed connection neither awaiter suspends or changes anything; a receive yields -1 and a send false |
| `Outcomes.WakeExact` | src/WriteContext.cc:132-140 | a write completion wakes a sleeping writer, and tells it of success, iff at most `outHighWater` bytes are left |
| `Outcomes.CancelExact` | include/ReadContext.h:38-39 | a cancel goes out iff data takes the total length above `highWater` or the chunk count above `highWaterChunks` while reading |
| `Outcomes.CloseExact` | src/TcpConnection.cc:7-36 | a first close destroys a sleeping coroutine and leaves one that is done; a second destroys any frame that is left; the destroys are counted once |
| `Outcomes.ClosedCanBeFreed` | src/TcpConnection.cc:32-35 | a connection without outstanding requests can be freed after a close and a `Destroyed`, and its chunks are then back in the ring |
| `ConnectionSystem.RunKeeps` | src/IoUringLoop.cc:192-271 | the system invariant holds after every run that keeps the assumptions |
| `ConnectionSystem.StepKeeps` | src/IoUringLoop.cc:222-262 | every action of loop, coroutines and kernel keeps the system invariant |
| `ConnectionSystem.GiveBackKeeps` | src/ChunkPoolManagerInput.cc:104-124 | chunks given back by one connection join the ring and leave every other connection's list alone |
| `ConnectionSystem.DeliverHolds` | src/ReadContext.cc:95-106 | a filled chunk joins the list of its connection, which then holds all bytes received |
| `ConnectionSystem.OthersUntouched` | src/InputChainBuffer.cc:122-128 | the kernel, writing to a chunk of the ring, overwrites no unread byte of any connection |
| `ConnectionSystem.ReadKeeps` | src/InputChainBuffer.cc:60-119 | consuming any number of bytes keeps the system invariant |
| `Peers.ReapReadKeeps` | src/ReadContext.cc:80-153 | handling any read completion keeps the connection's invariant without a fault and leaves its chunks as they are |
| `Peers.ReapWriteKeeps` | src/WriteContext.cc:80-141 | handling a write completion (short, complete or fatal) keeps it |
| `Peers.CoRecvKeeps` | src/TcpConnection.cc:132-173 | awaiting data on the loop thread keeps it |
| `Peers.CoSendKeeps` | src/TcpConnection.cc:186-226 | awaiting a send on the loop thread keeps it, with or without suspension |
| `Peers.ContinueKeeps` | src/ReadContext.cc:134-143 | the code after `resume()` on the fatal paths keeps it, whatever the coroutine did |
| `Peers.DestroyKeeps` | include/TcpConnection.h:101 | `Destroyed` at any idle point keeps it |
| `Peers.KernelWriteKeeps` | src/WriteContext.cc:24-34 | a kernel that takes any prefix of the batch keeps accepted ++ pending = appended |
| `WriteFailures.FailedWriteExact` | src/WriteContext.cc:100-114 | after a fatal write a write is left in flight without a holder iff the resumed coroutine sent before returning control |
| `WriteFailures.SendAgainFaults` | src/WriteContext.cc:100-114 | a run in which that happens |
| `WriteFailures.DanglingFaults` | src/WriteContext.cc:97 | the completion of such a write fails the handler's assertion |
| `WriteFailures.TransientExact` | src/WriteContext.cc:100-124 | after a transient error the next batch is sound for all contents iff the failed batch carried no bytes, or fragments are left and the next batch carries none |
| `WriteFailures.EagainTripsAssertion` | src/WriteContext.cc:24-34 | a new connection whose coroutine sends one byte and sleeps: EAGAIN for that write trips the assertion in `flush` |
| `WriteFailures.NoSliceLeft` | src/WriteContext.cc:121-124 | so does any transient error when the failed batch held every fragment and some byte |
| `ReadFailures.PauseExact` | src/ReadContext.cc:117-132 | in every idle state a final completion without data and without a fatal error leaves no receive outstanding iff a cancel had been sent; otherwise the next one is asked for at once |
| `ReadFailures.RetriesForever` | src/ReadContext.cc:50-54 | with the ring exhausted, any number of rounds of receive, ENOBUFS and resubmission lead back to the same state: nothing is consumed in between |
| `ReadFailures.ExhaustedReached` | src/ReadContext.cc:128-132 | a run to such a state, the only chunk unread in the chain |
| `ReadFailures.WokenResult` | src/TcpConnection.cc:175-184 | a reader woken by a completion is told -1, the bytes that came, or 0; 0 iff the completion was neither fatal nor brought data |
| `ReadFailures.WokenForNothing` | src/ReadContext.cc:146-152 | every sleeping reader with an armed receive can be woken so |
| `ReadFailures.ReadyResult` | src/TcpConnection.cc:132-141 | a reader that does not sleep is never told 0 |
| `ClosedSockets.StaleWriteExact` | src/WriteContext.cc:115-124 | on a closed connection a write completion submits another write iff it is not fatal and leaves bytes |
| `ClosedSockets.StaleReadExact` | src/ReadContext.cc:117-132 | on a closed connection a read completion submits another receive iff it ends a reading multishot without a fatal result and without passing a mark |
| `ClosedSockets.StaleWriteReached` | src/TcpConnection.cc:7-36 | a run in which a short write is continued on the closed descriptor |
| `ClosedSockets.StaleReadReached` | src/ReadContext.cc:128-132 | a run in which the next receive is submitted on the closed descriptor |
| `ClosedSockets.IssuedAfterClose` | src/TcpConnection.cc:7-36 | a receive or write asked for before the close still goes to the kernel after it |
| `OutputDrain.DrainsExactly` | include/SendQueue.hpp:137-163 | the output empties under every schedule of more completions than bytes iff no run of `maxSlices` empty fragments stands before a byte |
| `OutputDrain.DrainsFromFull` | src/WriteContext.cc:115-130 | from a batch with bytes, an unblocked queue empties within as many completions as it has bytes |
| `OutputDrain.BlockedForever` | include/SendQueue.hpp:148-163 | a blocked queue never empties under any schedule |
| `OutputDrain.EmptyFragmentsBlock` | include/WriteContext.h:29 | for every batch size and every positive output mark: a coroutine that sends that many empty strings and then a byte goes on undisturbed, and the byte never goes out, under any schedule |
| `SendQueues.SkipDropsBytes` | include/SendQueue.hpp:148-163 | removing `len` bytes drops exactly the first `len` bytes of the stream, or all |
| `SendQueues.BatchIsPrefix` | include/SendQueue.hpp:137-146 | a batch taken with the cursor at the head is a prefix of the pending bytes |
| `SendQueues.SendQueue.PushBack` | include/SendQueue.hpp:48-64 | links a fragment at the end; the cursor keeps its position, also when it was null |
| `SendQueues.SendQueue.AppendData` | include/SendQueue.hpp:102-124 | the value grows by the data; the byte count stays exact |
| `SendQueues.SendQueue.PopFront` | include/SendQueue.hpp:66-79 | drops the first fragment; nothing on an empty list |
| `SendQueues.SendQueue.GetOneIovec` | include/SendQueue.hpp:126-134 | hands out the fragment at the cursor and advances it |
| `SendQueues.SendQueue.GetBatchFragment` | include/SendQueue.hpp:137-146 | hands out at most `max` fragments from the cursor on and moves it behind them |
| `SendQueues.SendQueue.Retrieve` | include/SendQueue.hpp:148-163 | removes the bytes, sets the cursor to the head and keeps the byte count exact |
| `BufferRings.PowerTest` | src/ChunkPoolManagerInput.cc:29-32 | the constructor's bit test, in unsigned arithmetic, accepts exactly zero and the powers of two |
| `BufferRings.MaskIsMod` | src/ChunkPoolManagerInput.cc:50 | the mask picks the position modulo the ring size |
| `BufferRings.TailSlot` | src/ChunkPoolManagerInput.cc:108-115 | the slot picked from the wrapped 16-bit tail is that of the unbounded position |
| `BufferRings.SlotsDiffer` | src/ChunkPoolManagerInput.cc:108-115 | positions less than a turn apart never share a slot |
| `BufferRings.BufferRing.Add` | src/ChunkPoolManagerInput.cc:72-79 | writing an entry overwrites no entry that is published and not taken |
| `BufferRings.BufferRing.Advance` | src/ChunkPoolManagerInput.cc:82 | publishing appends exactly the written entries to the FIFO |
| `BufferRings.BufferRing.Take` | src/ChunkPoolManagerInput.cc:70-82 | the kernel takes entries in FIFO order |
| `ChunkPools.ChunkPool.constructor` | src/ChunkPoolManagerInput.cc:12-83 | every chunk is published once, in order |
| `ChunkPools.ChunkPool.WriteAll` | src/ChunkPoolManagerInput.cc:70-80 | the fill loop writes each chunk's number into its own slot |
| `ChunkPools.ChunkPool.FillRing` | src/ChunkPoolManagerInput.cc:70-82 | the fill publishes all chunks with one advance |
| `ChunkPools.ChunkPool.ReturnOneChunk` | src/ChunkPoolManagerInput.cc:104-124 | resets the chunk, publishes it behind all others, leaves `count_` zero and the pool's invariant intact |
| `ChunkPools.ChunkPool.Deliver` | src/ReadContext.cc:98-106 | the kernel writes only to a published chunk, which is in no buffer and was reset |
| `ChunkPools.RingPush` | src/ChunkPoolManagerInput.cc:104-124 | since no chunk is published twice there is always room for one that comes back |
| `ChunkPools.Pigeonhole` | src/ChunkPoolManagerInput.cc:104-124 | at most N entries are ever published |
| `InputBuffers.InputChainBuffer.constructor` | src/InputChainBuffer.cc:43-49 | an empty chain |
| `InputBuffers.InputChainBuffer.PushBack` | src/InputChainBuffer.cc:5-22 | links the chunk behind the tail |
| `InputBuffers.InputChainBuffer.Append` | src/InputChainBuffer.cc:122-128 | the chain grows by the filled chunk; list, offsets, counts and ownership stay right; other buffers untouched |
| `InputBuffers.InputChainBuffer.PopFront` | src/InputChainBuffer.cc:24-41 | drops the first chunk and returns it to the ring; false on an empty chain |
| `InputBuffers.InputChainBuffer.Remove` | src/InputChainBuffer.cc:60-84 | hands out exactly the first min(len, total) bytes, which with the bytes left are the bytes before; exhausted chunks return in order; other buffers untouched |
| `InputBuffers.InputChainBuffer.Retrieve` | src/InputChainBuffer.cc:105-119 | the same without the copy |
| `InputBuffers.InputChainBuffer.Peek` | src/InputChainBuffer.cc:99-103 | a prefix of the unread bytes, empty only if there are none |
| `InputBuffers.InputChainBuffer.Dispose` | src/InputChainBuffer.cc:51-58 | every chunk goes back to the ring, in order |
| `InputBuffers.OtherBufferKept` | src/InputChainBuffer.cc:5-41 | whatever one buffer does, another on the same pool keeps list, offsets and bytes |
| `InputBuffers.ThreadAppend` | src/InputChainBuffer.cc:5-22 | after linking, the list is in order and acyclic with the chunk at its end |
| `InputBuffers.ThreadPop` | src/InputChainBuffer.cc:24-41 | after unlinking and resetting the first chunk the rest is a list as before |
| `InputBuffers.AccountBytes` | src/InputChainBuffer.cc:60-119 | bytes consumed ++ bytes left = bytes before, and the byte count matches |
| `TcpConnections.TcpConnection.constructor` | src/TcpConnection.cc:71-93 | a new connection on the given pool with buffers of its own: nothing queued, nothing outstanding |
| `TcpConnections.TcpConnection.Close` | src/TcpConnection.cc:7-36 | the first call closes, reports and clears both handles; a task is destroyed by the first call iff a handle was set, and by any later call |
| `TcpConnections.TcpConnection.HandleReadError` | src/ReadContext.cc:29-78 | fatal, and recorded, are end of stream and every code but ENOBUFS, EAGAIN and ECANCELED |
| `TcpConnections.TcpConnection.TakeCompletion` | src/ReadContext.cc:89-115 | takes data or error, asks for a cancel above a mark; chunks of other buffers and the bytes of all chunks untouched |
| `TcpConnections.TcpConnection.OnReadCompletion` | src/ReadContext.cc:80-153 | the whole handler up to the resumption, with its requests, against `OnRead`; chunks of other buffers and the bytes of all chunks untouched |
| `TcpConnections.TcpConnection.EndMultishot` | src/ReadContext.cc:117-152 | the rest of it when the multishot is over: stop, read on or fail |
| `TcpConnections.TcpConnection.AfterFatalRead` | src/ReadContext.cc:139-142 | the code after the resumption on a fatal read |
| `TcpConnections.TcpConnection.FlushOutput` | src/WriteContext.cc:24-34 | rebuilds the batch from the cursor on |
| `TcpConnections.TcpConnection.SendNow` | src/TcpConnection.cc:38-52 | appends and starts a write if none is in flight |
| `TcpConnections.TcpConnection.HandleWriteError` | src/WriteContext.cc:36-78 | fatal, and recorded, is every code but EAGAIN, ENOBUFS and EINTR |
| `TcpConnections.TcpConnection.FailWrite` | src/WriteContext.cc:100-114 | the fatal branch of the write completion |
| `TcpConnections.TcpConnection.AfterFatalWrite` | src/WriteContext.cc:109-112 | the code after the resumption on a fatal write |
| `TcpConnections.TcpConnection.ContinueSending` | src/WriteContext.cc:120-140 | sends what is left, wakes a waiting writer below the mark |
| `TcpConnections.TcpConnection.OnWriteCompletion` | src/WriteContext.cc:80-141 | the whole handler up to the resumption, with its requests, against `OnWrite` |
| `TcpConnections.TcpConnection.ReadBytes` | src/TcpConnection.cc:110-113 | the bytes handed out and those left are the unread bytes before the call, in order; nothing else of the connection changes, exhausted chunks return in order, other buffers and the bytes of all chunks are untouched |
| `TcpConnections.TcpConnection.AwaitSend` | src/TcpConnection.cc:186-226 | sends, and stores the handle iff more than `outHighWater` bytes are then queued |
| `TcpConnections.TcpConnection.IsRecvReady` | src/TcpConnection.cc:132-141 | no suspension iff closing or data is there |
| `TcpConnections.TcpConnection.SuspendInRecv` | src/TcpConnection.cc:162-172 | stores the handle, submits a receive iff none is out |
| `SharedPools.Act` | src/IoUringLoop.cc:222-262 | of any set of connections on one pool one handles an event: all stay valid, it does and asks for what its value functions say, its unread bytes grow by what a completion brings and lose from the front what is read, the others keep their state and bytes |
| `SharedPools.Fill` | src/ReadContext.cc:98-106 | the kernel fills the chunk at the front of the ring with the payload: every connection keeps its state and bytes, and the completion fits any of them |
| `SharedPools.Receive` | src/ReadContext.cc:95-106 | from delivery to the end of the handler: the connection's unread bytes are those before and then the payload |
| `SharedPools.Join` | src/TcpConnection.cc:71-93 | a new connection joins the set |
| `SharedPools.Leave` | src/InputChainBuffer.cc:51-58 | a destroyed connection gives its chunks back in order; the others keep their state and bytes |
| `ObjectSystem.UnreapedTaken` | src/ReadContext.cc:98-106 | in a state of any run that the objects show, the chunk of an unreaped completion is neither in the ring nor in any chain and is large enough |
| `ObjectSystem.StepFits` | src/ReadContext.cc:83-87 | the invariant of the runs discharges every assertion of the objects' methods |
| `ObjectSystem.Follow` | src/IoUringLoop.cc:222-262 | at every step that acts on a connection the object does it without a failing assertion, makes the same requests, and the objects show the next state of the run |
| `ObjectSystem.FollowData` | src/ReadContext.cc:98-106 | the same for a delivery by the kernel |
| `ObjectSystem.FollowAccept` | src/TcpConnection.cc:71-93 | the same for a new connection |
| `ObjectSystem.FollowFree` | src/InputChainBuffer.cc:51-58 | the same for one that is freed |
| `ObjectSystem.FollowSilent` | src/TcpConnection.cc:132-141 | the steps that touch no object leave them showing the next state |
| `ObjectSystem.EveryStep` | src/IoUringLoop.cc:192-271 | there are no other steps |
| `ObjectSystem.Boot` | src/ChunkPoolManagerInput.cc:12-83 | a new pool shows the state in which every run begins |
| `TimerTheorems.IndexesAgree` | src/TimerQueue.cc:104-184 | in every run list and set are in bijection under the timers' own keys, and no assertion fails |
| `TimerTheorems.OneShotOnce` | src/TimerQueue.cc:75-142 | in every run a one-shot timer fires at most once |
| `TimerTheorems.BatchExact` | src/TimerQueue.cc:104-124 | a batch is exactly the filed timers with expiration at most now, in (expiration, sequence) order |
| `TimerTheorems.TickFiresBatch` | src/TimerQueue.cc:84-96 | whatever callbacks add or cancel, a tick fires exactly its batch, once each, in order |
| `TimerTheorems.RearmExact` | src/TimerQueue.cc:126-142 | a timer of the batch goes back iff it repeats and was not cancelled, at now + interval; no other is touched |
| `TimerTheorems.CancelIsFinal` | src/TimerQueue.cc:59-73 | once the id of a filed timer or one in the batch is handled, no later tick of any continuation fires it |
| `TimerTheorems.StaleCancelUnnoticed` | src/TimerQueue.cc:168-184 | after cancelling a stale id, even one whose address was reused, every continuation fires the same timers in the same ticks and leaves the same ones filed as without it |
| `TimerTheorems.StaleCancelHarmless` | src/TimerQueue.cc:59-73 | that step itself changes no timer, neither index, and not which timers of the batch re-arm |
| `TimerTheorems.EarlyCancelIsLost` | src/TimerQueue.cc:35-49 | a run in which a cancellation overtakes the filing and the timer fires |
| `TimerCancellation.CancelFinalExact` | src/TimerQueue.cc:59-73 | cancelling a live timer keeps it from every later tick of every run iff it was filed or in the batch at that moment |
| `TimerCancellation.CancelSilencesExact` | src/TimerQueue.cc:91-95 | cancelling a timer that is filed or in the batch keeps it from ever firing again, in every run, iff its callback is not still to come in the current tick |
| `TimerCancellation.CancelledStillFires` | src/TimerQueue.cc:91-95 | a run in which the callback of one timer cancels the next, which fires all the same |
| `TimerCancellation.FiledFires` | src/TimerQueue.cc:75-102 | a filed timer can be brought to fire by a tick at its expiration |
| `TimerRuns.RunKeeps` | src/TimerQueue.cc:51-184 | the invariant of the queue holds after every run |
| `TimerQueues.SizesAgree` | src/TimerQueue.cc:62 | the bijection implies the size assertion made throughout |
| `TimerQueues.InsertAgrees` | src/TimerQueue.cc:144-166 | inserting a timer that is not filed overwrites nothing and keeps the bijection |
| `TimerQueues.EraseAgrees` | src/TimerQueue.cc:168-184 | erasing a pair removes exactly its timer from both indexes |
| `TimerQueues.BeginAgrees` | src/TimerQueue.cc:104-124 | taking the expired front off the list takes the same timers out of the set |
| `TimerQueues.ResetAgrees` | src/Timer.cc:3-13 | restarting and re-inserting keeps the bijection |
| `TimerTicks.TickExact` | src/TimerQueue.cc:75-102 | for every script of callbacks, a timer of the batch is back at now + interval after the tick iff it repeats and no callback of the script cancels its id, and otherwise gone; the firings are the batch in order |
| `TimerTicks.CallsDead` | src/TimerQueue.cc:59-73 | of the timers in the batch exactly those whose id a callback cancels count as cancelled |
| `TimerTicks.ResetsExact` | src/TimerQueue.cc:126-142 | n turns of `reset` deal with the first n timers of the batch and touch no other |
| `TimerAdditions.FileExact` | src/TimerQueue.cc:51-57 | filing lists the timer with the expiration it was created with, at rest and inside a callback alike, and touches no other |
| `TimerAdditions.AddExact` | src/TimerQueue.cc:35-57 | a timer that is added is listed to expire first at the time that was asked, under the next sequence number |
| `TimerAdditions.AddedDue` | include/Timer.h:20-26 | a timer added at rest is in the batch of the next tick iff the time that was asked has come |
| `TimerAdditions.TickAdds` | src/TimerQueue.cc:75-102 | a timer that a callback adds and no later operation of the tick cancels is filed after the tick at the time that was asked |
| `TimerAdditions.TickSpares` | src/TimerQueue.cc:75-102 | a filed timer that has not expired and that no callback cancels is filed and unchanged after the tick |
| `TimerQueueObjects.TimerQueue.CreateTimer` | include/Timer.h:20-26 | takes the next sequence number; the timer expires first at the time that was passed |
| `TimerQueueObjects.TimerQueue.InsertTimer` | src/TimerQueue.cc:144-166 | files the timer in both indexes; tells whether it expires before every timer filed |
| `TimerQueueObjects.TimerQueue.AddTimerInLoop` | src/TimerQueue.cc:51-57 | files the timer as it was created, at rest and while callbacks run; the object follows the run of the machine |
| `TimerQueueObjects.TimerQueue.EraseTimer` | src/TimerQueue.cc:168-184 | removes the pair and its timer, or reports that it is not there |
| `TimerQueueObjects.TimerQueue.CancelTimerInLoop` | src/TimerQueue.cc:59-73 | the object follows the run of the machine |
| `TimerQueueObjects.TimerQueue.GetExpiredTimers` | src/TimerQueue.cc:104-124 | the loop removes exactly the expired timers from both indexes and returns them in order |
| `TimerQueueObjects.TimerQueue.RunBatch` | src/TimerQueue.cc:91-95 | the callback loop takes the machine exactly through the callbacks and the additions and cancellations of the script |
| `TimerQueueObjects.TimerQueue.ResetTimers` | src/TimerQueue.cc:126-142 | each timer of the batch is re-armed or gone, exactly as it repeats and was not cancelled; every other timer is as it was and filed if it was |
| `TimerQueueObjects.TimerQueue.HandleRead` | src/TimerQueue.cc:75-102 | a tick is exactly the run of its script; it fires the expired timers in order and re-arms exactly the repeating ones that no callback of the script cancelled; nothing happens if none has expired |
| `LoopQueues.FifoOnce` | src/IoUringLoop.cc:400-417 | executed ++ rest of the batch ++ pending = enqueue order in every interleaving |
| `LoopQueues.OneReadOutstanding` | src/IoUringLoop.cc:436-452 | from the start of the loop exactly one eventfd read is to be submitted, in the kernel or unhandled |
| `LoopQueues.NoSleepOnWork` | src/IoUringLoop.cc:192-271 | whenever the loop blocks with functors pending there is a token, an unhandled wake completion or a producer about to wake, except in the first iteration after an early enqueue on the loop thread |
| `LoopQueues.WakeIsComing` | src/IoUringLoop.cc:194-219 | such a wait ends without a time-out: a completion is there or the kernel can post one |
| `LoopQueues.PeekExact` | src/IoUringLoop.cc:194-219 | a peek hands out all completions that fit into `cqes_`; the loop blocks iff there are none; the advance removes exactly those handed out |
| `LoopQueues.DoneWithinATurn` | src/IoUringLoop.cc:400-417 | everything queued before the swap of a turn has run when the turn ends, the rest when the next one does |
| `LoopQueues.NeverAsleepExact` | src/IoUringLoop.cc:299-314 | whatever any thread did before `loop()`, no run from there sleeps on work iff the loop does not start with work queued, nothing on its way to wake it and no completion to see; only the loop thread's own enqueue can leave it so |
| `LoopQueues.EarlyFalls` | src/IoUringLoop.cc:192-203 | from such a start the loop falls asleep at its first wait |
| `LoopQueues.EarlyUnheeded` | src/IoUringLoop.cc:305-313 | one functor queued by the loop thread before `loop()` leads there, since its push leaves no token |
| `LoopQueues.RunKeeps` | src/IoUringLoop.cc:181-325 | the invariant of the queue holds after every interleaving |
| `Submissions.Conservation` | src/IoUringLoop.cc:327-364 | with a positive mark every request is issued once or waits once, those that waited leave in order, and no SQE is missing |
| `Submissions.RequestExact` | src/IoUringLoop.cc:327-364 | a request waits iff fewer entries than the mark are free, and is otherwise issued at once and takes one entry |
| `Submissions.ReserveKept` | src/IoUringLoop.cc:327-364 | requests, cancels, drains and submissions in any order never leave fewer than min(entries, mark - 1) entries free |
| `Submissions.ReserveShrinks` | src/IoUringLoop.cc:436-452 | in every run each read of the eventfd takes at most one entry of that reserve |
| `Submissions.DrainExact` | src/IoUringLoop.cc:40-72 | a drain issues exactly the first min(queue length, 100, max(0, space - mark)) waiting requests |
| `Submissions.ForcedExact` | src/IoUringLoop.cc:366-378 | a forced request takes an entry at any fill; a cancel leaves the ring empty |
| `Submissions.MarkExact` | src/IoUringLoop.cc:86-90 | no run misses an SQE iff the mark is positive |
| `Submissions.DrainsExactly` | src/IoUringLoop.cc:45-47 | a waiting queue can be emptied iff the mark is below the ring size |
| `Submissions.TurnsDrain` | src/IoUringLoop.cc:40-72 | n iterations without new requests issue the first n * min(100, entries - mark) waiting requests |
| `Submissions.NeverDrained` | src/IoUringLoop.cc:45-47 | with the mark at or above the ring size no waiting request is ever issued |
| `Submissions.SubmissionQueue.GetSqe` | src/IoUringLoop.cc:419-434 | null iff no entry is free and, if forced, the ring has none at all |
| `Submissions.SubmissionQueue.SubmitRequest` | src/IoUringLoop.cc:327-338 | with fewer free entries than the mark the request joins the waiting queue and no entry is taken; otherwise it is issued and takes one |
| `Submissions.SubmissionQueue.CancelRequest` | src/IoUringLoop.cc:366-378 | takes an SQE at any fill and submits everything |
| `Submissions.SubmissionQueue.DrainWaiting` | src/IoUringLoop.cc:40-72 | the loop issues exactly min(queue length, 100, max(0, space - mark)) requests from the front |

## Left out

- Coroutines on other threads (the off-loop branches of the awaiters) and the thread pool: the order of destruction and execution is not enforced there, so no such theorem holds.
- Memory management: pointers are positions in an array of nodes or chunks, deleted `TxFragment`s are not given back, `shared_ptr` is a flag, and nothing is claimed about the lifetime of objects after `holder_.reset()` or about reuse of file descriptors.
- The waiting queue and the submission queue appear in the connection system as one place from which a request goes to the kernel at any time; `Submission.dfy` treats them on their own.
- The `Destroyed` calls that `await_resume` queues are covered by allowing `Destroyed` at any idle point.
- The functor queue is a machine of steps and not an object, because other threads act between any two steps of the loop.
- Counters (`chunks_`, `total_len_`, timer sequence numbers) are unbounded; only the 16-bit ring tail and the eventfd counter are given their width. The kernel's position in the buffer ring is kept unbounded.
- Quitting the loop, and what holds after it; behaviour after a failed assertion.
- The wait period (`getTimeOutPeriod`, `howMuchTimeFromNow`): a minimum of two times, easy.
- Clocks and floating-point seconds: the current time is a parameter and intervals are whole microseconds.
- Fairness between requests that are submitted at once and those that wait: the code has none.
- Accepting connections, `TcpServer`, the loop thread pool, sockets, addresses, logging, time stamps and the `Task` template: foreign calls or simpler repeats.
- mmap, huge pages and registration of the ring: represented only by the kernel's contract.
