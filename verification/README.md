# go-reactor, verified

A Dafny model of the parts of go-reactor that carry state across calls, and proofs of
what holds of them on every input, in every run and in every interleaving. `dafny verify
dfyconfig.toml` checks all of it.

| file | models |
|---|---|
| `TimerHeap`, `TimerExpiry`, `TimerQueue` | the timer queue: the binary heap, `getExpired`, the queue object |
| `TimerFd`, `TimerCancel`, `TimerCallbacks`, `TimerRuns` | the timerfd, cancelling, the callbacks of one poll, whole runs |
| `AsyncLog`, `Cond` | the asynchronous logger and its condition variable |
| `EventLoop` | `RunInLoop`, the functor queue and the eventfd wake-up |
| `NetBuffer` | the byte buffer |
| `Connection`, `ConnectionStreams`, `ConnectionShutdown` | one TCP connection, its two byte streams, write interest and SHUT_WR |
| `Poller` | the poller with all connections of a loop |
| `Chess`, `ChessRules`, `ChessGame`, `ChessSymmetry` | the rules of Chinese chess, kind by kind, and what holds of every game |
| `MatchServer`, `MatchReports` | the chess match server, and what its clients are told |
| `Framing`, `ServerInput` | its packet framing, and how it takes packets out of the input buffer |
| `Bytes` | bytes and concatenation |

How the model is built. Sequential objects are classes whose fields the methods update;
each method is proved equal to a function on the object's value (`View()`), and the
properties are lemmas about those functions. Concurrent code is a state machine whose steps
are the critical sections, system calls and functor calls; a run is any sequence of enabled
steps. Clock readings, bytes from the kernel, write results and the order in which Go ranges
over a map are parameters. A panic or a nil dereference is an outcome (`Panic`, `Crash`,
`ok == false`), not a precondition.

Where the code does not do what its comments promise, the model follows the code:

- `Append` copies to `writeIndex` of the grown slice (pkg/buffer/buffer.go:57), so bytes are
  lost after a partial retrieve. `AppendFifoIff` gives the exact condition, `GrowthCanCorrupt`
  and `GrowthBreaksStream` concrete inputs.
- The chess server retrieves frame by frame, which is what makes that defect show: a long packet
  behind a short one is corrupted (`LaterLongFrameIff`, `SecondPacketCorrupted`). And as nothing
  but a spill moves bytes down, a connection that has read exactly 8192 bytes is closed at its
  next read event, whatever the peer sends (pkg/buffer/buffer.go:66-69, tcp_conn.go:174-177):
  `ReadClosesIff`, `FullSliceCloses`, `LongFrameIsCutOff`. `MessagesIntactIff` says exactly when
  nothing that came is lost.
- Its `OnMessage` takes one packet per read event (examples/chinese_chess/backend/game_handler/handler.go:96-106),
  so a packet that came together with another one stays unhandled until more bytes come:
  `SecondFrameWaits`. `TakenIff` gives the number of packets handled, `EveryPacketTakenIff` exactly
  when it is all that came.
- A failed write passes -1 to `Retrieve` (tcp_conn.go:181-182): the last byte sent is sent again,
  or the read index becomes -1 (`FailedWrite`, `ByteSentTwice`, `FirstWriteFails`). `StreamsIntactIff` says exactly when both streams
  of a connection survive.
- `CancelTimer` does not restore heap order (pkg/event_loop/timer_queue.go:151-163).
  `CancelKeepsOrderIff` says exactly when order survives; `CancelCanHideDueTimer` shows a due
  timer that is not collected.
- The callbacks of a poll run after everything was collected
  (pkg/event_loop/timer_queue.go:99-101), so a timer for which `CancelTimer` answered true in one
  of them may still be called: `StaleCallbackIff`, `CancelledCallbackRuns`.
- `getExpired` can disarm the timerfd while timers are pending (pkg/event_loop/timer_queue.go:190-197):
  `ArmedAfterPoll`, `PollCanDisarm`. With a negative interval it never returns:
  `EndsExactlyWhenSettles`, `AddedTimerCanHang`.
- The read callback of the timerfd panics on EAGAIN (pkg/event_loop/timer_queue.go:94-97), and
  an AddTimer by an earlier handler of the same poll takes the expiry back: `ReadPanicsIff`,
  `CancelledExpiryPanics`.
- `Loop` calls `doOnStop` without the nil test it gives `doOnLoop` (pkg/event_loop/evloop.go:227,
  201), and a new loop has none, so by default every `Stop` ends in a panic: `EventLoop.PanicIff`,
  `DefaultNeverExits`, `StopEndsLoop`. So does calling `Loop` while it runs: `SecondLoopPanics`.
- The eventfd write is 2^56, not 1, and a second write does not fail, as a comment at
  pkg/event_loop/evloop.go:302-303 says; the 256th does (`WakeValue`, `WriteFailsIff`).
- A write-complete callback that sends and then shuts down makes `handleWrite` issue SHUT_WR
  with bytes pending (tcp_conn.go:187-190): `EarlyShutdownIff`, `EarlyShutdownRun`. A high-water
  callback that shuts down does the same to `Send`, and one that closes makes it panic
  (tcp_conn.go:116-122): `HighWaterShutsIff`, `HighWaterShutsRun`, `HighWaterPanicIff`,
  `HighWaterPanics`.
- A read event of a connection that an earlier event of the same poll closed panics
  (tcp_conn.go:195-198): `StaleReadIff`, `StaleReadsPanic`.
- An event with both bits runs the write callback also after the read callback closed the connection
  (pkg/event_loop/channel.go:129-143), which is one more failed write: `EventIsTwoSteps`.
- A length within four of 2^32 makes the packet decoder panic
  (examples/chinese_chess/backend/tools/packet.go:39-45): `ReadCrashesIff`, `FourBytesCrash`.
- `DoMove` dereferences nil for a cannon that jumps to an empty point
  (examples/chinese_chess/backend/tools/chess.go:149), already possible as the first move, and
  four kinds of piece may capture their own side, the general included: `CrashIff`,
  `OpeningCannonCrashes`, `OwnCaptureIff`, `AdvisorTakesOwnGeneral`. The cannon may capture over more
  than one piece, with which Red can win on its second move: `CannonCaptureIff`, `CannonJumpsTwo`,
  `SecondMoveWins`.
- The match server dereferences nil on a match request outside the idle state and on a move
  outside a game: `MatchServer.PanicIff`, `ClientsCanCrashServer`. Only the peer of the mover is
  told that a game ended, and the mover is reported as winner even if it took its own general:
  `MoverIsReported`, `SelfDefeatIsReportedAsWin`.

## Model

| member | source | states |
|---|---|---|
| TimerHeap.SiftUp | pkg/event_loop/timer_queue.go:108-116 | container/heap `up`, called by heap.Push: any array keeps exactly its entries |
| TimerHeap.SiftDown | pkg/event_loop/timer_queue.go:174-178 | container/heap `down`, called by heap.Pop: any array keeps its entries, and slots from n on stay |
| TimerHeap.SiftUpOrders | pkg/event_loop/timer_queue.go:35-49 | an array ordered but for slot j is a heap after `up` |
| TimerHeap.SiftDownOrders | pkg/event_loop/timer_queue.go:35-57 | an array ordered but below slot i is a heap after `down` |
| TimerHeap.Push | pkg/event_loop/timer_queue.go:47-49 | the entries are the old ones and the new one, heap or not |
| TimerHeap.Pop | pkg/event_loop/timer_queue.go:51-57 | exactly the root leaves, heap or not |
| TimerHeap.PushOrders | pkg/event_loop/timer_queue.go:108-116 | Push keeps heap order under `Less` |
| TimerHeap.PopOrders | pkg/event_loop/timer_queue.go:174-178 | Pop keeps heap order under `Less` |
| TimerHeap.RootIsMinimum | pkg/event_loop/timer_queue.go:35-41 | the root of a heap has the least instant of all pending timers and, among equal instants, the least id |
| TimerExpiry.RoundLowersLateness | pkg/event_loop/timer_queue.go:169-186 | the termination measure: each round lowers the total lateness |
| TimerExpiry.CollectExact | pkg/event_loop/timer_queue.go:165-187 | on an ordered queue the poll returns, by instant and among equal instants by id, exactly the instants before now, leaves each periodic timer at its first instant not before now, drops fired one-shots, keeps order |
| TimerExpiry.PollTwice | pkg/event_loop/timer_queue.go:165-187 | polling at two times collects the same sequence and leaves the same array as polling once at the later time, heap or not |
| TimerExpiry.EndsExactlyWhenSettles | pkg/event_loop/timer_queue.go:169-186 | on an ordered queue the loop ends if and only if no due timer has a negative interval |
| TimerExpiry.UpToIsCollect | pkg/event_loop/timer_queue.go:169-186 | iterations enough to end the loop are all of Collect |
| TimerQueue.ToTimespec | pkg/event_loop/timer_queue.go:131-138 | the seconds and nanoseconds add up to the delay, and are all zero exactly for delay 0 |
| TimerQueue.TimerQueue.Up | pkg/event_loop/timer_queue.go:108-116 | the loop of container/heap `up` computes SiftUp |
| TimerQueue.TimerQueue.Down | pkg/event_loop/timer_queue.go:174-178 | the loop of container/heap `down` computes SiftDown |
| TimerQueue.TimerQueue.HeapPush | pkg/event_loop/timer_queue.go:47-49 | heap.Push computes Push |
| TimerQueue.TimerQueue.HeapPop | pkg/event_loop/timer_queue.go:51-57 | heap.Pop computes Pop and returns the root |
| TimerQueue.TimerQueue.AddTimer | pkg/event_loop/timer_queue.go:108-147 | fresh id, pushed entry, timerfd armed for the root with a floor of 1 ns |
| TimerQueue.TimerQueue.CancelTimer | pkg/event_loop/timer_queue.go:151-163 | filters by id in array order and returns true exactly for a live id |
| TimerQueue.TimerQueue.CollectRoot | pkg/event_loop/timer_queue.go:174-182 | one iteration of the collecting loop computes Round |
| TimerQueue.TimerQueue.GetExpired | pkg/event_loop/timer_queue.go:166-215 | whenever the loop ends at all, the method collects what the loop collects and arms the timerfd from the second clock reading; without negative intervals that is Collect |
| TimerQueue.TimerQueue.Arm | pkg/event_loop/timer_queue.go:188-213 | the value handed to timerfd_settime |
| TimerQueue.AddedTimerCanHang | pkg/event_loop/timer_queue.go:169-186 | a timer added with a negative interval, once due, keeps the loop going for ever |
| TimerFd.ArmedAfterAdd | pkg/event_loop/timer_queue.go:118-144 | after AddTimer the timerfd is armed: 1 ns from now when some pending instant has come, and otherwise exactly for the first one |
| TimerFd.ArmedAfterPoll | pkg/event_loop/timer_queue.go:188-213 | getExpired leaves nothing exactly if every timer is a due one-shot; otherwise the timerfd is armed if and only if the second clock reading precedes the next instant of every timer in the queue, and expires at the first of these |
| TimerFd.PollCanDisarm | pkg/event_loop/timer_queue.go:188-213 | an added timer and a poll that leaves it pending with a disarmed timerfd |
| TimerFd.ReadPanicsIff | pkg/event_loop/timer_queue.go:93-97 | after an AddTimer by an earlier handler of the same poll the read of the timerfd panics if and only if no timer is due by then, or no time has passed |
| TimerFd.CancelledExpiryPanics | pkg/event_loop/timer_queue.go:93-97 | a timer added and cancelled, and a poll at which that happens |
| TimerCancel.CancelKeepsOrderIff | pkg/event_loop/timer_queue.go:151-163 | cancelling slot p keeps heap order if and only if the odd slots up to 2p + 1 and the even ones from 2p + 2 on are at least the neighbour of their parent that takes its place |
| TimerCancel.CancelFitsIff | pkg/event_loop/timer_queue.go:151-163 | the same for an id, live or not |
| TimerCancel.CancelCanLoseOrder | pkg/event_loop/timer_queue.go:151-163 | timers added for 1, 5 and 2, minus the first, are no heap |
| TimerCancel.CancelCanHideDueTimer | pkg/event_loop/timer_queue.go:165-187 | a poll then misses a due timer |
| TimerCallbacks.StaleCallbackIff | pkg/event_loop/timer_queue.go:99-101 | a timer cancelled with answer true by a callback is called later in the batch if and only if it is periodic and has another instant before now behind that callback's |
| TimerCallbacks.CancelledCallbackRuns | pkg/event_loop/timer_queue.go:99-101 | a lone periodic timer late by more than its interval that cancels itself is called again |
| TimerCallbacks.CancelledAfterBatch | pkg/event_loop/timer_queue.go:99-101 | once a callback of the batch cancelled a timer, it is gone when the batch is done |
| TimerCallbacks.ActAdds | pkg/event_loop/timer_queue.go:99-116 | a timer a callback adds is pending under a new id |
| TimerRuns.LiveExactly | pkg/event_loop/timer_queue.go:108-187 | in every run, ordered or not, the live ids are those issued, not cancelled, and not fired one-shots |
| TimerRuns.FiringsExact | pkg/event_loop/timer_queue.go:165-187 | in every run, ordered or not, an id fires at its first instants in order, none skipped or repeated, and never early |
| TimerRuns.CancelledStaysSilent | pkg/event_loop/timer_queue.go:151-187 | in every continuation of a run, an id cancelled while live is never collected again |
| TimerRuns.RunKeepsOrder | pkg/event_loop/timer_queue.go:108-187 | a run is heap ordered after each operation if and only if each cancel in it meets the condition of CancelKeepsOrderIff or names a dead id |
| TimerRuns.RootIsNext | pkg/event_loop/timer_queue.go:35-41 | in such runs the root has the least instant and, among equal instants, the least id of all pending timers, and ids are distinct |
| TimerRuns.PollMissesNothing | pkg/event_loop/timer_queue.go:165-187 | in such runs a poll leaves no instant before now uncollected |
| AsyncLog.RotatedIsEmpty | pkg/async_log/log.go:134-141 | the buffer rotated in is empty, so the second Append of Logf succeeds |
| AsyncLog.LogfValid | pkg/async_log/log.go:113-144 | Logf keeps ownership, emptiness of spares, density and signalling |
| AsyncLog.FlushValid | pkg/async_log/log.go:82-109 | every atomic step of the flusher keeps them |
| AsyncLog.LogfStream | pkg/async_log/log.go:128-143 | Logf adds exactly the accepted record to the end of the stream |
| AsyncLog.FlushStream | pkg/async_log/log.go:83-108 | no flusher step changes the stream |
| AsyncLog.RecordFits | pkg/async_log/log.go:128-132 | a record that fits goes behind what is in the current buffer, and nothing else happens |
| AsyncLog.RecordRotates | pkg/async_log/log.go:132-143 | one that does not fit goes alone into the spare buffer returned last or a new one, the current buffer joins the full ones, and the flusher is woken |
| AsyncLog.WaitsIff | pkg/async_log/log.go:84-87 | the flusher waits exactly if it finds the current buffer empty, on the channel the next broadcast closes |
| AsyncLog.TakesEverything | pkg/async_log/log.go:88-99 | otherwise and after a wait it takes the full buffers and the current one unless empty, and wakes nobody |
| AsyncLog.WritesInOrder | pkg/async_log/log.go:101-107 | it writes its batch in order and gives it back behind the spare buffers, and touches nothing the producers use |
| AsyncLog.EveryRunSound | pkg/async_log/log.go:58-144 | across every interleaving, file, batch, full buffers and current buffer are the accepted records in lock order; each buffer ever made is in exactly one place; the number of buffers is the maximum of the initial number and the peak in use |
| AsyncLog.NeverWaitsOnFull | pkg/async_log/log.go:84-99 | the flusher never starts a wait while full buffers are pending |
| AsyncLog.BroadcastWakes | pkg/cond/cond.go:51-55 | a broadcast closes an open channel, and afterwards every earlier waiter's channel is closed |
| AsyncLog.BatchBound | pkg/async_log/log.go:88-98 | a batch of k >= 2 buffers carries more than floor(k/2) * bufferSize bytes |
| AsyncLog.FlusherCatchesUp | pkg/async_log/log.go:82-109 | when producers pause, finitely many flusher steps put every accepted byte into the file |
| AsyncLog.Logger.LogRecord | pkg/async_log/log.go:118-144 | the critical section computes Logf, and the record is lost only where the source panics |
| AsyncLog.Logger.FlusherLock | pkg/async_log/log.go:84-99 | the flusher's first critical section is one Flush step |
| AsyncLog.Logger.FlusherWake | pkg/async_log/log.go:86-99 | so is what follows its wait |
| AsyncLog.Logger.WriteBatch | pkg/async_log/log.go:101-107 | writing and giving back the batch are its remaining steps, and append the batch to the file |
| Cond.RunsPartition | pkg/cond/cond.go:45-55 | over all interleavings of broadcasters every channel is current, swapped out or closed, never two of these, so none is closed twice |
| Cond.WaiterWakes | pkg/cond/cond.go:34-55 | a waiter's channel gets closed by any broadcast after the capture, and by nothing else |
| Cond.RunRecords | pkg/cond/cond.go:45-55 | in every run the current channel is the number of broadcasts, and the closed ones are exactly those a broadcaster closed |
| Cond.CondVar.SwapChan | pkg/cond/cond.go:51-54 | the atomic swap of Broadcast |
| Cond.CondVar.CloseChan | pkg/cond/cond.go:54-55 | the close of Broadcast never meets a closed channel |
| EventLoop.WakeValue | pkg/event_loop/evloop.go:299-300 | the eight bytes written add 2^56 to the eventfd |
| EventLoop.StepKeepsInv | pkg/event_loop/evloop.go:193-308 | each step of the loop and of a submitter keeps the queue, the counter and the pending wake-up right |
| EventLoop.NoLostWakeup | pkg/event_loop/evloop.go:206-243 | whenever the loop is blocked with a functor queued, Poll can return or a submitter is about to write |
| EventLoop.EventfdIsSafe | pkg/event_loop/evloop.go:72-80 | the loop's read never finds the eventfd empty, a failed write leaves a wake-up pending, the counter is k * 2^56 with k at most 255 |
| EventLoop.WriteFailsIff | pkg/event_loop/evloop.go:299-308 | the write fails exactly if it is the 256th without a read |
| EventLoop.PanicIff | pkg/event_loop/evloop.go:193-228 | in every run a step panics if and only if it is the loop leaving with no function given to DoOnStop, or a call of Loop while it runs |
| EventLoop.SecondLoopPanics | pkg/event_loop/evloop.go:194-197 | a second call by any goroutine does |
| EventLoop.DefaultNeverExits | pkg/event_loop/evloop.go:227-228 | without such a function Loop never returns |
| EventLoop.StopEndsLoop | pkg/event_loop/evloop.go:206-228 | once a Stop is queued or has run and the writes are done, the loop alone gets to its end: it returns with such a function and panics without |
| EventLoop.DefaultStopPanics | pkg/event_loop/evloop.go:246-252 | a run that starts and stops a new loop and panics |
| EventLoop.ExactlyOnceInOrder | pkg/event_loop/evloop.go:215-243 | what ran is a prefix of what was queued; at exit nothing taken was left unrun |
| EventLoop.RunsInPlace | pkg/event_loop/evloop.go:231-235 | RunInLoop on the running loop goroutine has run the functor when it returns, and touches neither queue nor eventfd |
| EventLoop.IsQueued | pkg/event_loop/evloop.go:235-243 | any other RunInLoop leaves the functor at the end of the queue, unrun, and its goroutine about to write the eventfd, which changes nothing else |
| EventLoop.InPlaceExactly | pkg/event_loop/evloop.go:231-243 | in every run the functors run in place are, in order, those the loop goroutine submitted while running, and the queued ones are all others |
| EventLoop.PhaseAfter | pkg/event_loop/evloop.go:193-228 | Loop goes through start hook, check, poll, handlers, queue and functors in this order, and no other step moves it |
| EventLoop.RunningIff | pkg/event_loop/evloop.go:193-252 | the loop runs after a step exactly if the step starts it, or it ran and the step did not run a Stop |
| EventLoop.CounterExactly | pkg/event_loop/evloop.go:75-80 | in every run the eventfd holds 2^56 for each write since its last read, up to 255 |
| EventLoop.EachWakeIsRead | pkg/event_loop/evloop.go:208-219 | in every run each poll that reports the eventfd is followed by one read of it before the functors are taken |
| EventLoop.HookExactly | pkg/event_loop/evloop.go:184-190 | the function called at the end is the one DoOnStop was last given |
| EventLoop.TakenIsRun | pkg/event_loop/evloop.go:215-225 | a functor taken out of the queue runs before the loop can leave, also behind a Stop, unless the process goes down |
| EventLoop.QueueDrains | pkg/event_loop/evloop.go:206-225 | once the writes are done the loop goroutine alone runs every queued functor |
| EventLoop.Loop.RunInLoop | pkg/event_loop/evloop.go:231-240 | inline on the loop goroutine while running, queued otherwise |
| EventLoop.Loop.EnterLoop | pkg/event_loop/evloop.go:193-203 | the compare-and-swap at the entry of Loop, with the panic reported |
| EventLoop.Loop.CheckRunning | pkg/event_loop/evloop.go:206-227 | the test of running and the call of doOnStop, with the panic reported |
| EventLoop.Loop.TakeQueue | pkg/event_loop/evloop.go:216-219 | takes the whole queue under the lock |
| EventLoop.Loop.RunFunctor | pkg/event_loop/evloop.go:222-224 | calls the next functor of the batch |
| EventLoop.Loop.Wake | pkg/event_loop/evloop.go:299-308 | the eventfd write with EAGAIN ignored |
| EventLoop.Loop.ReadEventfd | pkg/event_loop/evloop.go:75-80 | the read callback does not panic |
| EventLoop.Loop.DrainQueue | pkg/event_loop/evloop.go:215-224 | takes the queue and runs all of it in order, also when functors submit more or stop the loop, as a run of the protocol |
| NetBuffer.Paste | pkg/buffer/buffer.go:44-57 | Go's copy into a slice |
| NetBuffer.AppendWindow | pkg/buffer/buffer.go:42-63 | the readable window after each of the three branches |
| NetBuffer.AppendShape | pkg/buffer/buffer.go:42-63 | indices and length of the slice after each branch: in place, moved to the front, or grown with 8192 bytes to spare |
| NetBuffer.AppendFifoIff | pkg/buffer/buffer.go:42-63 | Append is first-in first-out if and only if it need not grow, or the read index is 0, or the bytes are all zero |
| NetBuffer.NegativeRetrieve | pkg/buffer/buffer.go:22-28 | a negative count hands bytes out again or breaks the buffer |
| NetBuffer.ReadWindow | pkg/buffer/buffer.go:65-102 | the window after a read, with the exact condition for the spill |
| NetBuffer.TailFullIff | pkg/buffer/buffer.go:65-102 | exactly when a read leaves the tail full, so that the next one reads nothing |
| NetBuffer.ReadExtends | pkg/buffer/buffer.go:65-102 | safe or not, a read keeps what was readable in front and adds as many bytes as were delivered |
| NetBuffer.RunFifo | pkg/buffer/buffer.go:14-102 | in every run of safe operations the buffer is a first-in first-out queue |
| NetBuffer.WholeReadsAlwaysFifo | pkg/buffer/buffer.go:30-63 | users that always take everything never meet the growth defect |
| NetBuffer.GrowthCanCorrupt | pkg/buffer/buffer.go:53-61 | a family of inputs on which the growth branch loses bytes |
| NetBuffer.CopyBytes | pkg/buffer/buffer.go:44-57 | the copy loop computes Paste |
| NetBuffer.Buffer.AppendBytes | pkg/buffer/buffer.go:42-63 | the method computes Append in place, compacting or growing |
| NetBuffer.Buffer.RetrieveBytes | pkg/buffer/buffer.go:22-28 | panics exactly on too many bytes; stays usable exactly if the index stays non-negative |
| NetBuffer.Buffer.RetrieveAsString | pkg/buffer/buffer.go:35-40 | returns the window and empties the buffer |
| NetBuffer.Buffer.ReadFromFD | pkg/buffer/buffer.go:65-102 | the method computes ReadFD through the spill buffer |
| Connection.ReadClosesIff | tcp_conn.go:170-178 | a read event closes an open connection if and only if the peer closed, or the tail of the input slice is full even with bytes waiting, or the message callback closes it |
| Connection.StateAdvances | tcp_conn.go:112-214 | the connection state only advances, whatever callbacks do |
| Connection.StepKeepsRead | pkg/event_loop/channel.go:88-106 | no step turns read interest off |
| Connection.EventIsTwoSteps | pkg/event_loop/channel.go:129-143 | an event with both bits is a read step and a write step; after a close the write callback puts nothing on the wire and moves the read index of the output down by one |
| Connection.TcpConnection.SendInLoop | tcp_conn.go:113-124 | the submitted function computes Send |
| Connection.TcpConnection.ShutdownWriteInLoop | tcp_conn.go:128-135 | the submitted function computes ShutdownWrite |
| Connection.TcpConnection.ForceCloseInLoop | tcp_conn.go:142-148 | closes an open connection, nothing else |
| Connection.TcpConnection.MakeCalls | tcp_conn.go:112-148 | the calls a callback makes inline take effect one after the other |
| Connection.TcpConnection.HandleWriteEvent | tcp_conn.go:180-192 | the handler computes HandleWrite for every result of write(2) and every callback |
| Connection.TcpConnection.HandleReadEvent | tcp_conn.go:170-178 | the handler computes HandleRead for every callback |
| ConnectionStreams.SendFlowIff | tcp_conn.go:112-125 | an accepted Send keeps the output stream if and only if the append is safe, and never mends a broken one |
| ConnectionStreams.StepIntactIff | tcp_conn.go:112-192 | a step from intact streams leaves them intact if and only if it writes without failure and grows no buffer after a partial retrieve, and no step mends broken ones |
| ConnectionStreams.RunRecords | tcp_conn.go:112-192 | in every run the accepted, received and written bytes are, in order, those sent while connected, delivered and taken by the kernel |
| ConnectionStreams.TakenLeaves | pkg/buffer/buffer.go:22-40 | what the message callback takes leaves so many bytes fewer, or none |
| ConnectionStreams.StreamsIntactIff | tcp_conn.go:112-192 | in every run, what the kernel took and what is pending is what was sent, and what was consumed and is unread is what came, if and only if every step was safe |
| ConnectionStreams.GrowthBreaksStream | tcp_conn.go:112-125 | the run send 8192 bytes, write 100, send 200 corrupts the stream |
| ConnectionShutdown.EarlyShutdownIff | tcp_conn.go:112-192 | any step, failed writes and broken streams included, issues SHUT_WR with bytes pending if and only if it is a write event that drains a connected connection and whose callback sends, then shuts down, and never closes; write interest stays in order |
| ConnectionShutdown.InterestAfterWrite | tcp_conn.go:180-192 | a write event with a quiet callback leaves only read interest once everything is written, and both otherwise |
| ConnectionShutdown.InterestAfterSend | tcp_conn.go:119-122 | an accepted Send leaves both on |
| ConnectionShutdown.EarlyShutdownsIff | tcp_conn.go:112-192 | in every run SHUT_WR is ever issued with bytes pending if and only if some step is of that kind; pending output has write interest on, so has a connection that waits to be shut down, and every open one has read interest on |
| ConnectionShutdown.EarlyShutdownRun | tcp_conn.go:180-192 | a run of a new connection in which that happens |
| ConnectionShutdown.HandleWriteKeepsInv | tcp_conn.go:180-192 | a write that does not fail keeps the written bytes in front of the pending ones and the shutdown rule, for any callback |
| ConnectionShutdown.ShutsWhenWritten | tcp_conn.go:112-192 | in every run without a failed write SHUT_WR, unless early, means nothing is pending, and with the stream intact that all accepted bytes are on the wire |
| ConnectionShutdown.ShutdownRanks | tcp_conn.go:127-136 | after ShutdownWrite a write event is awaited until SHUT_WR, and each lowers the pending bytes by what was written |
| ConnectionShutdown.FailedWrite | tcp_conn.go:181-182 | a failed write puts the last byte on the wire back in front of the pending ones, or makes the read index -1, and breaks an intact stream |
| ConnectionShutdown.FirstWriteFails | tcp_conn.go:181-182 | a run of a new connection that gets to -1 |
| ConnectionShutdown.ByteSentTwice | tcp_conn.go:181-182 | a run in which a byte on the wire is pending again |
| ConnectionShutdown.HighWaterShutsIff | tcp_conn.go:116-122 | a high-water callback makes Send issue SHUT_WR with the bytes pending if and only if it shuts down while write interest is off |
| ConnectionShutdown.HighWaterShutsRun | tcp_conn.go:116-122 | a run of a new connection after which it does |
| Poller.StepKeepsInv | pkg/event_loop/poller.go:89-129 | accepting, establishing and every epoll_ctl call of every step of a connection keep map, epoll set and indices in agreement and never panic |
| Poller.PollerInSync | pkg/event_loop/poller.go:89-129 | in every run of any number of connections, whatever message and write-complete callbacks do to their own: no call gets EEXIST or ENOENT, equal key sets, every open connection registered with its current mask, in which reads are on and writes whenever output is pending, and the indices 1..idxCounter given out once each |
| Poller.CallsReported | tcp_conn.go:112-148 | the epoll_ctl calls a callback causes, one by one, neither panic nor leave anything out of agreement |
| Poller.StepKeepsGiven | pkg/event_loop/poller.go:103-106 | no index is skipped |
| Poller.HighWaterPanicIff | tcp_conn.go:116-122 | a high-water callback makes Send panic in EPOLL_CTL_MOD if and only if it closes the connection while write interest is off |
| Poller.HighWaterPanics | tcp_conn.go:116-122 | a run after which it does |
| Poller.StaleReadIff | pkg/event_loop/evloop.go:208-213 | the events of one poll, of connections, timers or whatever, panic if and only if one reads from a connection that is not open or is closed while an earlier one is handled |
| Poller.StaleReadsPanic | pkg/event_loop/evloop.go:208-213 | a run and two polls, a connection closed by another one's callback and one evicted by a timer |
| Poller.EpollPoller.Update | pkg/event_loop/poller.go:89-115 | the method computes UpdateChannel |
| Poller.EpollPoller.Remove | pkg/event_loop/poller.go:118-129 | the method computes RemoveChannel |
| Chess.ChessTable.HasChessBetween | examples/chinese_chess/backend/tools/chess.go:31-67 | the scanning loops find a piece exactly if some point strictly between is taken |
| Chess.ChessTable.LineMove | examples/chinese_chess/backend/tools/chess.go:135-176 | the cannon, chariot and general branches |
| Chess.ChessTable.Move | examples/chinese_chess/backend/tools/chess.go:69-329 | the method answers and changes the table as DoMove says |
| Chess.ChessTable.Place | examples/chinese_chess/backend/common_packets/chess.go:53-63 | ClearPoint then SetPoint |
| Chess.ChessTable.Opening | examples/chinese_chess/backend/common_packets/chess.go:75-115 | NewDefaultChessTable is the symmetric opening |
| ChessRules.OpeningPieces | examples/chinese_chess/backend/common_packets/chess.go:75-115 | the 32 pieces of the opening one by one, and nothing else |
| ChessRules.OthersRejected | examples/chinese_chess/backend/tools/chess.go:70-89 | points off the table, an empty point, a piece of the other side and a move to the same point are rejected |
| ChessRules.ChariotIff | examples/chinese_chess/backend/tools/chess.go:156-176 | a chariot goes along a clear line to where no piece of its own is |
| ChessRules.CannonIff | examples/chinese_chess/backend/tools/chess.go:135-155 | a cannon that takes nothing goes along a clear line |
| ChessRules.HorseIff | examples/chinese_chess/backend/tools/chess.go:177-214 | a horse goes two and one with the point next to it free |
| ChessRules.ElephantIff | examples/chinese_chess/backend/tools/chess.go:215-253 | an elephant goes two diagonally over a free point on its own half |
| ChessRules.SoldierIff | examples/chinese_chess/backend/tools/chess.go:92-134 | a soldier goes forward, or sideways once across the river |
| ChessRules.AdvisorIff | examples/chinese_chess/backend/tools/chess.go:254-286 | an advisor goes to one of its five points next to it |
| ChessRules.GeneralIff | examples/chinese_chess/backend/tools/chess.go:287-324 | a general takes a general along a clear line, which ends the game, or goes one point in its palace, which does not |
| ChessRules.OthersEndIff | examples/chinese_chess/backend/tools/chess.go:132-286 | the other kinds end the game exactly by taking a general, on any table |
| ChessGame.OpeningIsGood | examples/chinese_chess/backend/common_packets/chess.go:75-115 | every piece of the opening stands where its kind can, one general per side |
| ChessGame.AcceptTransfers | examples/chinese_chess/backend/tools/chess.go:132-134 | an accepted move changes two points only, moves the mover's own piece, and stores the coordinates of the target |
| ChessGame.KindStays | examples/chinese_chess/backend/tools/chess.go:92-308 | generals, advisors, elephants and soldiers stay on their points |
| ChessGame.AdvisorStepsDiagonally | examples/chinese_chess/backend/tools/chess.go:254-286 | every accepted advisor move is one diagonal step |
| ChessGame.GeneralStepMeetsNoGeneral | examples/chinese_chess/backend/tools/chess.go:297-324 | the ordinary general step is right to report no end |
| ChessGame.GameoverIffGeneralTaken | examples/chinese_chess/backend/tools/chess.go:69-329 | in a good position gameover means exactly that the target held a general |
| ChessGame.MoveKeepsGood | examples/chinese_chess/backend/tools/chess.go:69-329 | an accepted move removes a general exactly if it reports the end, and otherwise leads to a good position |
| ChessGame.MoveConserves | examples/chinese_chess/backend/common_packets/chess.go:53-63 | the number of pieces of each kind stays, but for one less of the captured kind |
| ChessGame.OwnCaptureIff | examples/chinese_chess/backend/tools/chess.go:92-320 | a move stays accepted with an own piece, also the general, on its target exactly for soldier, horse, elephant and advisor |
| ChessGame.WinnerKeepsGeneralIff | examples/chinese_chess/backend/tools/chess.go:69-329 | the move that ends a game leaves the mover its general if and only if the target did not hold it |
| ChessGame.AdvisorTakesOwnGeneral | examples/chinese_chess/backend/tools/chess.go:254-286 | three moves from the opening after which Red has taken its own general |
| ChessGame.CrashIff | examples/chinese_chess/backend/tools/chess.go:135-155 | exactly when DoMove dereferences nil |
| ChessGame.OpeningCannonCrashes | examples/chinese_chess/backend/tools/chess.go:135-155 | a first move that does |
| ChessGame.BlockedIffScreens | examples/chinese_chess/backend/tools/chess.go:31-67 | the scan finds something exactly if at least one piece stands strictly between |
| ChessGame.CannonCaptureIff | examples/chinese_chess/backend/tools/chess.go:135-155 | a cannon's capture is accepted exactly along a line, of an enemy, over at least one piece, and obeys the rule of one screen if and only if there is exactly one |
| ChessGame.CannonJumpsTwo | examples/chinese_chess/backend/tools/chess.go:135-155 | three moves from the opening that end with a cannon taking the general over two pieces |
| ChessGame.BlockedIffWalkStops | examples/chinese_chess/backend/tools/chess.go:31-67 | the scan agrees with walking step by step from one point to the other |
| ChessGame.GamesStayGood | examples/chinese_chess/backend/tools/chess.go:69-329 | every position of every game up to its end is good |
| ChessGame.GeneralsSurvive | examples/chinese_chess/backend/tools/chess.go:287-324 | from the opening, one general per side in its palace until the move that reports the end |
| ChessSymmetry.RulesAreSymmetric | examples/chinese_chess/backend/tools/chess.go:69-329 | DoMove answers alike for both sides and both halves of the table, on every board and move |
| ChessSymmetry.OpeningIsSymmetric | examples/chinese_chess/backend/common_packets/chess.go:75-115 | the opening looks the same from both sides and in the mirror |
| MatchServer.CloseKeepsInv | examples/chinese_chess/backend/game_handler/handler.go:76-94 | a close frees the peer, removes exactly this connection, and keeps the pairing invariant |
| MatchServer.PairKeepsInv | examples/chinese_chess/backend/game_handler/handler.go:119-149 | pairing makes a fair new game of two free connections |
| MatchServer.WaitKeepsInv | examples/chinese_chess/backend/game_handler/handler.go:152-157 | at most one connection waits |
| MatchServer.MoveKeepsInv | examples/chinese_chess/backend/game_handler/handler.go:158-221 | moves keep turns alternating and free both players at the end |
| MatchServer.PanicIff | examples/chinese_chess/backend/game_handler/handler.go:107-227 | exactly which parsed packets, closes and timeouts bring the server down |
| MatchReports.ClientsCanCrashServer | examples/chinese_chess/backend/game_handler/handler.go:113-188 | runs of the server that a cannon move, a second match request or a move before any match brings down |
| MatchServer.MatchRules | examples/chinese_chess/backend/game_handler/handler.go:51-227 | in every run: gaming means having a game, both players are live and share it, no connection is in two games, at most one waits, accepted moves alternate from Red in good positions |
| MatchServer.PlayersAreToldTheirSide | examples/chinese_chess/backend/game_handler/handler.go:133-147 | whoever is told of a match is told the side it plays |
| MatchServer.MoverIsReported | examples/chinese_chess/backend/game_handler/handler.go:188-221 | a game ends exactly on a move in turn that DoMove says ends it; only the mover's peer is told, the mover is named as winner, and it still has its general if and only if it did not take that itself |
| MatchReports.RefusedMove | examples/chinese_chess/backend/game_handler/handler.go:179-196 | a move out of turn or rejected gets the mover a refusal and changes nothing else |
| MatchReports.AcceptedMove | examples/chinese_chess/backend/game_handler/handler.go:188-208 | a move that goes on with the game tells the other player and then the mover, moves the piece, passes the turn, and changes nothing else |
| MatchReports.LastMove | examples/chinese_chess/backend/game_handler/handler.go:210-221 | a move that ends it frees both players, and the other one gets the only mail |
| MatchReports.CloseTells | examples/chinese_chess/backend/game_handler/handler.go:76-94 | a close during a game tells the other player, who is idle again; any other tells nobody; exactly the closed connection goes |
| MatchReports.BadPacketCloses | examples/chinese_chess/backend/game_handler/handler.go:222-225 | a packet that cannot be parsed closes its connection |
| MatchReports.ConnectIsFresh | examples/chinese_chess/backend/game_handler/handler.go:65-74 | a new connection gets a new number, is idle and has missed no beat |
| MatchReports.MatchTells | examples/chinese_chess/backend/game_handler/handler.go:119-149 | pairing tells both players their sides in this order and starts the game with Red |
| MatchReports.WaitTells | examples/chinese_chess/backend/game_handler/handler.go:152-157 | with nobody waiting the connection waits and is told so |
| MatchReports.LoseExactly | examples/chinese_chess/backend/game_handler/handler.go:56-62 | in every run the lost beats of a live connection are its timeouts since it last answered, and fewer than five |
| MatchReports.EvictedIff | examples/chinese_chess/backend/game_handler/handler.go:51-63 | in every run a timeout evicts its connection if and only if it is the fifth since that last answered |
| MatchReports.SelfDefeatIsReportedAsWin | examples/chinese_chess/backend/game_handler/handler.go:188-221 | a whole match in which Red takes its own general and Black is told that Red has won |
| MatchReports.SecondMoveWins | examples/chinese_chess/backend/game_handler/handler.go:188-221 | a whole match that Red wins on its second move over two screens |
| MatchServer.TickLose | examples/chinese_chess/backend/game_handler/handler.go:56-62 | a tick touches one heartbeat count and closes at most its own connection |
| MatchServer.GameHandler.Closed | examples/chinese_chess/backend/game_handler/handler.go:76-94 | the method computes OnClose |
| MatchServer.GameHandler.FindRival | examples/chinese_chess/backend/game_handler/handler.go:119-121 | the range over the map finds a waiting connection exactly if there is one |
| MatchServer.GameHandler.MatchRequested | examples/chinese_chess/backend/game_handler/handler.go:113-157 | the method computes OnStartMatch, with the nil dereference for a connection that is not idle |
| MatchServer.GameHandler.MoveRequested | examples/chinese_chess/backend/game_handler/handler.go:158-221 | the method computes OnMove, with the nil dereferences reported |
| MatchServer.GameHandler.Beaten | examples/chinese_chess/backend/game_handler/handler.go:109-112 | the method computes OnHeartbeat |
| MatchServer.GameHandler.OnTimeout | examples/chinese_chess/backend/game_handler/handler.go:51-63 | in any order of the map: exactly the connections with five lost beats go, the others count one more, the invariant stays |
| Framing.HeaderRoundTrip | examples/chinese_chess/backend/tools/packet.go:23-28 | the four header bytes decode to the length modulo 2^32 |
| Framing.BigEndian | examples/chinese_chess/backend/tools/packet.go:23-28 | the most significant byte of the length comes first |
| Framing.PackDecodes | examples/chinese_chess/backend/tools/packet.go:32-48 | a frame decodes to its message, whatever follows |
| Framing.PrefixIncomplete | examples/chinese_chess/backend/tools/packet.go:32-42 | a proper prefix of a frame is incomplete |
| Framing.DecodeIsPrefix | examples/chinese_chess/backend/tools/packet.go:32-48 | what is decoded is a frame the input starts with |
| Framing.PanicIff | examples/chinese_chess/backend/tools/packet.go:39-45 | the wrapping length sum panics exactly for headers within four of 2^32 |
| Framing.DecodeAllInvertsPackAll | examples/chinese_chess/backend/tools/packet.go:23-48 | any concatenation of frames decodes to its messages in order |
| ServerInput.ReadIntactIff | examples/chinese_chess/backend/game_handler/handler.go:100-105 | after a read event the packets are intact and the connection is up if and only if bytes came, the tail of the slice was not full and the spill met no growth defect |
| ServerInput.MessagesIntactIff | examples/chinese_chess/backend/game_handler/handler.go:100-105 | however the stream of frames is cut into reads, the connection is up, what was taken is the first messages in order, and the rest of what came is still readable, if and only if every read was of that kind |
| ServerInput.TakesOneMore | examples/chinese_chess/backend/game_handler/handler.go:96-106 | a call of OnMessage takes one more packet unless no other one is complete |
| ServerInput.TakenIff | examples/chinese_chess/backend/game_handler/handler.go:96-106 | in a run of such reads at least t packets were taken if and only if at every point the packets complete there and the reads still to come add up to t |
| ServerInput.EveryPacketTakenIff | examples/chinese_chess/backend/game_handler/handler.go:96-106 | nothing is lost and every packet that came completely was taken if and only if all reads were of that kind and no stretch of reads up to the end completed more packets than it has reads |
| ServerInput.OnePerRead | examples/chinese_chess/backend/game_handler/handler.go:96-106 | at most one packet is taken per read event |
| ServerInput.ReadCrashesIff | examples/chinese_chess/backend/game_handler/handler.go:100-105 | a read event crashes the server exactly when the readable bytes start with a length within four of 2^32 |
| ServerInput.FourBytesCrash | examples/chinese_chess/backend/game_handler/handler.go:100-105 | the bytes ff ff ff fc on a new connection do |
| ServerInput.FirstBytesIntact | pkg/buffer/buffer.go:65-102 | up to 8192 bytes, in any cut, no byte is lost and the connection stays up, and the slice is filled up to what came |
| ServerInput.FullSliceCloses | tcp_conn.go:170-178 | when reads filled the slice exactly, the next read event closes the connection, whatever comes |
| ServerInput.LongFrameIsCutOff | tcp_conn.go:170-178 | a longer frame whose first 8192 bytes are read at once never arrives |
| ServerInput.LaterLongFrameIff | pkg/buffer/buffer.go:53-61 | a frame over 8192 bytes read at once behind a shorter one arrives if and only if its spill is all zero |
| ServerInput.SecondPacketCorrupted | pkg/buffer/buffer.go:53-61 | packets of 96 and 17088 bytes of which the second does not arrive |
| ServerInput.InboxIsConnection | tcp_conn.go:170-178 | these read events are handleRead of an open connection with this handler as message callback |
| ServerInput.TakePacket | examples/chinese_chess/backend/game_handler/handler.go:96-106 | the method decodes and retrieves one frame, with the panics reported |
| ServerInput.SecondFrameWaits | examples/chinese_chess/backend/game_handler/handler.go:100-105 | a second frame in one read stays unread until more bytes come |

## Left out

- Raw system calls, unsafe pointers, socket options, accepting and listening (tcp_acceptor.go) and goroutine ids: parameters or environment steps.
- tcp_server.go, eventloop_goroutine.go, eventloop_goroutine_poll.go, callbacks.go, load_balance.go, pkg/context: wiring, round-robin and a locked map would only add easy members.
- JSON packets, the frontend, drawing, settings, benchmarks and the small examples.
- Log time stamps, formatting, level filtering and partial file writes: a record is any non-empty byte sequence.
- time.Time and time.Duration are unbounded integers of nanoseconds; 64-bit overflow is not modelled.
- Go slices of pointers to log buffers are sequences of buffer values that carry the number they were allocated under. That every number is in one place at a time (`EveryRunSound`) is what makes this the same as sharing pointers; mutation through an alias is not expressed otherwise.
- Liveness that depends on the Go scheduler or on the kernel being fair: rankings and drain results are stated instead.
- EventLoop.Loop.DrainQueue: without other goroutines between two functor calls; their steps there are steps of the state machine.
- EventLoop.PanicIff: a call of Loop after a Stop took effect but before the first Loop returned, which would run two loops at once, is no step of the model.
- TimerQueue.TimerQueue.GetExpired: takes a bound on its iterations, which exists exactly when the source's loop ends; on an endless one the source never returns.
- ConnectionShutdown.HandleWriteKeepsInv: for writes that do not fail; `FailedWrite` and `EarlyShutdownIff` say what happens otherwise.
- ConnectionShutdown.ShutsWhenWritten: a failed write can put a byte behind a SHUT_WR that was in order; `EarlyShutdownsIff` covers runs with failed writes.
- High-water callbacks (`SendOver`) do nothing, shut down or close; one that sends re-enters itself and is not modelled. Connected and disconnected callbacks are quiet.
- Once a failed write made the read index -1, the connection takes no further step in the model; in the source the next write event panics in Peek.
- Poller.PollerInSync: for the channels of connections; the wake-up, timer and acceptor channels register once and never change.
- TimerFd.ReadPanicsIff: takes the timerfd to expire exactly when programmed, with no delay by the kernel.
- Descriptors reused within one poll: `StaleReadIff` and `EventIsTwoSteps` take a closed descriptor to stay closed until the poll is done.
- MatchServer.PanicIff: for packets already parsed; the panic of the length decoder before that is `ServerInput.ReadCrashesIff`.
- RunAt, CancelTimer and GetChannelCount from other goroutines, which wait for a reply on a channel.
