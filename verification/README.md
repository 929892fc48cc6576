# Verification of the asynchronous runtime

This project models the concurrent core of the runtime in Dafny and proves its main promises for all
inputs, all numbers of threads and all schedules.  `dafny verify dfyconfig.toml` checks everything.

Concurrent parts are state machines.  One step is one atomic load, store, compare-exchange, exchange,
fetch-and-add, or mutex section, under sequential consistency; a run is any sequence of such steps
from an initial state, so a lemma about runs is a lemma about every interleaving.  Weak
compare-exchanges may fail for no reason.  History variables (what was pushed, how often something
ran) are ordinary fields of the state that no step reads to decide what to do.  Parts that one
thread at a time uses are classes and methods with loops, proved against specification functions.
Capacities and field widths are symbolic wherever the proof allows it.

| files | what they model |
|---|---|
| `EventCount*.dfy`, `PackedEventCount.dfy` | the event count: the machine, its invariant, the absence of lost wakeups, the conservation of signals, progress, the packed 64-bit word, and the same machine on packed words |
| `TaskQueue.dfy`, `TaskQueueCalls.dfy` | the multi-producer multi-consumer queue with a sequence number per slot, and what each of its calls promises |
| `TaskDeque.dfy`, `TaskDequeCalls.dfy`, `TaskDequeSize.dfy`, `WordPositions.dfy`, `SequentialDeque.dfy` | the owner/mutex deque: concurrent use, its calls, its size as others see it, and sequential use with its 32-bit words |
| `PriorityWord.dfy`, `PriorityDeque.dfy` | the four-priority deque and its packed pointer words |
| `VictimScan.dfy`, `Spinning.dfy`, `PoolShutdown.dfy`, `PoolTermination.dfy`, `PoolWork.dfy`, `DynamicThreads.dfy` | the thread pools: choosing queues, spinning tokens, termination, no task left behind, dynamic threads |
| `AsyncValues.dfy`, `RunWhenReady.dfy`, `Forwarding.dfy` | futures: waiter lists, waiting for many values, forwarding chains and reference counts |
| `Dataflow.dfy`, `GraphBuild.dfy`, `SubGraphs.dfy`, `SubGraphValues.dfy` | dataflow graphs: meaning, building, cutting out a sub-graph |
| `GraphExecutor.dfy`, `GraphProofs.dfy`, `GraphRuns.dfy`, `RegisterSlot.dfy` | running a dataflow graph, and the race on one register slot |
| `TaskGraphs.dfy` | task graphs: edges and the executor |
| `Bits.dfy`, `Ring.dfy`, `Counting.dfy`, `Finite.dfy`, `Wrappers.dfy` | bit operations on naturals, ring positions, counting, finite sets, optional values |

What the proofs bring to light about the code:

- `TaskQueue` widens two unsigned 32-bit numbers before it subtracts them.  A step of the 32-bit code is
  the step of the unbounded model if and only if the loaded sequence number and the position are equal
  or lie in the same block of 2^32 (`TaskQueue.Push32Agrees`, `TaskQueue.Pop32Agrees`).  At the wrap a
  push to a full queue retries instead of being refused, and a push or pop that was overtaken is
  refused, or finds nothing, instead of retrying (`TaskQueue.FullQueueAtWrapReloads`,
  `TaskQueue.StalePushAtWrapRefused`, `TaskQueue.StalePopAtWrapFindsNothing`).
- `TaskDeque::Empty` can call a full deque empty.  It trusts two equal reads of mFront around its read of
  mBack, but pops at the front leave the modification counter alone, so the word comes back after twice
  the capacity of them (`TaskDequeSize.FullReportedEmpty`, for every capacity).  With fewer pops in
  between, and fewer pushes than turn the counter, the answer is that of one moment
  (`TaskDequeSize.SizeIsExact`).
- The packed compare-exchange of the event count decides like one on unbounded epochs whenever fewer
  than 2^22 pushes of the top waiter happen behind a snapshot, and then the whole machine on packed
  words does what the machine on records does (`PackedEventCount.PackedRuns`).  Beyond that it errs only
  if every other field is equal and the epochs differ by a multiple of 2^22
  (`EventCountWord.PackedCasErrs`, `EventCountWord.EpochWraps`).
- A register that has uses owns one reference too many if and only if a reader's compare-exchange on the
  empty slot succeeds before the result is installed (`RegisterSlot.OwnershipExact`, with such a run in
  `RegisterSlot.EarlyReaderLeaks`).  The executor reads a register with uses only after it is filled,
  and then the count is exact (`RegisterSlot.FilledBeforeRead`, `GraphProofs.InputsAvailable`).
- Registers that nobody uses are handed to the caller as outputs.  Each owns the reference that is handed
  over if and only if it is not one of the arguments; an argument that no node takes, as a sub-graph
  can have, comes back without a reference of its own (`GraphRuns.OutputsOwned`,
  `SubGraphValues.SubGraphUses`).
- The comment at async/context/async_value.h:340-341 states the waiter list invariant the wrong way
  round.  The code keeps "available implies empty list", which is what is proved here.
- `Inc` in async/concurrent/task_priority_queue.h:307 masks with the complement of the number 44
  instead of the complement of the index bits; the shift after it makes both give the same counter
  (`PriorityWord.CounterIsHigh`).
- The waiter that retries its compare-exchange in `EnqueueWaiter` installs the state it saw first.  This
  is sound because no operation of the source moves an existing value from unconstructed to
  constructed, although async/context/async_value.h:177-184 speaks of such a transition; the machine
  of `AsyncValues` therefore has no such step.

## Model

| member | source | states |
|---|---|---|
| `EventCountInvariant.RunInv` | async/concurrent/event_count.h:35-205 | in every reachable state the waiter field is the number of threads in prewait, signals <= waiters < 2^14-1, the next-links from the stack top form an acyclic list of exactly the committed, undetached waiters, and every parked thread is owed exactly one signal |
| `EventCountInvariant.PopStack` | async/concurrent/event_count.h:117-129 | a pop whose compare-exchange succeeds installs the true rest of the stack, however stale its read of next was |
| `EventCountInvariant.PushSucceeds` | async/concurrent/event_count.h:60-72 | CommitWait's push keeps the list a list and gives it a fresh epoch |
| `EventCountInvariant.NotifyAllSucceeds` | async/concurrent/event_count.h:109-130 | Notify(true) takes over the whole stack as the chain it will unpark |
| `EventCountInvariant.UnparkLockStep` | async/concurrent/event_count.h:192-205 | Unpark signals the first waiter of the chain it holds, which was parked, not yet signalled and owed exactly this signal; its debt is paid, the rest of the chain is still owed, and the invariant holds |
| `EventCountInvariant.CheckStateHolds` | async/concurrent/event_count.h:207-217 | every CheckState assertion holds, on the loaded and on the computed word |
| `EventCountInvariant.OperationsCanRun` | async/concurrent/event_count.h:35-134 | no operation indexes outside mWaiters or gets stuck |
| `EventCountInvariant.QuiescentWord` | async/concurrent/event_count.h:25-28 | when every operation has returned, the stack is empty with epoch zero and both counters are zero |
| `EventCountWakeups.RunSafe` | async/concurrent/event_count.h:77-134 | once an armed Notify(true) has taken effect, the pending signals cover every thread that can still commit |
| `EventCountWakeups.PushCountsFrozen` | async/concurrent/event_count.h:48-75 | after that moment no thread parks any more, in every continuation of every run |
| `EventCountWakeups.NoLostWakeups` | async/concurrent/event_count.h:35-205 | no lost wakeup: after the notification nobody in prewait parks, and once all notifiers returned nobody is asleep and exactly the threads parked at that moment were signalled, once each |
| `EventCountWakeups.ArmedNotifyTakesEffect` | async/concurrent/event_count.h:99-134 | a Notify(true) called after the predicate was set has taken effect when it stops trying |
| `EventCountSignals.NotifyOneTakesEffect` | async/concurrent/event_count.h:113-130 | a Notify(false) whose compare-exchange succeeds adds exactly one signal if some thread in prewait has none; otherwise it takes the top waiter off the stack and owes it a signal; nothing else changes |
| `EventCountSignals.SignalsConserved` | async/concurrent/event_count.h:35-134 | over every run: pending signals = those granted by notifications less those used by CommitWait and CancelWait, and threads on the stack = those parked less those taken off it |
| `EventCountSignals.EverythingAnswered` | async/concurrent/event_count.h:35-134 | when every call has returned each signal was used by a thread leaving prewait, and each waiter was signalled as often as it parked |
| `EventCountSignals.LoadedInCall` | async/concurrent/event_count.h:36-119 | the word an operation acts on was in mState at a moment inside this very call |
| `EventCountSignals.NotifyAnswered` | async/concurrent/event_count.h:99-134 | a Notify that stops trying has either just succeeded, which the ledger records, or there was a moment inside the call with an empty stack and a signal for every thread in prewait |
| `EventCountProgress.StepProgress` | async/concurrent/event_count.h:35-205 | in every reachable state a thread in a call has a step, and running alone it comes closer to its end |
| `EventCountProgress.FinishesAlone` | async/concurrent/event_count.h:35-205 | every run can be continued by one thread alone until its call returns or it sleeps: no retry loop is endless |
| `EventCountWord.ReadFields` | async/concurrent/event_count.h:158-179 | the masks and shifts read back the fields of a packed word |
| `EventCountWord.PrewaitPacks` | async/concurrent/event_count.h:39 | adding kWaiterInc increments the waiter field and carries into no other |
| `EventCountWord.ConsumePacks` | async/concurrent/event_count.h:56-58 | consuming a signal is exact on the packed word |
| `EventCountWord.CancelPacks` | async/concurrent/event_count.h:82-89 | CancelWait's arithmetic takes a signal exactly when all prewaiters are signalled |
| `EventCountWord.SignalPacks` | async/concurrent/event_count.h:113-115 | adding kSignalInc adds one to the signal field and changes no other |
| `EventCountWord.MePacks` | async/concurrent/event_count.h:51 | the or of index and epoch is the packed link |
| `EventCountWord.PushPacks` | async/concurrent/event_count.h:60-61 | the pushed word has the waiter on top, one prewaiter less and no signal |
| `EventCountWord.LinkPacks` | async/concurrent/event_count.h:62-63 | the stored link is the packed old top |
| `EventCountWord.NotifyAllPacks` | async/concurrent/event_count.h:109-112 | Notify(true)'s word has an empty stack and one signal per prewaiter |
| `EventCountWord.PopPacks` | async/concurrent/event_count.h:116-120 | the popped word has the waiter's link on top and the same counters |
| `EventCountWord.QuiescentIsStackMask` | async/concurrent/event_count.h:17-28 | the word of a quiescent event count is exactly kStackMask |
| `EventCountWord.PackedEqual` | async/concurrent/event_count.h:158-179 | packed words are equal exactly when all fields are, epochs modulo 2^22 |
| `EventCountWord.PackedCasAgrees` | async/concurrent/event_count.h:66-67 | the packed compare-exchange decides like the one on unbounded epochs within a window of 2^22 pushes |
| `EventCountWord.PackedCasErrs` | async/concurrent/event_count.h:66-67 | the packed compare-exchange errs exactly when the words differ in nothing but the epoch, by a multiple of 2^22 |
| `EventCountWord.EpochWraps` | async/concurrent/event_count.h:175-179 | at the end of that window the packed word recurs for a different push |
| `EventCountWord.PackedState.TryPrewait` | async/concurrent/event_count.h:35-45 | one round of Prewait on the real word does what the record step does |
| `EventCountWord.PackedState.TryCancel` | async/concurrent/event_count.h:78-95 | one round of CancelWait on the real word |
| `EventCountWord.PackedState.TryCommit` | async/concurrent/event_count.h:48-75 | one round of CommitWait on the real word, including the link it stores |
| `EventCountWord.PackedState.TryNotify` | async/concurrent/event_count.h:99-134 | one round of Notify on the real word: all signals and an empty stack, one more signal, or the next link on top, and in each case nothing else |
| `PackedEventCount.StepCoincides` | async/concurrent/event_count.h:35-205 | inside the window one step of the machine on packed words, with the masks and shifts of the source, is the step of the machine on records |
| `PackedEventCount.PackedRuns` | async/concurrent/event_count.h:35-205 | over whole runs inside the window the packed machine is, in every state, the packed form of the record machine, so what is proved of records holds of the words |
| `TaskQueue.RunInv` | async/concurrent/task_queue.h:39-98 | every reachable state keeps 0 <= front - back <= capacity and the sequence number of every slot in step with its position |
| `TaskQueue.StepRefinesFifo` | async/concurrent/task_queue.h:39-98 | every step is one atomic operation of a bounded FIFO or leaves it alone: linearizability |
| `TaskQueue.PopReturnsItsPush` | async/concurrent/task_queue.h:71-98 | the pop that claims position k returns the task of the push that claimed position k |
| `TaskQueue.ClaimsAreDistinct` | async/concurrent/task_queue.h:82-85 | no position, hence no task, is handed out twice |
| `TaskQueue.RefusalReason` | async/concurrent/task_queue.h:54-55 | a slot behind the position of a push means that the queue is full or the pop one lap behind has not released the slot |
| `TaskQueue.EmptyReason` | async/concurrent/task_queue.h:87-88 | a slot behind the position of a pop means that the queue is empty or the push at the back has not published its task |
| `TaskQueue.SnapshotTaken` | async/concurrent/task_queue.h:107-118 | the answer of Size rests on one read of mBack inside this very call, and carries the positions of that moment |
| `TaskQueue.SizeIsALength` | async/concurrent/task_queue.h:102-120 | Size returns the length of the queue at the moment mBack was read inside this call, so 0 only if no claimed push was unclaimed by a pop then |
| `TaskQueue.WrapVerdict` | async/concurrent/task_queue.h:45-58 | for numbers less than 2^32 apart, ahead or behind, the 32-bit comparison decides like the unbounded one if and only if they are equal or in the same block of 2^32 |
| `TaskQueue.Push32Agrees` | async/concurrent/task_queue.h:43-59 | in every reachable state the 32-bit push does what the unbounded one does if and only if that holds of what it loaded |
| `TaskQueue.Pop32Agrees` | async/concurrent/task_queue.h:75-92 | the same for the pop, with the position after back |
| `TaskQueue.ShortRunsAgree` | async/concurrent/task_queue.h:39-98 | before the first wrap the 32-bit code is the unbounded one |
| `TaskQueue.FullQueueAtWrapReloads` | async/concurrent/task_queue.h:54-58 | in every full state whose front has just wrapped and whose slot is not held, the 32-bit push neither claims nor refuses |
| `TaskQueue.StalePushAtWrapRefused` | async/concurrent/task_queue.h:54-58 | an overtaken push that loaded the last position before the wrap is refused instead of retrying |
| `TaskQueue.StalePopAtWrapFindsNothing` | async/concurrent/task_queue.h:87-91 | an overtaken pop whose slot's next lap begins behind the wrap reports empty instead of retrying |
| `TaskQueueCalls.PushHasItsTask` | async/concurrent/task_queue.h:39-66 | the task a push works on, stores or hands back is the one it was called with |
| `TaskQueueCalls.RefusedInCall` | async/concurrent/task_queue.h:39-59 | a refused push hands back its own task, and at its load of the slot, inside this call, its position was the front and the queue was full or the pop one lap behind had not released the slot |
| `TaskQueueCalls.FoundEmptyInCall` | async/concurrent/task_queue.h:71-92 | a pop that found nothing loaded, inside this call, the slot at the back while the queue was empty or the push there had not published |
| `TaskQueueCalls.StoredInCall` | async/concurrent/task_queue.h:39-66 | a push that was not refused put its task at the end of the queue by one step inside this call |
| `TaskQueueCalls.TakenInCall` | async/concurrent/task_queue.h:71-98 | a pop that returns a task took it from the head of the queue by one step inside this call |
| `TaskQueueCalls.ReturnsAlone` | async/concurrent/task_queue.h:39-120 | from every reachable state every call returns when its thread runs alone |
| `TaskQueueCalls.PushAlone` | async/concurrent/task_queue.h:39-66 | an undisturbed push stores its task if and only if there is room, and otherwise hands it back and leaves the queue as it was |
| `TaskQueueCalls.PopAlone` | async/concurrent/task_queue.h:71-98 | an undisturbed pop returns the head unless nothing is there |
| `TaskQueueCalls.SizeAlone` | async/concurrent/task_queue.h:104-120 | an undisturbed Size is the length |
| `TaskDeque.RunInv` | async/concurrent/task_deque.h:40-110 | every reachable state keeps the held slots a contiguous region, marked busy exactly where an operation owns its end |
| `TaskDeque.StepRefinesDeque` | async/concurrent/task_deque.h:40-110 | every step of owner and back threads is a step of one bounded double-ended queue: a winning push adds its task, a winning pop takes the task at its end, nothing else changes it |
| `TaskDeque.PopReturnsItsClaim` | async/concurrent/task_deque.h:57-110 | a pop returns the task its winning compare-exchange removed |
| `TaskDeque.WordsStayClose` | async/concurrent/task_deque.h:229-240 | the stored positions always differ by 0 to capacity + 1, as CalculateSize asserts |
| `TaskDeque.IdleWordsCount` | async/concurrent/task_deque.h:229-240 | between operations they differ by exactly the number of tasks |
| `TaskDeque.RefusedMeansFull` | async/concurrent/task_deque.h:41-47 | the step that refuses a push finds every slot held |
| `TaskDeque.NothingMeansEmpty` | async/concurrent/task_deque.h:57-64 | a pop that finds its slot not ready found nothing, or only the slot the other end is working on |
| `TaskDequeCalls.RefusedPush` | async/concurrent/task_deque.h:40-47 | a refused push hands back the task it was called with, and inside this call every slot was held |
| `TaskDequeCalls.StoredPush` | async/concurrent/task_deque.h:40-52 | a push that returns nothing put the task it was called with at its end of the deque, by one step inside this call |
| `TaskDequeCalls.TakenByPop` | async/concurrent/task_deque.h:57-110 | a pop that returns a task took it from its end by one step inside this call |
| `TaskDequeCalls.NothingPopped` | async/concurrent/task_deque.h:57-64 | a pop that returns nothing found, inside this call, nothing but what the other end has in hand, or its emptiness test said yes |
| `TaskDequeCalls.CallsReturn` | async/concurrent/task_deque.h:40-110 | in every reachable state either end can go on and comes closer to its return, whatever the other does |
| `TaskDequeCalls.PushAlone` | async/concurrent/task_deque.h:40-90 | with the other end stopped anywhere, a push stores its task if and only if a slot is free, and otherwise hands it back |
| `TaskDequeCalls.PopAlone` | async/concurrent/task_deque.h:57-110 | with the other end stopped anywhere, a pop takes and returns the task at its end unless there is none for it |
| `TaskDequeSize.PositionStood` | async/concurrent/task_deque.h:181-192 | two equal reads of a word, with few enough moves in between, mean that the position did not move at all |
| `TaskDequeSize.SizeIsExact` | async/concurrent/task_deque.h:203-240 | Size is the distance at the moment mBack was read, and Empty says yes only if nothing was held then but by pushes in progress, if the front saw fewer pops than twice the capacity and fewer pushes than turn its counter |
| `TaskDequeSize.FullReportedEmpty` | async/concurrent/task_deque.h:203-226 | for every capacity a run in which twice the capacity of front pops pass between the two reads of mFront and a full deque is reported empty |
| `WordPositions.ForwardMoves` | async/concurrent/task_deque.h:163-166 | adding kIncrement moves the rolling index one on, across the wrap of the 32-bit word |
| `WordPositions.BackwardMoves` | async/concurrent/task_deque.h:67 | the masked decrement moves the index one back, across zero, and changes no counter bit |
| `SequentialDeque.SizeFromDistance` | async/concurrent/task_deque.h:203-240 | CalculateSize is the distance capped at the capacity for all distances up to capacity + 1, and agrees with the emptiness test |
| `SequentialDeque.SizeIsLength` | async/concurrent/task_deque.h:145-151 | Size is the number of tasks and Empty says whether it is zero |
| `SequentialDeque.Deque.PushFront` | async/concurrent/task_deque.h:40-52 | appends at the front, or returns the task exactly when full |
| `SequentialDeque.Deque.PopFront` | async/concurrent/task_deque.h:57-70 | removes and returns the front task, or nothing exactly when empty |
| `SequentialDeque.Deque.PushBack` | async/concurrent/task_deque.h:76-90 | appends at the back, or returns the task exactly when full |
| `SequentialDeque.Deque.PopBack` | async/concurrent/task_deque.h:95-110 | removes and returns the back task, or nothing exactly when empty |
| `SequentialDeque.Deque.PopBackHalf` | async/concurrent/task_deque.h:114-143 | removes exactly the back-most ceil(size/2) tasks and returns them from the middle outward to the back |
| `SequentialDeque.Deque.Size` | async/concurrent/task_deque.h:147 | the length of the contents |
| `SequentialDeque.Deque.Empty` | async/concurrent/task_deque.h:151 | whether the contents are empty |
| `PriorityWord.IndexIsLow` | async/concurrent/task_priority_queue.h:273-291 | the plain index is the extended one modulo the capacity |
| `PriorityWord.WithIndexExtFields` | async/concurrent/task_priority_queue.h:293-297 | WithIndexExt changes the chosen index and nothing else |
| `PriorityWord.CounterIsHigh` | async/concurrent/task_priority_queue.h:307 | the counter read with the odd mask is the true modification counter |
| `PriorityWord.IncFields` | async/concurrent/task_priority_queue.h:299-352 | Inc adds one to the chosen index and to the counter modulo their widths and keeps the other indices |
| `PriorityWord.SameIndices` | async/concurrent/task_priority_queue.h:411-417 | the low bits of two words agree exactly when all four indices do |
| `PriorityDeque.SizeIsSum` | async/concurrent/task_priority_queue.h:395-459 | the size is the sum of the four lengths and the emptiness test agrees with it |
| `PriorityDeque.Deque.PushFront` | async/concurrent/task_priority_queue.h:73-91 | appends at the front of its priority, or returns the task exactly when that queue is full |
| `PriorityDeque.Deque.PushBack` | async/concurrent/task_priority_queue.h:133-153 | appends at the back of its priority, or returns the task exactly when that queue is full |
| `PriorityDeque.Deque.PopFront` | async/concurrent/task_priority_queue.h:101-126 | takes the front task of the highest non-empty priority, others unchanged |
| `PriorityDeque.Deque.PopBack` | async/concurrent/task_priority_queue.h:163-188 | takes the back task of the highest non-empty priority, others unchanged |
| `PriorityDeque.Deque.Size` | async/concurrent/task_priority_queue.h:192 | the sum of the four lengths |
| `PriorityDeque.Deque.Empty` | async/concurrent/task_priority_queue.h:196 | whether all four are empty |
| `VictimScan.ComputeCoprimes` | async/concurrent/work_queue_base.h:280-295 | exactly the i in 1..n that have no common divisor with n but 1, ascending |
| `VictimScan.FastReduceInRange` | async/concurrent/work_queue_base.h:29-31 | FastReduce of a 32-bit number stays below the size |
| `VictimScan.FastReduceMonotone` | async/concurrent/work_queue_base.h:29-31 | FastReduce never goes down as its number grows |
| `VictimScan.FastReduceOnto` | async/concurrent/work_queue_base.h:29-31 | FastReduce hits every index |
| `VictimScan.ScanVisitsAll` | async/concurrent/work_queue_base.h:385-394 | the add-and-subtract scan visits every index exactly once |
| `VictimScan.NonEmptyQueueIndex` | async/concurrent/work_queue_base.h:566-581 | -1 only after every queue, when asked, was empty; otherwise a queue that was not |
| `VictimScan.Steal` | async/concurrent/work_queue_base.h:379-396 | nothing only after every queue gave nothing; otherwise what some queue gave |
| `VictimScan.EnqueueOutside` | async/concurrent/blocking_work_queue.h:145-168 | the task comes back, or runs here when quiescing, only after every queue refused it |
| `Spinning.TokensConserved` | async/concurrent/work_queue_base.h:504-563 | the spinning field counts the threads in the loop, no-notify <= spinning <= no-notify + kMaxSpinningThreads, and skipped = matched + no-notify |
| `Spinning.SkippedAreMatched` | async/concurrent/work_queue_base.h:525-563 | once all spinners left, each skipped notification was matched by exactly one StopSpinning that returned true |
| `Spinning.StepAnswers` | async/concurrent/work_queue_base.h:504-563 | a thread is let in, taken off, or owed a notification by exactly the step that decides its answer, under exactly the condition the answer states; no other step changes the word |
| `Spinning.NotAllowedReason` | async/concurrent/work_queue_base.h:505-512 | StartSpinning refuses only with enough threads active or, at a moment inside this call, the maximum spinning beyond the notifications owed |
| `Spinning.AskedReason` | async/concurrent/work_queue_base.h:546-556 | a submitter is told to notify only if at a moment inside this call every spinning thread was already owed one |
| `Spinning.CallsReturn` | async/concurrent/work_queue_base.h:504-563 | every call in its loop can go on and, unless its attempt fails for no reason, comes closer to its return |
| `Spinning.CallsAlone` | async/concurrent/work_queue_base.h:504-563 | what each of the three functions answers and leaves in the word when it runs undisturbed |
| `Spinning.DecodeEncode` | async/concurrent/work_queue_base.h:254-274 | decoding undoes encoding; the fields do not overlap |
| `Spinning.WordsDecide` | async/concurrent/work_queue_base.h:517-518 | comparing packed words is comparing both counts, in every reachable state |
| `PoolShutdown.RunInv` | async/concurrent/work_queue_base.h:447-501 | mBlocked counts the blocked workers; what a final scan has seen empty is still empty unless somebody was unblocked since; every task is in one place |
| `PoolShutdown.ConservedStep` | async/concurrent/non_blocking_work_queue.h:68-130 | no step loses or duplicates a task |
| `PoolShutdown.SubmissionArrives` | async/concurrent/non_blocking_work_queue.h:68-105 | a submitted task gets the next number and is at the end of the queue its submitter chose, on its worker's stack, or has run; nothing else moves |
| `PoolShutdown.TakingUndoesSubmitting` | async/concurrent/non_blocking_work_queue.h:107-130 | a worker takes its own tasks from the end at which it submits and those of others from the end at which outsiders do |
| `PoolShutdown.AtMostOnce` | async/concurrent/work_queue_base.h:410-443 | no submitted task runs twice |
| `PoolShutdown.ShutdownLosesNothing` | async/concurrent/work_queue_base.h:464-496 | when all workers have exited, every queue is empty and every submitted task ran exactly once; that state is always reached, as the members of PoolTermination say |
| `PoolTermination.UnblockedReason` | async/concurrent/work_queue_base.h:480-500 | mBlocked is decremented only by a parked worker that was woken, or one whose final scan found work |
| `PoolTermination.FinalFoundReason` | async/concurrent/work_queue_base.h:482-491 | a worker that found work in its final scan looked, in this scan, at a queue that was not empty |
| `PoolTermination.ExitsNext` | async/concurrent/work_queue_base.h:492-495 | a worker whose final scan found every queue empty exits at its next step and notifies everybody |
| `PoolTermination.NobodyLeftAsleep` | async/concurrent/work_queue_base.h:320-340 | once the destructor has announced itself, a state in which no worker has a step left is one in which all have exited |
| `PoolTermination.OwnStepLess` | async/concurrent/work_queue_base.h:400-501 | every step of a worker's own, in every order, brings the pool closer to its end |
| `PoolTermination.ShutdownCompletes` | async/concurrent/work_queue_base.h:320-340 | from every reachable state in which the destructor has announced itself the workers come to an end, all exited, every queue empty and every submitted task run exactly once |
| `PoolWork.NotificationsArrive` | async/concurrent/event_count.h:48-134 | a notification gives a signal to somebody in prewait who has none or else wakes one sleeper, a committing worker sleeps exactly if no signal is left, a woken one goes back to work |
| `PoolWork.RunWatched` | async/concurrent/work_queue_base.h:447-501 | in every reachable state a queue that is not empty has a worker that will look at it, a signal that will keep a worker from sleeping, or a submitter about to notify |
| `PoolWork.RestMeansDone` | async/concurrent/non_blocking_work_queue.h:68-113 | no task is left behind: whenever no worker has a step left and no submitter is about to notify, every queue is empty and every submitted task has run exactly once |
| `PoolWork.WorkCompletes` | async/concurrent/non_blocking_work_queue.h:68-113 | every run can be continued without further submissions until every submitted task has run exactly once, by steps of the workers' own in whatever order, which come to an end |
| `PoolTermination.EveryRunCanBeShutDown` | async/concurrent/work_queue_base.h:320-340 | every run can be continued to one in which all workers have exited |
| `DynamicThreads.CountersOrdered` | async/concurrent/blocking_work_queue.h:96-104 | at every mutex boundary idle tasks <= idle threads <= dynamic threads <= maximum |
| `DynamicThreads.AcceptedOnce` | async/concurrent/blocking_work_queue.h:185-282 | an accepted task runs at most once, and until then it is queued or with exactly one thread |
| `DynamicThreads.NoThreadsNoTasks` | async/concurrent/blocking_work_queue.h:284-307 | with no dynamic threads the idle queue is empty, as Quiesce asserts, and every accepted task has run exactly once |
| `DynamicThreads.SubmitDecides` | async/concurrent/blocking_work_queue.h:185-259 | a task is refused exactly if no waiting thread is spare and the maximum of threads is alive; otherwise it goes to the idle queue if a thread is spare and to a new thread if not |
| `DynamicThreads.OldestFirst` | async/concurrent/blocking_work_queue.h:261-282 | a thread that ends its wait runs the oldest waiting task, and exits only if there is none |
| `DynamicThreads.WaitsForWork` | async/concurrent/blocking_work_queue.h:263-272 | a thread waits exactly if no task is queued and nobody asked the threads to stop |
| `DynamicThreads.ThreadsFinish` | async/concurrent/blocking_work_queue.h:225-282 | every run can be continued by its threads alone until none is left, with every accepted task run exactly once |
| `DynamicThreads.QuiesceReturns` | async/concurrent/blocking_work_queue.h:284-307 | from everywhere Quiesce can be called and comes back with no thread and no task left |
| `AsyncValues.RunInv` | async/context/async_value.cpp:59-121 | the word shows the waiters enqueued so far, each once, until it becomes available and empty |
| `AsyncValues.AvailableIsFinal` | async/context/async_value.cpp:64-73 | an available word has an empty list and never changes again |
| `AsyncValues.NeverEarlyNorTwice` | async/context/async_value.cpp:75-121 | no waiter runs twice or before the value is available |
| `AsyncValues.EveryWaiterRunsOnce` | async/context/async_value.h:733-746 | when no step is left every AndThen waiter has run exactly once |
| `AsyncValues.LastEnqueuedRunsFirst` | async/context/async_value.cpp:75-83 | the waiters found in the list run in the reverse order of their enqueueing |
| `AsyncValues.StateIsResolved` | async/context/async_value.cpp:59-73 | the state is the one the value was created with until the exchange, and for ever after the one that was resolved to |
| `AsyncValues.RunsComplete` | async/context/async_value.cpp:59-121 | every run can be continued until nothing is left to do; then the value is available, in the state resolved to, and every waiter has run exactly once |
| `RunWhenReady.CalleeOnceAndNotEarly` | async/context/host_context.cpp:151-190 | the callee runs at most once and only with every listed value available, duplicates allowed; a pending waiter never finds the shared counter freed |
| `RunWhenReady.CalleeRuns` | async/context/host_context.cpp:151-190 | when nothing is left to do the callee has run exactly once and the shared counter is freed |
| `RunWhenReady.CallUndisturbed` | async/context/host_context.cpp:151-190 | an undisturbed call gives a waiter to exactly the listed values that are not available, once for each time they are listed, and calls the callee at once if and only if there is none |
| `RunWhenReady.RunsComplete` | async/context/host_context.cpp:151-190 | every run can be continued until nothing is left to do, and then the callee has run exactly once |
| `Forwarding.RunInv` | async/context/async_value.cpp:152-179 | reference counts equal owners, available indirect values point at concrete ones, in every reachable heap |
| `Forwarding.ChainsCollapse` | async/context/async_value.cpp:152-169 | an available indirect value points directly at the end of its chain, of any length, with its state, type and payload |
| `Forwarding.ChainsResolve` | async/context/async_value.cpp:170-178 | once no callback is left to fire, every value whose chain ends in an available one is available |
| `Forwarding.ValueIsResolved` | async/context/async_value.cpp:59-73 | a concrete value is resolved at most once and from then on has, for good, the state and payload it was resolved to |
| `Forwarding.ChainsArrive` | async/context/async_value.cpp:152-179 | every run can be continued by its callbacks alone until none is left; then every value whose chain ends in an available one reads that value's payload, with its state and type |
| `Forwarding.HoldersCanAct` | async/context/async_value.cpp:152-179 | whoever holds a reference can take another, drop it, and forward an indirect value not yet forwarded; a callback whose target is available can fire |
| `Forwarding.ReferencesConserved` | async/context/async_value.h:626-655 | the count is the number of owners, a value is destroyed exactly when it has none, and nothing still needed is destroyed |
| `Dataflow.ErrorsFlow` | async/runtime/graph.cpp:558-571 | an error argument becomes every result of the node |
| `Dataflow.ErrorsReachDescendants` | async/runtime/graph.cpp:562-571 | an error reaches every register downstream |
| `Dataflow.EvaluationIsSolution` | async/runtime/graph.cpp:540-571 | in the sequential evaluation the outputs of a node are what its kernel makes of its inputs, in their order, if none is in error, and otherwise the error of the last input that is |
| `Dataflow.SolutionIsEvaluation` | async/runtime/graph.cpp:540-571 | these equations determine the value of every register |
| `GraphBuild.ProcessName` | async/runtime/graph.cpp:70-84 | counts one more occurrence and numbers a new name with the next number |
| `GraphBuild.ScanNodes` | async/runtime/graph.cpp:149-164 | the first pass counts, numbers, lists the users and finds the last producer of every name |
| `GraphBuild.UserRows` | async/runtime/graph.cpp:167-176 | the user table of a node lists the users of each result in increasing order |
| `GraphBuild.ReadyCounters` | async/runtime/graph.cpp:173-182 | the counter of every last producer is its number of inputs; other counters stay zero |
| `GraphBuild.UseCounts` | async/runtime/graph.cpp:185-190 | each register's use count is the occurrences of its name less one |
| `GraphBuild.OutputNames` | async/runtime/graph.cpp:193-198 | exactly the names with use count zero, each once |
| `GraphBuild.AsyncGraph.Emplace` | async/runtime/graph.cpp:202-209 | appends the node with its names, its function and its function name, and leaves the tables alone |
| `GraphBuild.AsyncGraph.BuildGraph` | async/runtime/graph.cpp:134-200 | the tables describe the nodes |
| `GraphBuild.UsesAreUsers` | async/runtime/graph.cpp:185-190 | in a well-formed graph the use count is the number of nodes that take the name |
| `GraphBuild.NumberedUsers` | async/runtime/graph.cpp:173-176 | numbering the names keeps the users of each |
| `GraphBuild.BuildsWellFormed` | async/runtime/graph.cpp:134-200 | a well-formed graph of names becomes a well-formed graph of registers |
| `GraphBuild.BuiltTables` | async/runtime/graph.cpp:165-190 | what the executor is given: use counts are user counts and ready counters are input counts |
| `SubGraphs.NameNodeMap` | async/runtime/graph.cpp:109-113 | maps every name to its last producer |
| `SubGraphs.SubGraph` | async/runtime/graph.cpp:100-132 | terminates and copies, each once, exactly the nodes the requested outputs transitively depend on, with their functions: the least closed set |
| `SubGraphValues.SubWellNamed` | async/runtime/graph.cpp:100-132 | the sub-graph of a non-empty request is well-formed again |
| `SubGraphValues.SolutionsAgree` | async/runtime/graph.cpp:100-132 | two consistent assignments, one of the graph and one of the sub-graph, agree on the outputs of every picked node |
| `SubGraphValues.SubGraphSameValues` | async/runtime/graph.cpp:100-132 | each requested output evaluates to the same value in the sub-graph, built anew, as in the full graph |
| `SubGraphValues.SubGraphUses` | async/runtime/graph.cpp:185-190 | an argument is used in the sub-graph exactly if some picked node takes it |
| `GraphProofs.MissingRelease` | async/runtime/graph.cpp:425-435 | releasing a register to its next user lowers the inputs that user misses by exactly one |
| `GraphProofs.InputsAvailable` | async/runtime/graph.cpp:558-563 | a kernel that is ready finds every input released, with the value of the sequential evaluation |
| `GraphProofs.ProcessedResults` | async/runtime/graph.cpp:540-571 | processing a ready kernel yields the results of the sequential evaluation, whose meaning the equations of Dataflow give, and calls its function exactly if no input is an error |
| `GraphProofs.NextInv` | async/runtime/graph.cpp:425-588 | every step keeps counters, values and owned references as the invariant says |
| `GraphRuns.ProcessedOnceWhenReady` | async/runtime/graph.cpp:518-588 | in every interleaving each kernel is processed at most once, the start node never, and only with all inputs available |
| `GraphExecutor.CanStart` | async/runtime/graph.cpp:378-398 | every well-formed graph has a start state, whether or not all its arguments are used |
| `GraphRuns.ReferencesExact` | async/runtime/graph.cpp:378-398 | in every reachable state a filled register owns exactly one reference per user that has not dropped its own, or the one of the caller for a result, and an empty one owns none |
| `GraphRuns.NothingReleasedEarly` | async/runtime/graph.cpp:558-587 | a filled register, pending arguments included, owns a reference as long as some user has not dropped its own |
| `GraphRuns.OutputsOwned` | async/runtime/graph.cpp:400-408 | an output owns the one reference the caller is given if and only if it is not an argument |
| `GraphRuns.QuiescentIsSequential` | async/runtime/graph.cpp:418-588 | when nothing is left to do every kernel was processed once, its function called exactly if no input is an error, every register equals the sequential evaluation, and only the results are still owned, once each |
| `GraphRuns.QuiescentSolvesNode` | async/runtime/graph.cpp:540-571 | when nothing is left to do the registers of every node satisfy its equation: the kernel applied to its argument registers in order, or the error of the last one that is in error |
| `GraphRuns.RunsEnd` | async/runtime/graph.cpp:418-588 | every run is finite: it takes no more steps than the work of its first state |
| `GraphRuns.RunsComplete` | async/runtime/graph.cpp:418-588 | every run can be continued until nothing is left to do, and then every register equals the sequential evaluation |
| `RegisterSlot.ReadersAgree` | async/runtime/graph.cpp:33-49 | all readers of a slot, whenever they read, get the one pointer that stays in it |
| `RegisterSlot.LateReadersTake` | async/runtime/graph.cpp:33-35 | a reader that comes when the slot is filled takes what it finds and makes no placeholder |
| `RegisterSlot.EverybodyFinishes` | async/runtime/graph.cpp:33-68 | every run can be continued until the register is filled and every reader has the one pointer in it |
| `RegisterSlot.SlotOwnership` | async/runtime/graph.cpp:33-68 | the references on result and placeholders when everybody is done; only the installed placeholder is forwarded, once |
| `RegisterSlot.PlaceholderFromRace` | async/runtime/graph.cpp:33-49 | a placeholder is in the slot exactly if some reader's compare-exchange succeeded on the empty slot |
| `RegisterSlot.OwnershipExact` | async/runtime/graph.cpp:33-68 | a filled register owns exactly what its uses and the caller will drop if and only if nobody uses it or no reader won that race; otherwise it owns one more |
| `RegisterSlot.FilledBeforeRead` | async/runtime/graph.cpp:51-68 | if no reader looks before the register is filled the count is exact |
| `RegisterSlot.EarlyReaderLeaks` | async/runtime/graph.cpp:33-68 | a concrete run in which a reader is faster and one reference is left over |
| `TaskGraphs.TaskNode.AddDependency` | async/runtime/task_graph.cpp:12-15 | appends the edge to both lists, also on itself |
| `TaskGraphs.TaskNode.AddSuccessor` | async/runtime/task_graph.cpp:17-20 | appends the edge to both lists, also on itself |
| `TaskGraphs.AddEdge` | async/runtime/task_graph.cpp:12-20 | either way keeps every edge in both lists, as often |
| `TaskGraphs.BuildGraph` | async/runtime/task_graph.cpp:24-29 | the index of every node and its number of dependencies |
| `TaskGraphs.EdgesMatch` | async/runtime/task_graph.cpp:24-29 | the indexed edge lists agree, duplicates included |
| `TaskGraphs.RunInv` | async/runtime/task_graph.cpp:36-80 | each counter is the number of edges not yet released, duplicates included; the total counts the unfinished nodes |
| `TaskGraphs.RunsAtMostOnce` | async/runtime/task_graph.cpp:67-80 | in every interleaving every node runs at most once |
| `TaskGraphs.RunsAfterDependencies` | async/runtime/task_graph.cpp:67-80 | a node that has started did so after the functions of all its dependencies returned |
| `TaskGraphs.ChainSetAfterAll` | async/runtime/task_graph.cpp:71-79 | the finish chain is set at most once and only after the function of every node returned |
| `TaskGraphs.EverythingRuns` | async/runtime/task_graph.cpp:51-100 | when nothing is left to do every node has run exactly once and the finish chain is set |
| `TaskGraphs.RunsEnd` | async/runtime/task_graph.cpp:51-100 | every run is finite: it takes no more steps than the work of its first state |
| `TaskGraphs.RunsComplete` | async/runtime/task_graph.cpp:51-100 | every run can be continued until nothing is left to do; then every node has run exactly once and the finish chain is set |

## Left out

- C++ memory orders, fences and alignment: steps are sequentially consistent.
- Liveness under fair scheduling and timeouts: what is proved is that runs can be continued to their end, that undisturbed calls return, and for graphs, task graphs, register slots and workers that every step brings the end closer.
- TaskQueue positions are unbounded; at the 2^32 wrap the model says when and how a step of the 32-bit code differs, not what the queue does afterwards.
- Concurrent use of TaskDeque::PopBackHalf: nothing calls it; it is modelled sequentially.
- TaskDeque: the emptiness test of PopBack may answer yes at any time in the machine; when its answer can be relied on is the subject of TaskDequeSize.
- PoolShutdown: queue operations and emptiness tests are single steps; the event count is an abstract one that does what EventCountSignals proves of the real one; Cancel and Quiesce are not modelled; external threads submit only before mDone, and the destructor starts only when none of them is inside AddTask, as async/concurrent/non_blocking_work_queue.h:104-111 demands.
- DynamicThreads: thread objects and the lazy removal of finished ones are left out; waits may end at any time.
- GraphExecutor: kernels are functions of their argument values; a result's becoming available and the filling of its slot are one step; the first argument is available at the start, since async/runtime/graph.cpp:484-485 releases its users without looking at its state.
- PackedEventCount: runs in which a waiter is pushed more than 2^22 times between one load and its compare-exchange are not followed further.
- RegisterSlot: one register at a time; what the placeholder does afterwards is the subject of Forwarding.
- Forwarding: one call of ForwardTo, one callback, one DropRef with the destruction it causes, are single steps; the waiter list itself is the subject of AsyncValues.
- AsyncValues: the payload and the destruction of waiter nodes are left out.
- VictimScan: random numbers are parameters; what a queue answers is a function of step and queue.
- Worker tasks run to completion before their worker takes another step of its own, except for tasks they submit.
- TaskPriorityDeque under concurrency; TaskPriorityLockDeque; batch tasks; thread-local storage; coroutine queues and coroutine tasks.
- Text and protocol-buffer dumps, tracing, resource management, templates and other plumbing.
