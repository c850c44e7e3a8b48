# Concurrency, coroutines and data formats: a verified model

The repository is a collection of C++ components: a work-stealing thread pool with a fork/join quicksort, a
scheduler for delayed tasks, coroutine tasks with promises, awaiters and executors, a JSON parser and generator,
parallel lookups with shared counters, a tagged small-buffer `any`, parser combinators and a generator. This project
models those components in Dafny and proves what they promise. `dafny verify dfyconfig.toml` checks all of it.

Concurrent components are step systems: a step is one stretch of code between two points at which other threads can
interfere, a schedule is any sequence of enabled steps, and the main theorems are about every schedule. Beside each
step system stands the class whose methods run under the locks; its contracts use the same functions as the steps.

| file | what it holds |
|---|---|
| `WorkQueues`, `ParallelSort`, `ParallelSortSafety`, `ParallelSortProgress`, `ParallelSortTheorems`, `ParallelSortHelping`, `ParallelSortRuns`, `SequentialSort` | the pool's queues, the fork/join quicksort on them, the sequential sort |
| `DelayHeap`, `DelayScheduler`, `DelayTheorems`, `DelayRuns` | the heap of delayed tasks, the scheduler's loop with a clock, and what it guarantees |
| `Completion`, `Coroutines`, `CoroutineProofs`, `CoroutineRuns`, `Looper` | one promise with many threads; trees of tasks and their direct-style meaning; the looper |
| `Json`, `JsonParsing`, `JsonLayout`, `JsonRoundTrip`, `JsonTexts` | values, parser, texts with whitespace, generator and round trip, texts written out |
| `Lookup`, `LookupCounters` | binary search, the partition by residue, the two shared counters |
| `TaggedAny` | the tagged word, lifetimes of inline and heap objects, value semantics |
| `Combinators`, `LookAhead` | parser combinators; the look-ahead generator and the Fibonacci sequence |
| `Options`, `Sums`, `Ordering`, `Words` | shared vocabulary |

## Assumptions

- Atomics are sequentially consistent, and a region under a lock is one step unless the step system splits it.
- Pool: a failed `try_to_lock` shows as a worker that takes from a later source, or as an idle step. The element order
  is a strict order; `std::partition` may leave each part in any order. Workers run from the start and the pool is not
  destroyed while a sort is running, so no submission is refused.
- Scheduler: a timeout is reported only when the model clock has reached the deadline; a notification that finds the
  worker waiting wakes it, and a worker that was woken may still report a timeout; the clock never goes back. Between a
  push or a clear and its notification other threads may run. `is_active` is read and the queue tested in one step at the
  head of the loop.
- Promise: a callback does not call back into the same promise while `return_value` holds the lock. Spurious wakes are
  steps.
- Coroutines: the resuming executors defer (looper, new thread, pool) and accept what they are given. Frames stay alive.
  A sleep is a timer that the scheduler may run once its time has come; which task it runs first is the subject of
  `DelayScheduler`.
- Lookups: fewer than 2^31 targets; `int` is 32 bits and `size_t` 64 bits wide.
- `any`: addresses of `type_info` are multiples of four, and different types have different addresses.

## Where the code does less than it means to

- Scheduler: `execute` releases the lock before it notifies. If the deadline passes in between, after a push that is due
  earlier, `pop()` removes the new entry while the worker runs its copy: the new task is lost and the old one runs again.
  `DelayTheorems.PopRemovesTheCopy` says exactly when `pop()` removes the copy; `ConservedExactly`, `StartedOnceExactly` and
  `OrderedExactly` say exactly when all tasks are accounted for, start at most once, and start in the order of their times;
  `LateNotificationIsReachable` gives the schedule. If no timeout overtakes a notification none of this happens
  (`DelayTheorems.PromptRuns`).
- Scheduler: `shutdown(false)` while the worker sleeps for a task, followed by the timeout, or between the timeout and the
  `pop()`, makes `pop()` find the queue empty (`DelayTheorems.PopOnEmptyQueueIsReachable`); nothing else does
  (`DelayTheorems.PopRemovesTheCopy`).
- Promise: `get_result` tests for the result with `if`, so a spurious wake before completion makes it read an empty result,
  and nothing else does (`Completion.FaultsExactly`).
- JSON: whitespace inside an empty pair of brackets makes the parser throw (`JsonRoundTrip.LayoutExactly`: exactly then).
  Negative numbers, numbers beyond `int` and strings with a quote are generated but not read back
  (`JsonRoundTrip.RoundTripExactly`: values come back if and only if they have none of these).
- Strided lookup: for any number of parts the reader returns the right count and is not left spinning, if and
  only if the number of parts divides 2^64 minus the number of targets and is less than the period of the decrement modulo
  2^32 (`LookupCounters.ReliableExactly`). Three parts for three targets spin for ever; with 43691 parts for 2^30 targets
  the reader can return four parts too early.
- `any`: move assignment drops what the target held, and a move construction clears the storage of an inline object
  without destroying it. A program that destroys all its `any` objects destroys every stored object exactly once if and
  only if it does neither (`TaggedAny.DestroyedExactlyOnce`). It leaves a value undestroyed if and only if it move-assigns
  over a stored object, inline or on the heap (`ValuesLeakExactly`), and a heap block allocated if and only if it
  move-assigns over a content on the heap (`BlocksLeakExactly`).
- Combinators: `foldL` over a parser that leaves a suffix of its input returns from every input if and only if the parser
  consumes strictly (`Combinators.EndsEverywhereExactly`). `option` never fails, so over it `foldL` returns from no input
  (`Combinators.DefaultNeverEnds`).

## Model

| member | source | states |
|---|---|---|
| `WorkQueues.SweepVisitsEveryOtherOnce` | executor/ThreadPool.h:189-197 | the steal sweep goes up from the worker's own index and on from 0, probes every other worker exactly once and never the worker itself |
| `WorkQueues.ThreadSafeQueue.constructor` | executor/ThreadPool.h:84-84 | a new deque is empty |
| `WorkQueues.ThreadSafeQueue.Push` | executor/ThreadPool.h:25-38 | the job becomes the newest |
| `WorkQueues.ThreadSafeQueue.TryPop` | executor/ThreadPool.h:49-56 | takes the oldest job, or nothing when the lock was not acquired or the deque is empty, and then changes nothing |
| `WorkQueues.ThreadSafeQueue.TrySteal` | executor/ThreadPool.h:57-64 | the same for the newest job |
| `WorkQueues.ThreadPool.constructor` | executor/ThreadPool.h:110-122 | n separate empty deques and an empty shared queue |
| `WorkQueues.ThreadPool.Submit` | executor/ThreadPool.h:160-170 | refused exactly for an empty function or a stopped pool; otherwise one queue, chosen by the caller's index, grows at its back and no other changes |
| `WorkQueues.ThreadPool.ProbeVictim` | executor/ThreadPool.h:192-194 | one probe removes the newest job of that queue and touches no other queue; with the lock acquired it fails only on an empty queue |
| `WorkQueues.ThreadPool.PopFromOtherQueues` | executor/ThreadPool.h:189-197 | steals from the first queue in sweep order that is neither locked nor empty; if it comes back empty-handed, every queue it could lock was empty and nothing changed |
| `WorkQueues.ThreadPool.FetchPendingTask` | executor/ThreadPool.h:175-184 | own queue before shared queue before theft, theft only if enabled; a later source only if the earlier ones were locked or empty; nothing is lost or duplicated |
| `SequentialSort.Exchange` | executor/test_threadpool.cpp:18-19 | exchanging two elements keeps the rest and the multiset |
| `SequentialSort.PartitionInPlace` | executor/test_threadpool.cpp:18-19 | the in-place partition permutes the array and splits it into elements that precede the pivot and elements that do not |
| `SequentialSort.SeqQuickSort` | executor/test_threadpool.cpp:12-27 | the result is a sorted permutation of the input |
| `Ordering.SortedJoin` | executor/test_threadpool.cpp:66-78 | joining the sorted parts around the pivot gives a sorted permutation of the whole |
| `Ordering.SortedUnique` | executor/test_threadpool.cpp:12-27 | for a total order the sorted permutation is unique, so parallel and sequential sort agree |
| `ParallelSortSafety.InitInv` | executor/test_threadpool.cpp:81-81 | the invariant holds of a pool of idle workers |
| `ParallelSortSafety.StackOkLater` | executor/test_threadpool.cpp:51-79 | what is known of a call stack survives submissions by other threads |
| `ParallelSortSafety.SubmitInv` | executor/test_threadpool.cpp:38-44 | a request from outside keeps the invariant |
| `ParallelSortSafety.TakeInv` | executor/ThreadPool.h:175-184 | a worker that helps while it waits, or polls while idle, keeps the invariant, whichever queue it takes from |
| `ParallelSortSafety.ForkStack` | executor/test_threadpool.cpp:56-70 | the forked frame and the call for the higher half link up: the child is the lower part and was issued after its parent started |
| `ParallelSortSafety.ForkInv` | executor/test_threadpool.cpp:56-70 | partitioning and submitting the lower half keeps the invariant |
| `ParallelSortSafety.InlineInv` | executor/test_threadpool.cpp:70-70 | the return of the inline call for the higher half keeps the invariant |
| `ParallelSortSafety.JoinInv` | executor/test_threadpool.cpp:72-78 | reading the flag and splicing the parts gives a sorted permutation of the frame's input |
| `ParallelSortSafety.PublishInv` | executor/test_threadpool.cpp:65-68 | storing a result under its flag keeps the invariant |
| `ParallelSortSafety.StepInv` | executor/test_threadpool.cpp:51-79 | every step of every thread keeps the invariant |
| `ParallelSortSafety.RunInv` | executor/test_threadpool.cpp:51-79 | so does every schedule |
| `ParallelSortSafety.EveryScheduleSorts` | executor/test_threadpool.cpp:51-79 | on every schedule with any number of workers, nested helping and stealing, every published result is a sorted permutation of the job's input |
| `ParallelSortProgress.StepTotal` | executor/test_threadpool.cpp:51-79 | for any weights of jobs and frames, a step changes the total by exactly what it creates minus what it removes |
| `ParallelSortProgress.StepWork` | executor/test_threadpool.cpp:51-79 | each step that is not idle uses up exactly one unit of work |
| `ParallelSortProgress.RunWork` | executor/test_threadpool.cpp:51-79 | over a schedule, work left plus steps made equals work requested |
| `ParallelSortProgress.WorkNonNegative` | executor/test_threadpool.cpp:51-79 | work is never negative, and without work all queues and stacks are empty |
| `ParallelSortProgress.InitConserved` | executor/ThreadPool.h:110-122 | at the start no job is anywhere |
| `ParallelSortProgress.QueuedStep` | executor/ThreadPool.h:160-197 | a job enters the queues only when issued and leaves them only when taken |
| `ParallelSortProgress.RunningStep` | executor/test_threadpool.cpp:65-68 | a job is on a stack from the moment it is taken until it publishes |
| `ParallelSortProgress.StepConserved` | executor/ThreadPool.h:160-197 | a step keeps every issued job in exactly one place: queued, running or finished |
| `ParallelSortProgress.RunConserved` | executor/ThreadPool.h:160-197 | so does every schedule |
| `ParallelSortTheorems.EachJobStartsAtMostOnce` | executor/ThreadPool.h:175-197 | no job is taken twice, with owner pops and steals going on at the same time |
| `ParallelSortTheorems.ChildStartedLater` | executor/test_threadpool.cpp:72-74 | the child a worker waits for, if it is running, runs under a top frame that started later than the waiting one |
| `ParallelSortTheorems.WorkerMoves` | executor/test_threadpool.cpp:51-79 | a worker is stuck only when its top frame waits for an unset flag and there is nothing for it to take |
| `ParallelSortTheorems.SomeWorkerMoves` | executor/test_threadpool.cpp:72-74 | in every state with the invariants and an unfinished job some worker has a step other than polling |
| `ParallelSortTheorems.DeadlockFree` | executor/test_threadpool.cpp:72-74 | no deadlock: for n >= 1 workers, in every reachable state with an unfinished job some worker can do work |
| `ParallelSortHelping.QueuesHome` | executor/ThreadPool.h:160-197 | no step puts a waiting frame's child into another queue than its own worker's |
| `ParallelSortHelping.RunHome` | executor/test_threadpool.cpp:65-74 | on every schedule a child is queued with its parent's worker or not at all; without stealing it also runs there, above its parent |
| `ParallelSortHelping.WaitedForChild` | executor/test_threadpool.cpp:72-74 | the child a top frame waits for is finished, or queued with the same worker, which can take from its own queue, or - only with stealing - running under a top frame that started later |
| `ParallelSortHelping.BusyWorkerMoves` | executor/test_threadpool.cpp:72-74 | without stealing every worker with a frame on its stack can go on by itself |
| `ParallelSortTheorems.NoWorkMeansDone` | executor/test_threadpool.cpp:51-79 | the measure is 0 if and only if every issued job is finished |
| `ParallelSortTheorems.WorkIsExact` | executor/test_threadpool.cpp:51-79 | a list of n elements costs exactly 6n + 3 working steps on every schedule: all jobs are finished if and only if that many were made, and as long as fewer were made another one can be made |
| `ParallelSortTheorems.DoSortResult` | executor/test_threadpool.cpp:31-48 | for a request made at any moment: when its flag is seen its result is a sorted permutation of the input and, for a total order, equal to what the sequential sort returns |
| `ParallelSortTheorems.TakeFifo` | executor/ThreadPool.h:187-188 | without stealing, a take removes the oldest job left of its queue |
| `ParallelSortTheorems.QueuesAreFifo` | executor/ThreadPool.h:49-64 | every queue is always in submission order, and with stealing off the jobs of each queue start first in, first out |
| `ParallelSortRuns.RunPendingTask` | executor/ThreadPool.h:175-197 | an idle or a waiting worker: what it fetches, for whatever locks it gets, is a step of the step system, with the job on top of its stack; without a job nothing changes |
| `ParallelSortRuns.FetchFrom` | executor/ThreadPool.h:175-197 | every take the step system allows is what the pool does for some outcome of the locks |
| `ParallelSortRuns.SubmitJob` | executor/ThreadPool.h:160-170 | a request from outside and a lower half from a worker go to the queue that the step system says |
| `ParallelSortRuns.ForkAnyOrder` | executor/test_threadpool.cpp:58-61 | whatever order `std::partition` leaves in its two parts, they can be the parts of a fork |
| `ParallelSortRuns.OldestOrNewest` | executor/ThreadPool.h:49-64 | an owner and the shared queue give the job submitted first, a thief gets the one submitted last |
| `ParallelSortRuns.RequestsQueueUp` | executor/ThreadPool.h:160-166 | any number of requests can be made before a worker looks; they queue up in their order |
| `ParallelSortRuns.StealIsReachable` | executor/ThreadPool.h:189-197 | with stealing, for any two workers: some schedule lets one of them run the child that the other one forked and still works beside |
| `ParallelSortRuns.CanFinish` | executor/test_threadpool.cpp:51-79 | from every reachable state all jobs can be finished |
| `ParallelSortRuns.IntegersAscend` | executor/test_threadpool.cpp:31-79 | whatever a request for a list of integers gives is the list in ascending order |
| `ParallelSortRuns.IntegersGetSorted` | executor/test_threadpool.cpp:31-79 | and some schedule of any number of workers gives it |
| `DelayHeap.SiftUpHeap` | coroutine/include/6sleep/scheduler.h:43-43 | sifting up with a strict comparison repairs the heap; a tie does not displace the root |
| `DelayHeap.EarlierChild` | coroutine/include/6sleep/scheduler.h:43-43 | the child that is due first, if there is one |
| `DelayHeap.SiftDownHeap` | coroutine/include/6sleep/scheduler.h:43-43 | sifting down repairs the heap |
| `DelayHeap.RootIsEarliest` | coroutine/include/6sleep/scheduler.h:31-33 | the top of the queue is due no later than any entry: the reversed comparison makes the maximum the earliest |
| `DelayHeap.PushProperties` | coroutine/include/6sleep/scheduler.h:89-89 | a push adds the entry, and it becomes the top only if it is due strictly earlier |
| `DelayHeap.PopProperties` | coroutine/include/6sleep/scheduler.h:66-66 | a pop removes exactly the top |
| `DelayHeap.PriorityQueue.constructor` | coroutine/include/6sleep/scheduler.h:43-43 | a new queue is empty |
| `DelayHeap.PriorityQueue.Add` | coroutine/include/6sleep/scheduler.h:89-89 | the loop of the push computes `Push` |
| `DelayHeap.PriorityQueue.RemoveTop` | coroutine/include/6sleep/scheduler.h:66-66 | the loop of the pop computes `Pop` |
| `DelayScheduler.PushedWorker` | coroutine/include/6sleep/scheduler.h:84-93 | an entry that displaces the top the worker sleeps for comes with a notification |
| `DelayScheduler.PushInv` | coroutine/include/6sleep/scheduler.h:84-93 | a push in any phase of the worker keeps the invariant |
| `DelayScheduler.RunRootInv` | coroutine/include/6sleep/scheduler.h:58-68 | running the root keeps starts punctual and the account of entries balanced |
| `DelayScheduler.RunOtherInv` | coroutine/include/6sleep/scheduler.h:58-68 | running the copy while another entry is removed leaves one entry in excess and one missing, the missing one due strictly earlier |
| `DelayScheduler.StepInv` | coroutine/include/6sleep/scheduler.h:48-111 | every step of every thread keeps the invariant: the lock is released between the copy and the pop, between a push and its notification, and between a clear and its notification |
| `DelayScheduler.RunInv` | coroutine/include/6sleep/scheduler.h:48-111 | so does every run |
| `DelayScheduler.Scheduler.constructor` | coroutine/include/6sleep/scheduler.h:74-77 | a new scheduler is active and has no tasks |
| `DelayScheduler.Scheduler.Execute` | coroutine/include/6sleep/scheduler.h:84-93 | queues the task for its delay, if positive, after the second look at the clock; notifies if and only if the queue was empty or its top was due later than that delay after the first look; refused once inactive |
| `DelayScheduler.ExecuteSteps` | coroutine/include/6sleep/scheduler.h:84-93 | the steps of an execute queue and notify as `Scheduler.Execute` does |
| `DelayScheduler.Scheduler.InspectTop` | coroutine/include/6sleep/scheduler.h:58-67 | a top that is not due is copied and waited for until it is due; a due one is removed and run; as `Inspect` does in the step system |
| `DelayScheduler.Scheduler.PopTop` | coroutine/include/6sleep/scheduler.h:66-68 | removes the top and runs the copy, as `RunCopy` does in the step system |
| `DelayScheduler.Scheduler.ShutDown` | coroutine/include/6sleep/scheduler.h:96-104 | inactive; the queue is emptied if and only if completion is not waited for |
| `DelayTheorems.StartsAreOnTime` | coroutine/include/6sleep/scheduler.h:58-68 | on every schedule no task starts before its scheduled time |
| `DelayTheorems.NoLostNotification` | coroutine/include/6sleep/scheduler.h:50-65 | when no notification is on its way, a worker that sleeps without a limit has an empty queue, and one that sleeps with a limit sleeps for an earliest entry |
| `DelayTheorems.RunInterfered` | coroutine/include/6sleep/scheduler.h:58-67 | the copy is the root as long as nothing interfered, and never again afterwards |
| `DelayTheorems.PopRemovesTheCopy` | coroutine/include/6sleep/scheduler.h:58-67 | `pop()` removes the entry the worker runs if and only if, since it was copied, no entry due strictly earlier was pushed and the queue was not cleared; it finds the queue empty if and only if the queue was cleared |
| `DelayTheorems.ConservedExactly` | coroutine/include/6sleep/scheduler.h:58-68 | every accepted task is queued, started or dropped exactly once if and only if no pop removed another entry than the copy |
| `DelayTheorems.StartedOnceExactly` | coroutine/include/6sleep/scheduler.h:58-68 | only accepted tasks start, and each at most once if and only if none is started that a displacing pop had run and left in the queue |
| `DelayTheorems.OrderedExactly` | coroutine/include/6sleep/scheduler.h:31-68 | starts are in the order of scheduled times, including tasks submitted meanwhile, if and only if no task is started that an earlier pop had left queued although it was due before the copy which that pop ran |
| `DelayTheorems.StartsAreOrdered` | coroutine/include/6sleep/scheduler.h:31-68 | in particular if no pop leaves such an entry behind |
| `DelayTheorems.PromptRuns` | coroutine/include/6sleep/scheduler.h:58-93 | if no timeout overtakes a notification: `pop()` removes the copy unless the queue was cleared, no task is lost, none starts twice, all start in order |
| `DelayTheorems.DueEntryStarts` | coroutine/include/6sleep/scheduler.h:48-69 | a due entry in the queue is run by the worker without any further step of another thread |
| `DelayTheorems.DisplacedStartsTwice` | coroutine/include/6sleep/scheduler.h:58-68 | after every pop that displaced its copy the worker alone goes on to start the same task a second time |
| `DelayTheorems.OvertakenStartsLate` | coroutine/include/6sleep/scheduler.h:58-68 | after every pop that left an earlier entry behind its copy the next start is out of order |
| `DelayTheorems.SkippedIsGone` | coroutine/include/6sleep/scheduler.h:66-68 | an entry that was removed without being run never starts afterwards |
| `DelayTheorems.PopOnEmptyQueueIsReachable` | coroutine/include/6sleep/scheduler.h:61-66 | the schedule that pops from an empty queue, for every positive delay |
| `DelayTheorems.LateNotificationIsReachable` | coroutine/include/6sleep/scheduler.h:84-93 | the schedule in which one task starts twice and another one is lost, for every positive delay |
| `DelayRuns.AcceptedAreDueAfterTheirDelay` | coroutine/include/6sleep/scheduler.h:16-21 | over every run the accepted tasks are those pushed, in order, each due its delay, if positive, after its push |
| `DelayRuns.StartedIsStartsOf` | coroutine/include/6sleep/scheduler.h:66-68 | the log of starts is what the worker did, with the time it did it |
| `DelayRuns.WaitsUntilDue` | coroutine/include/6sleep/scheduler.h:58-61 | a timed wait ends when its task is due, up to the time that passed before it began |
| `DelayRuns.SleeperStartsTheCopy` | coroutine/include/6sleep/scheduler.h:58-68 | a worker that sleeps for a task starts it by itself at its deadline, if nothing interfered |
| `DelayRuns.ShutdownsAlone` | coroutine/include/6sleep/scheduler.h:84-104 | tasks are refused only after a shutdown, and thrown away only after one that does not wait for them |
| `DelayRuns.ShutdownSteps` | coroutine/include/6sleep/scheduler.h:96-104 | a shutdown that waits keeps the queue, one that does not throws it away; both notify |
| `DelayRuns.SpuriousWakes` | coroutine/include/6sleep/scheduler.h:50-65 | a spurious wake brings a sleeping worker back to the head of its loop; it may still report a timeout when its deadline has come |
| `DelayRuns.SleepsUntilWoken` | coroutine/include/6sleep/scheduler.h:50-65 | a sleeping worker is woken by a notification, by its deadline or spuriously, and by nothing else |
| `DelayRuns.TasksNeverOverlap` | coroutine/include/6sleep/scheduler.h:48-69 | over every run all tasks that started have finished, but for the one that is running |
| `DelayRuns.LeavesExactly` | coroutine/include/6sleep/scheduler.h:49-49 | the worker leaves its loop if and only if there was a shutdown and nothing is queued |
| `DelayRuns.TaskStartsWhenDue` | coroutine/include/6sleep/scheduler.h:48-93 | a single task, of any positive delay, is started exactly when it is due, on a schedule without late notifications |
| `Completion.RegisterCalls` | coroutine/include/6sleep/task_promise.h:43-52 | a registration before completion is stored, one after it becomes a pending late call with the stored result |
| `Completion.RunNextCalls` | coroutine/include/6sleep/task_promise.h:61-67 | the next callback in registration order runs with the stored result |
| `Completion.RunLateCalls` | coroutine/include/6sleep/task_promise.h:45-48 | a late callback runs outside the lock and is accounted for |
| `Completion.StepInv` | coroutine/include/6sleep/task_promise.h:24-52 | every step of every thread, spurious wakes included, keeps the accounts of callbacks and the state of waiters |
| `Completion.RunInv` | coroutine/include/6sleep/task_promise.h:24-52 | so does every run |
| `Completion.EveryCallbackRunsOnce` | coroutine/include/6sleep/task_promise.h:30-52 | each registered callback runs exactly once, with the one stored result; those registered before completion run first and in order |
| `Completion.WaitersMissNothing` | coroutine/include/6sleep/task_promise.h:36-42 | nobody sleeps once the result is stored; who returns has the stored result, and all callbacks registered before completion have run by then |
| `Completion.FaultsExactly` | coroutine/include/6sleep/task_promise.h:36-42 | a thread in `get_result` reads an empty result if and only if a spurious wake let it look before the result was stored |
| `Completion.CompletionSteps` | coroutine/include/6sleep/task_promise.h:30-35 | the steps of `return_value`, from storing the result to releasing the lock, together do what `Promise.Complete` does |
| `Completion.RegisteredAreRegistrations` | coroutine/include/6sleep/task_promise.h:43-52 | over every run the callbacks that must run are all that were registered, the early ones those before the first result |
| `Completion.LateCallbackRuns` | coroutine/include/6sleep/task_promise.h:43-48 | a callback registered when the result is there runs with it |
| `Completion.AskerReturns` | coroutine/include/6sleep/task_promise.h:36-42 | a thread that asks when the result is there returns it at once |
| `Completion.SleeperReturns` | coroutine/include/6sleep/task_promise.h:30-42 | a thread that asks before sleeps, is woken by the completion and returns the result |
| `Completion.SpuriousWakeFaults` | coroutine/include/6sleep/task_promise.h:36-42 | a spurious wake at any moment before the result is stored makes a thread that waits read an empty result |
| `Completion.CallbackAndWaiter` | coroutine/include/6sleep/task_promise.h:30-52 | a run in which a callback is registered, a thread waits, the result arrives and both get it |
| `Completion.Promise.constructor` | coroutine/include/6sleep/task_promise.h:54-59 | no result and no callbacks at first |
| `Completion.Promise.Complete` | coroutine/include/6sleep/task_promise.h:24-35 | stores the result and runs all callbacks registered so far, in order, with it |
| `Completion.Promise.NotifyCallbacks` | coroutine/include/6sleep/task_promise.h:61-67 | each callback once, in order, then none is left |
| `Completion.Promise.OnCompleted` | coroutine/include/6sleep/task_promise.h:43-52 | runs the callback at once if there is a result, else appends it |
| `CoroutineProofs.AdvanceAwaitOk` | coroutine/include/6sleep/task_awaiter.h:21-27 | suspending in an await keeps the meaning: what is left owes exactly the child's value |
| `CoroutineProofs.AdvanceCallOk` | coroutine/include/6sleep/task_promise.h:16-18 | creating a task keeps the meaning of its creator |
| `CoroutineProofs.ResumedOk` | coroutine/include/6sleep/task_awaiter.h:27-27 | a resume after an await continues with the direct-style value of the awaited task |
| `CoroutineProofs.StepCo` | coroutine/include/6sleep/task_promise.h:16-35 | after every step, what remains to be run of each coroutine evaluates to what the whole coroutine evaluates to |
| `CoroutineProofs.StepRegistered` | coroutine/include/6sleep/task_awaiter.h:21-24 | whoever awaits an unfinished task is registered there until it finishes |
| `CoroutineProofs.ReturnPending` | coroutine/include/6sleep/task_promise.h:30-35 | `return_value` moves every registered resume to an executor and loses none |
| `CoroutineProofs.StepPending` | coroutine/include/6sleep/task_promise.h:16-67 | a step adds one resume on its way for the suspension it begins and removes one for the suspension it ends |
| `CoroutineProofs.StepAccounted` | coroutine/include/6sleep/task_promise.h:16-67 | exactly the current suspensions have a resume on its way, and exactly one |
| `CoroutineProofs.StepGood` | coroutine/include/6sleep/task_promise.h:16-67 | every step keeps the invariant |
| `CoroutineProofs.RunGood` | coroutine/include/6sleep/task_promise.h:16-67 | so does every run |
| `CoroutineProofs.AsyncRefinesDirect` | coroutine/include/6sleep/task_promise.h:16-35 | on every schedule, a stored result is the value of the direct recursive evaluation of the body |
| `CoroutineProofs.ResumedAtMostOnce` | coroutine/include/6sleep/dispatch_awaiter.h:12-14 | each suspension is resumed at most once, and each that is not yet resumed has exactly one resume on its way |
| `CoroutineProofs.ReadyResumesRun` | coroutine/include/6sleep/task_awaiter.h:27-27 | a resume handed to an executor finds its coroutine suspended and the awaited result stored, so `await_resume` does not block |
| `CoroutineProofs.YoungestMoves` | coroutine/include/6sleep/task_awaiter.h:21-24 | the youngest unfinished coroutine waits for no other one |
| `CoroutineProofs.UnfinishedMoves` | coroutine/include/6sleep/task_promise.h:16-35 | while some task is unfinished a coroutine is active, a resume is queued or a timer is set, and that step can be made, the last one as soon as its time has come |
| `CoroutineProofs.StepWork` | coroutine/include/6sleep/task_promise.h:16-35 | every step but the start of a task uses up work |
| `CoroutineProofs.EveryScheduleEnds` | coroutine/include/6sleep/task_promise.h:16-35 | no schedule is longer than the sizes of the bodies that were started |
| `CoroutineRuns.SleepsThroughScheduler` | coroutine/include/6sleep/sleep_awaiter.h:14-17 | an executor holds the resume of a sleep only after the scheduler ran its timer, and not before its time; the resumes of starts, calls and awaits never go through the scheduler |
| `CoroutineRuns.SchedulesResumeOnce` | coroutine/include/6sleep/dispatch_awaiter.h:12-14 | no schedule resumes a suspension twice |
| `CoroutineRuns.NobodyIsHeldUp` | coroutine/include/6sleep/dispatch_awaiter.h:12-14 | in every reachable state a task can be started, an active coroutine can go on and a queued resume can be run |
| `CoroutineRuns.CanFinish` | coroutine/include/6sleep/task_promise.h:16-35 | from every reachable state all tasks can be finished |
| `CoroutineRuns.TaskReturns` | coroutine/include/6sleep/task_promise.h:16-35 | a task that was started can return, and returns its direct-style value |
| `CoroutineRuns.AwaitedValueReturns` | coroutine/include/6sleep/task_awaiter.h:21-27 | a coroutine that calls another one, sleeps, awaits the task and uses what it gets returns what it computes |
| `Looper.StepInv` | coroutine/include/6sleep/executor.h:44-60 | accepted functions are those started, queued and dropped, in this order; nothing is pushed after a clear |
| `Looper.RunInv` | coroutine/include/6sleep/executor.h:44-60 | the same over every run |
| `Looper.StartedIsPrefix` | coroutine/include/6sleep/executor.h:44-90 | executed functions form a prefix of the accepted ones and never overlap, even across `shutdown(false)` |
| `Looper.AcceptedAreSubmissions` | coroutine/include/6sleep/executor.h:73-90 | over every run what was submitted while the looper was active is accepted, in order; nothing is refused before a shutdown or dropped without a clear |
| `Looper.ShutdownSteps` | coroutine/include/6sleep/executor.h:82-90 | a shutdown can come at any moment; it keeps the queue, or clears it under the lock |
| `Looper.LeavesExactly` | coroutine/include/6sleep/executor.h:45-45 | the worker leaves its loop if and only if there was a shutdown and nothing is queued |
| `Looper.WorkerDrains` | coroutine/include/6sleep/executor.h:44-60 | a worker that has not left its loop runs everything that is queued, in order and without any other thread |
| `Looper.LooperExecutor.constructor` | coroutine/include/6sleep/executor.h:63-66 | a new looper is active and has nothing to run |
| `Looper.LooperExecutor.Execute` | coroutine/include/6sleep/executor.h:73-80 | appended if active, refused otherwise |
| `Looper.LooperExecutor.TakeFront` | coroutine/include/6sleep/executor.h:54-55 | the oldest function is removed |
| `Looper.LooperExecutor.Shutdown` | coroutine/include/6sleep/executor.h:82-90 | inactive; the queue is emptied if and only if completion is not waited for |
| `Json.InsertSorted` | application/json_parser.cpp:146-146 | assigning a member keeps the keys of an object strictly increasing |
| `Json.InsertBinds` | application/json_parser.cpp:146-146 | assigning a member rebinds its key and no other |
| `Json.AssignKeepsLast` | application/json_parser.cpp:132-155 | members assigned one after another give the map of last bindings |
| `Json.SortedMembersUnique` | application/json_parser.cpp:132-155 | objects with the same bindings are equal |
| `Json.SameLastBindingsSameObject` | application/json_parser.cpp:132-155 | only the last binding of each key matters, not the order of members |
| `JsonParsing.ParseValue` | application/json_parser.cpp:157-174 | a value that is parsed moves the cursor forward |
| `JsonParsing.NumberEnd` | application/json_parser.cpp:77-83 | the end of the number text |
| `JsonParsing.QuoteAfter` | application/json_parser.cpp:106-115 | the first quote at or behind the cursor |
| `JsonParsing.JsonParser.constructor` | application/json_parser.cpp:43-45 | the cursor starts at the beginning |
| `JsonParsing.JsonParser.SkipWhitespace` | application/json_parser.cpp:47-51 | moves the cursor over the six white characters of the C locale to the first other one |
| `JsonParsing.JsonParser.SkipChar` | application/json_parser.cpp:123-125 | moves the cursor over one expected separator if it is there |
| `JsonParsing.JsonParser.Word` | application/json_parser.cpp:53-75 | recognises a word at the cursor or returns nullopt |
| `JsonParsing.JsonParser.NumberText` | application/json_parser.cpp:77-104 | a natural number within `int`, or nullopt; the cursor behind it |
| `JsonParsing.JsonParser.StringText` | application/json_parser.cpp:106-115 | the text up to the next quote; the cursor behind it |
| `JsonParsing.JsonParser.ArrayText` | application/json_parser.cpp:116-130 | the loop computes `ParseItems` in every case, errors included |
| `JsonParsing.JsonParser.ObjectText` | application/json_parser.cpp:132-155 | the loop computes `ParseMembers` in every case, errors included |
| `JsonParsing.JsonParser.ValueText` | application/json_parser.cpp:157-174 | the dispatch computes `ParseValue` |
| `JsonParsing.JsonParser.Parse` | application/json_parser.cpp:177-184 | the whole parser computes `ParseText` |
| `JsonLayout.NumberEndAt` | application/json_parser.cpp:77-83 | the digits of a number are read as far as they go |
| `JsonLayout.ParseStringDoc` | application/json_parser.cpp:106-115 | a quoted text without quotes in it is read back |
| `JsonLayout.EmptyBrackets` | application/json_parser.cpp:118-118 | brackets without anything between them are an empty array or object; with spaces between them the parser throws |
| `JsonLayout.ParseItemsDoc` | application/json_parser.cpp:116-130 | items with any whitespace between tokens are read in order |
| `JsonLayout.ParseMembersDoc` | application/json_parser.cpp:132-155 | members with any whitespace between tokens are assigned in order |
| `JsonLayout.ParseArrayDoc` | application/json_parser.cpp:116-130 | the same for a whole array at any position of any text |
| `JsonLayout.ParseObjectDoc` | application/json_parser.cpp:132-155 | the same for a whole object |
| `JsonLayout.ParseDoc` | application/json_parser.cpp:157-174 | at any position of any text, a well-formed text with any whitespace parses to its meaning and exactly its characters are consumed, or the parser throws if an empty bracket has spaces in it |
| `JsonRoundTrip.DigitsOf` | application/json_parser.cpp:203-203 | the decimal digits of a natural number denote it |
| `JsonRoundTrip.Compact` | application/json_parser.cpp:194-245 | the generated text of a canonical value is a well-formed text without whitespace that means this value |
| `JsonRoundTrip.AssignSorted` | application/json_parser.cpp:233-245 | members written in key order are read back as the same object |
| `JsonRoundTrip.ParsedIsCanonical` | application/json_parser.cpp:157-174 | whatever the parser returns, for any text, is canonical |
| `JsonRoundTrip.RoundTripInside` | application/json_parser.cpp:157-174 | generated text is parsed back to the same value, consuming exactly that text, wherever it stands |
| `JsonRoundTrip.RoundTripExactly` | application/json_parser.cpp:177-249 | parsing undoes generating, whatever follows, if and only if the value is canonical |
| `JsonRoundTrip.LayoutExactly` | application/json_parser.cpp:47-184 | whitespace in front of a text and between its tokens changes nothing, and inside empty brackets it makes the parser throw |
| `JsonRoundTrip.MemberOrderIsIrrelevant` | application/json_parser.cpp:132-155 | object texts with the same last bindings parse to the same object |
| `JsonTexts.LayoutIndependence` | application/json_parser.cpp:47-184 | blanks, tabs, line feeds and carriage returns in front of a text and between its tokens change nothing, and inside empty brackets they make the parser throw |
| `JsonTexts.GoodFromParts` | application/json_parser.cpp:47-51 | a text is well-formed if and only if its tokens and its whitespace are |
| `JsonTexts.LiteralNames` | application/json_parser.cpp:53-75 | the three literal names are written and read as RFC 8259 has them |
| `JsonTexts.NumberTexts` | application/json_parser.cpp:77-104 | a row of digits is a number up to 2^31 - 1 and is not parsed beyond |
| `JsonTexts.IntegersThatReturn` | application/json_parser.cpp:77-104 | of all integers exactly those from 0 to 2^31 - 1 are read back |
| `JsonTexts.IntegerTexts` | application/json_parser.cpp:203-203 | the text of an integer is its decimal text, with a minus sign in front if it is negative |
| `JsonTexts.LessIsLexicographic` | application/json_parser.cpp:146-146 | keys are ordered by the first character in which they differ, and a beginning comes before the whole |
| `JsonTexts.ArrayTexts` | application/json_parser.cpp:222-232 | an array text grows by a comma and the text of the new item in front of the closing bracket |
| `JsonTexts.ObjectTexts` | application/json_parser.cpp:233-245 | an object text has quoted keys, colons and commas |
| `JsonTexts.BlankTexts` | application/json_parser.cpp:157-159 | a text of nothing but whitespace is read behind its end |
| `JsonTexts.UnknownWords` | application/json_parser.cpp:53-75 | a word other than the three literal names gives no value |
| `JsonTexts.NoValue` | application/json_parser.cpp:77-104 | a character that begins no value gives none, and inside an array makes the parser throw |
| `JsonTexts.NonStringKeys` | application/json_parser.cpp:136-140 | a key that is no string gives no value |
| `JsonTexts.UnclosedStrings` | application/json_parser.cpp:106-115 | a string without its closing quote is read behind its end, unless it is empty |
| `JsonTexts.UnclosedBrackets` | application/json_parser.cpp:116-155 | a text that ends behind an opening bracket is an empty array or object |
| `JsonTexts.FloatingTexts` | application/json_parser.cpp:77-92 | a point or an exponent among the digits |
| `JsonRoundTrip.DropLastComma` | application/json_parser.cpp:228-229 | removing the last comma of the loop leaves the separated list |
| `JsonRoundTrip.GenerateArray` | application/json_parser.cpp:222-232 | the loop with the removed comma writes the array text that the round trip is about |
| `JsonRoundTrip.GenerateObject` | application/json_parser.cpp:233-245 | the same for objects |
| `JsonRoundTrip.GenerateText` | application/json_parser.cpp:194-215 | the dispatch on the kind of value |
| `Lookup.SearchFinds` | coroutine/cache/prefetch.h:19-39 | an index of the value, or -1; on a sorted array -1 if and only if the value is absent |
| `Lookup.BinarySearch` | coroutine/cache/prefetch.h:19-39 | the loop computes `Search` on any array, sorted or not, and what it finds is the value |
| `Lookup.CountPart` | coroutine/test/prefetch_test1.cpp:28-38 | a part counts the targets of its residue that the search misses |
| `Lookup.MissesAreAbsent` | coroutine/test/prefetch_test1.cpp:28-38 | on a sorted array these are the absent targets |
| `Lookup.WindowCovers` | coroutine/test/prefetch_test1.cpp:28-38 | neighbouring residues cover every target exactly once |
| `Lookup.PartsAddUp` | coroutine/test/prefetch_test1.cpp:28-38 | the misses of all parts add up to those of all targets, for every number of parts |
| `LookupCounters.StepInv` | coroutine/test/prefetch_test1.cpp:71-81 | the miss counter holds the misses of the parts that added theirs; the countdown is determined by the number of parts that are done |
| `LookupCounters.RunInv` | coroutine/test/prefetch_test1.cpp:71-81 | the same over every interleaving |
| `LookupCounters.PartsAreIndependent` | coroutine/test/prefetch_test1.cpp:74-81 | no part waits for another one or for the reader, and the reader submits without waiting for any part |
| `LookupCounters.SingleExact` | coroutine/cache/prefetcht0.cpp:8-15 | counting down by one per target is exact |
| `LookupCounters.EndsAtZeroExactly` | coroutine/test/prefetch_test1.cpp:78-78 | after all parts the countdown is 0 if and only if their number divides 2^64 minus the number of targets |
| `LookupCounters.StridedAfter` | coroutine/test/prefetch_test1.cpp:78-78 | for 2^k parts that divide the targets, unsigned negation, division and truncation leave after each part the number of targets of the others |
| `LookupCounters.StridedExact` | coroutine/test/prefetch_test1.cpp:72-81 | for 2^k parts that divide the targets the countdown is 0 exactly when every part is done |
| `LookupCounters.PeriodExact` | coroutine/test/prefetch_test1.cpp:78-78 | a number of decrements is 0 modulo a power of two if and only if the period divides it |
| `LookupCounters.StridedExactly` | coroutine/test/prefetch_test1.cpp:72-81 | for every number of parts: the countdown is 0 when all parts are done and never before, if and only if that number divides 2^64 minus the targets and is less than the period of the decrement |
| `LookupCounters.SingleLookupCorrect` | coroutine/cache/prefetcht0.cpp:5-20 | on every interleaving the value returned is the number of targets the search misses; on a sorted array, of absent targets |
| `LookupCounters.StridedLookupCorrect` | coroutine/test/prefetch_test1.cpp:71-81 | for every number of parts with an exact countdown, on every interleaving the value read is the number of targets missed; on a sorted array, of absent targets |
| `LookupCounters.PowersOfTwoCountDown` | coroutine/test/prefetch_test1.cpp:72-81 | 2^k parts that divide the targets have an exact countdown |
| `LookupCounters.ReliableExactly` | coroutine/test/prefetch_test1.cpp:71-81 | for any number of parts: whatever is searched, on every schedule the reader returns the right count and is not left spinning, if and only if that number divides 2^64 minus the targets and is less than the period of the decrement |
| `LookupCounters.PollSucceeds` | coroutine/test/prefetch_test1.cpp:81-81 | with an exact countdown a poll ends the spinning if and only if every part is done |
| `LookupCounters.EarlyReturn` | coroutine/test/prefetch_test1.cpp:81-81 | if the countdown is 0 after as many parts as there are from a to n - 1, some schedule lets the reader return the misses of those parts alone |
| `LookupCounters.SpinsForEver` | coroutine/test/prefetch_test1.cpp:81-81 | if the countdown is not 0 when all parts are done, no step changes anything any more |
| `LookupCounters.ThreePartsNeverEnd` | coroutine/test/prefetch_test1.cpp:78-81 | three parts for three targets: a run after which the reader spins for ever |
| `LookupCounters.CountdownEndsEarly` | coroutine/test/prefetch_test1.cpp:78-81 | 43691 parts for 2^30 targets: a run in which the reader returns while four parts are missing, with too small a count if nothing can be found |
| `TaggedAny.WordDecodes` | meta/any.h:207-220 | the word decodes to the type address and the tag, is never the empty word, and says whether an object is stored |
| `TaggedAny.MadeInv` | meta/any.h:207-221 | construction from a value keeps the invariant |
| `TaggedAny.CopiedInv` | meta/any.h:223-234 | copying keeps the invariant: in particular the copy has an object of its own |
| `TaggedAny.MovedInv` | meta/any.h:236-247 | moving keeps the invariant: a heap object has one owner, and an inline one is left behind as a moved-from object |
| `TaggedAny.MoveSmall` | meta/any.h:239-246 | moving an inline object constructs a new one and clears the storage of the old one without destroying it |
| `TaggedAny.HandOverInv` | meta/any.h:257-263 | handing a storage over keeps the invariant: what the target held is accounted for as dropped |
| `TaggedAny.CopyAssignOrder` | meta/any.h:249-255 | copy and swap has the effect of destroying the target and copying into it |
| `TaggedAny.CopyAssignedInv` | meta/any.h:249-255 | copy assignment keeps the invariant |
| `TaggedAny.DestroyedInv` | meta/any.h:265-273 | destruction keeps the invariant: inline and heap objects are destroyed, every other `any` still owns its object |
| `TaggedAny.StepInv` | meta/any.h:201-297 | every operation keeps the invariant |
| `TaggedAny.StepValues` | meta/any.h:201-297 | every operation acts on the contents as on plain optional values |
| `TaggedAny.StepDrops` | meta/any.h:236-263 | the objects an operation leaves undestroyed are exactly those `Loses` names |
| `TaggedAny.RunInv` | meta/any.h:201-297 | invariant and plain values over every sequence of operations |
| `TaggedAny.RunLoss` | meta/any.h:201-297 | over every sequence of operations, something is lost if and only if some operation loses it |
| `TaggedAny.ValueSemantics` | meta/any.h:201-297 | any program on `any` objects reads what it would read on plain optional values |
| `TaggedAny.OwnershipIsUnique` | meta/any.h:201-297 | no object has two owners, none is destroyed twice, used after it was destroyed, or handled by the functions of another type |
| `TaggedAny.OnlyDroppedStay` | meta/any.h:201-297 | when every `any` is gone, the objects still alive are exactly the dropped values and the moved-from ones |
| `TaggedAny.DestroyedExactlyOnce` | meta/any.h:236-273 | a program that destroys all its `any` objects destroys every object exactly once if and only if it never move-assigns over a stored object and never move-constructs from an inline one |
| `TaggedAny.ValuesLeakExactly` | meta/any.h:257-273 | it leaves a value undestroyed if and only if it move-assigns over a stored object, inline or on the heap |
| `TaggedAny.BlocksLeakExactly` | meta/any.h:257-273 | it leaves a heap block allocated if and only if it move-assigns over a content on the heap |
| `TaggedAny.MoveAssignLeaks` | meta/any.h:257-263 | the shortest program that leaves a value undestroyed |
| `TaggedAny.Memory.constructor` | meta/any.h:201-205 | no object was constructed |
| `TaggedAny.Memory.New` | meta/any.h:212-219 | a new object of the given content |
| `TaggedAny.Memory.Delete` | meta/any.h:165-175 | destroys the object; doing so twice, or by the function of another type, is a fault |
| `TaggedAny.Memory.CloneOf` | meta/any.h:166-176 | a new object of the old one's value; the old one must be alive and of the function's type |
| `TaggedAny.Any.constructor` | meta/any.h:205-205 | an empty `any` |
| `TaggedAny.Any.Of` | meta/any.h:207-221 | trivial contents inline, others constructed; word and function table say which |
| `TaggedAny.Any.CopyOf` | meta/any.h:223-234 | bytes are copied, objects are cloned by the functions stored beside them |
| `TaggedAny.Any.MoveOf` | meta/any.h:236-247 | an inline object is moved into a new one and left behind, all else is copied bytewise; the source is empty |
| `TaggedAny.Any.Clear` | meta/any.h:282-282 | the object is empty, its buffer is left as it was |
| `TaggedAny.Any.Swap` | meta/any.h:296-296 | the storages change places |
| `TaggedAny.Any.CopyAssign` | meta/any.h:249-255 | a copy of the source, and the old content is destroyed; nothing for self-assignment |
| `TaggedAny.Any.MoveAssign` | meta/any.h:257-263 | the source's storage; the source is empty and the old object, inline or on the heap, is dropped; nothing for self-assignment |
| `TaggedAny.Any.Destroy` | meta/any.h:265-273 | destroys the object, inline or on the heap |
| `TaggedAny.Any.Cast` | meta/any.h:284-304 | the content if the type is right, else a bad cast |
| `Combinators.CombineKeeps` | meta/parser_combinator.cpp:18-32 | `combine` keeps the suffix property, and consumes strictly if one of its parsers does |
| `Combinators.AtLeastOneConsumes` | meta/parser_combinator.cpp:54-67 | `atLeast` of a strictly consuming parser consumes strictly |
| `Combinators.DefaultKeeps` | meta/parser_combinator.cpp:69-77 | `option` keeps the suffix property and never consumes strictly |
| `Combinators.DefaultNeverEnds` | meta/parser_combinator.cpp:34-43 | the loop of `foldL` over an `option` parser returns from no input |
| `Combinators.ConsumesEnds` | meta/parser_combinator.cpp:34-43 | over a strictly consuming parser it returns from every input |
| `Combinators.EndsEverywhereExactly` | meta/parser_combinator.cpp:34-43 | for a parser that keeps the suffix property, the loop of `foldL` returns from every input if and only if the parser consumes strictly |
| `Combinators.CharConsumes` | meta/parser_combinator.cpp:79-85 | a character parser consumes strictly |
| `Combinators.FoldLoop` | meta/parser_combinator.cpp:34-43 | from every input from which the loop of `foldL` ends, it returns the left fold over the maximal run and the suffix where the parser first fails |
| `Combinators.FoldLIsLeftFold` | meta/parser_combinator.cpp:34-43 | `foldL` is the left fold over a maximal run of successes and leaves the suffix where the parser first fails |
| `Combinators.MaximalRunUnique` | meta/parser_combinator.cpp:34-43 | there is only one maximal run |
| `Combinators.AtLeastOneOfChar` | meta/parser_combinator.cpp:54-85 | `atLeast` over a character takes exactly its maximal run and fails on an empty one |
| `Combinators.CombineAccepts` | meta/parser_combinator.cpp:18-32 | `combine` succeeds with a value and a rest if and only if the first parser succeeds, and the second one on what it leaves, with values that make it |
| `Combinators.CombineOfChars` | meta/parser_combinator.cpp:18-85 | two characters in a row |
| `Combinators.OptionOfChar` | meta/parser_combinator.cpp:68-85 | an optional character |
| `Combinators.AtLeastOneAccepts` | meta/parser_combinator.cpp:54-67 | `atLeast` gives the left fold over a maximal run of at least one success |
| `LookAhead.RepliesAsExpected` | coroutine/generator.cpp:30-50 | with n values delivered and at most one read ahead, the replies are those of the list that is left |
| `LookAhead.DeliversTheYields` | coroutine/generator.cpp:30-50 | any mixture of checks and permitted takes delivers exactly the yielded values and then the end or the exception, none skipped or repeated |
| `LookAhead.LoopTakesAll` | coroutine/generator.cpp:85-86 | the loop over a generator takes all the values of a body that returns, and nothing else |
| `LookAhead.Generator.constructor` | coroutine/generator.cpp:26-28 | nothing was run yet |
| `LookAhead.Generator.FillAhead` | coroutine/generator.cpp:43-50 | resumes the body at most once, and only if nothing was read ahead |
| `LookAhead.Generator.HasMore` | coroutine/generator.cpp:30-33 | whether another value was yielded |
| `LookAhead.Generator.Next` | coroutine/generator.cpp:34-38 | hands out the value read ahead |
| `LookAhead.FibFits` | coroutine/generator.cpp:57-58 | a Fibonacci number fits 64 bits if and only if its index is less than 94 |
| `LookAhead.FibonacciSequence` | coroutine/generator.cpp:53-79 | for n <= 94 the yields are the first n Fibonacci numbers, computed modulo 2^64 without a wrap; beyond that the body throws |

## Left out

- Exceptions that cross an await: `await_resume` is `noexcept` while it calls `get_or_throw`, so an awaited task that throws ends the program; the bodies of `Coroutines` return values.
- `NoopExecutor` and `AsyncExecutor` as resuming executors: they run the resume inside `execute`, while `return_value` holds the completion lock; the deadlock noted at coroutine/notes/note.md:112 is the consequence.
- Loops and unbounded recursion in coroutine bodies: a body is a finite tree, so that direct-style evaluation is defined; branches depend on any local.
- Awaiters and the hand-off to executors: modelled on values as multisets of resumes, which is weaker than the order a looper or the scheduler would give them; the order is proved for each queue on its own (`Looper`, `DelayScheduler`, `WorkQueues`).
- `then`, `catching` and `finally` of `Task`: each only wraps a function and passes it to `on_completed`.
- Coroutine frame destruction and the lifetime of tasks and awaiters.
- C++ memory orders weaker than sequential consistency, and data races such as the unlocked `executable_queue.empty()` in the loop conditions.
- Liveness of `shutdown` and `join` in the looper and the scheduler: `is_active` is cleared without the lock, so a wake can be missed.
- The pool destructor: it does not drain the queues; `wait_pop`, `scheduleById` and CPU affinity.
- `ParallelSort`: the call stacks, queues and flags of the running sort are modelled on values as one state, so that all interleavings can be followed; the in-place `std::partition` is modelled in `SequentialSort.PartitionInPlace` and enters the step system only through its contract.
- `SequentialSort.PartitionInPlace`: works on an array instead of a linked list, whose nodes `splice` would move.
- `DelayHeap.Pop`: the library may sift a hole down and the last entry up again, which can order ties differently; only the heap order, the contents and the root are used.
- Blocking of `do_sort` on its condition variable: the caller sees the published result or does not.
- JsonParsing.JsonParser.NumberText: a number with a point or an exponent ends in the outcome `Floating`, because floating-point values are not modelled.
- JsonRoundTrip.GenerateText: has no floating-point kind of value, whose text the generator rounds to six decimals.
- JSON escapes, which neither side supports; texts that are read past their end (`PastEnd` says when).
- `JsonParsing`: characters are compared as in the C locale, bytes above 127 are not digits or spaces.
- Contents of `any`: which constructor and destructor runs for which object, and by whose functions, is modelled; what they do beyond copying the value is not, and the bytewise swap of an inline object counts as moving it without a constructor. A moved-from object keeps its value in the model, where the language leaves it unspecified.
- `any_cast` on an empty `any`: reported as `NullType` where the code dereferences a null `type_info`.
- The coroutine forms of the lookups (`binary_search_prefetch`, `MultiLookUp` with executors): awaiting a prefetch changes no result, so the plain loops are modelled.
- `intParser` and `many` of the combinators: the first returns its input unconsumed, the second calls a function that does not exist.
- `LookAhead`: the coroutine is a list of yields with an end; that it runs only as far as asked is the position in that list.
- `executor/Future.h`, `executor/FutureState.h`, `executor/Promise.h`: unfinished.
- The older copies of the coroutine library, `variant`, `function_vf`, `any_vf`, `any_base`, range examples and demos: they repeat mechanisms that are modelled here in their latest or richest form, or show library features.
- Printing, timing, file reading and prefetch instructions: no effect on results.
