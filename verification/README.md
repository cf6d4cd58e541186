# Interleaved lookups and an echo ring

A Dafny model of two groups of programs from the repository, with proofs about all
their inputs, schedules and runs.

**Interleaved binary search** (`2018_CppCon/src`). Three implementations look up a list
of keys in a vector: a plain loop, a hand-written state machine rotating over a vector
of frames, and coroutines that suspend at every comparison, scheduled by a 256-slot
ring under a throttler and allocated by a caching allocator.

- `Search` is the search one comparison at a time, its meaning on sorted, unsorted and
  duplicate-free vectors, and its cost. The plain loop is proved against it.
- `Interleaving` shows that the order in which several lookups advance does not matter,
  and holds the books (keys taken and retired, hits, comparisons) of a multi-lookup.
- `Rotation` says which frame runs when, and which takes the next key; `StateMachine` is
  `sm.h`: class `Frame` and a multi-lookup that keeps to that order.
- `SchedulerQueue`, `TcAlloc`, `CoroutineLedger`, `Coroutines` and `MultiLookup` are
  `coro_infra.h` and `coro.h`. A coroutine frame is a value in a map from block
  identities; `resume()` with its chain of symmetric transfers is a loop. `EventLog` is
  the order in which tasks run, and what becomes of their keys.
- `Nanotest` is the driver: test vector and repetition.

The ring does not test for overflow. The model keeps that: a push that finds all 256
slots in use makes the queue look empty, and the handles of that round of the ring are
never resumed again (the ghost list `lost`). So the theorem about `CoroMultiLookup` has
no bound on streams or keys. It states which tasks finish in every case, which keys the
lost ones look up, and that the program's own consistency message is printed if and only
if min(streams, number of keys) is at least 256.

**Echo ring** (`2017_CppCon/live`). `EchoSessions` gives what each completion handler of
the client and server session does to its state; `EchoObjects` has the same sessions as
objects with their two buffers in memory. `EchoRing` is the transition system of both
sessions and the two byte streams: partial transfers, completions, handlers, failures
and closing, in any order. `EchoInvariant` is the invariant of all reachable states;
`EchoTheorems`, `EchoConnection`, `EchoProgress` and `EchoShutdown` are what holds over
whole runs.
`EchoExecution` plays any run on the two objects and shows that they follow it.

**Two small pieces of the same programs.** `ResumeToken` is the move-only completion
object of the abortable timer wait, `HandlerAllocator` the one-slot memory of completion
handlers.

`Arithmetic` and `Wrappers` hold what several modules need.

Where the code and the intent differ, the code is modelled and the exact condition is
proved:

- the ring loses tasks exactly when 256 or more are in flight (`CoroMultiLookup`, with
  `RingJustLargeEnough` and `RingCompletelyFull` on either side of the limit);
- the caching allocator's reuse test `root->size <= sz` returns a block that is too small
  exactly when the first free block is smaller than the request (`Allocator.Alloc`,
  with `TooSmallABlock` as an instance). The programs only ever use one size;
- `SimpleAllocator::deallocate` passes the number of elements to the sized delete, which
  is the size of the block exactly for one-byte elements or none
  (`HandlerMemory.Deallocate`, with `WrongSizeReported` as an instance);
- on a vector without duplicates the searches find all elements if and only if it is
  sorted (`FindsAllIffSorted`). With duplicates an unsorted vector may find all of them
  or not (`UnsortedInstances` has one vector of each kind);
- the echo ring can get stuck if and only if the block exceeds twice the capacity of a
  stream by more than two bytes (`StuckIffTooLarge`).

## Model

| member | source | states |
|---|---|---|
| Search.NaiveBinarySearch | 2018_CppCon/src/naive.h:4-20 | the loop returns the answer of the search from the whole vector, for any vector |
| Search.TestNaive | 2018_CppCon/src/nanotest.cpp:58-66 | the reference count is the number of keys found |
| Search.AnswerSound | 2018_CppCon/src/naive.h:6-17 | whatever the order of the vector, a hit names an element of the window that equals the key |
| Search.AnswerComplete | 2018_CppCon/src/naive.h:6-18 | if the window is partitioned around the key, an occurrence is never missed |
| Search.SortedFound | 2018_CppCon/src/naive.h:4-20 | on a sorted vector a key is found if and only if it occurs |
| Search.SortedHits | 2018_CppCon/src/nanotest.cpp:58-66 | on a sorted vector the count is the number of list positions whose key occurs |
| Search.FindsAllIffSorted | 2018_CppCon/src/naive.h:4-20 | a vector without duplicates finds all of its elements if and only if it is sorted |
| Search.UnsortedInstances | 2018_CppCon/src/naive.h:4-20 | an unsorted vector that misses an element, and one with duplicates that does not |
| Search.StepBound | 2018_CppCon/src/sm.h:41-64 | a lookup among n > 0 elements makes between 1 and floor(log2 n) + 1 comparisons |
| Search.Log2IsFloor | 2018_CppCon/src/nanotest.cpp:50-51 | the logarithm of the bound is the true one, rounded down |
| Search.ComparisonsBound | 2018_CppCon/src/sm.h:41-64 | a list of keys takes at most as many comparisons as keys times floor(log2 n) + 1 |
| Search.TotalPermutation | 2018_CppCon/src/sm.h:86-104 | totals over a list of keys do not depend on the order in which they are retired |
| Interleaving.ScheduleIndependence | 2018_CppCon/src/sm.h:41-64 | under every schedule that ends all lookups, each reports the answer of its own undisturbed search |
| Interleaving.InterleaveKeepsAnswers | 2018_CppCon/src/sm.h:41-64 | no sequence of turns changes what a lookup will report |
| Interleaving.FinishedIffWorkDone | 2018_CppCon/src/sm.h:41-64 | all lookups have ended exactly when a number of comparisons fixed in advance has been made |
| Interleaving.WorkConservation | 2018_CppCon/src/sm.h:106-115 | comparisons made plus comparisons left are constant under every schedule |
| Interleaving.BalancedAdmit | 2018_CppCon/src/sm.h:88-90 | filling a free frame keeps every key taken retired or in progress exactly once, and the result equal to the hits among the retired |
| Interleaving.BalancedProbe | 2018_CppCon/src/sm.h:93-96 | running a busy frame keeps the same books, and retires its key when it ends |
| Interleaving.BalancedEnd | 2018_CppCon/src/sm.h:106-117 | with no frame busy, the keys retired are a permutation of the list and the result is the reference count |
| StateMachine.Frame.Init | 2018_CppCon/src/sm.h:22-39 | the frame starts the search of the given range, or is a miss when the range is empty |
| StateMachine.Frame.Run | 2018_CppCon/src/sm.h:41-64 | one call on a busy frame is one comparison of the search, and reports whether it ended it |
| StateMachine.SmBinarySearch | 2018_CppCon/src/sm.h:67-73 | a single frame run to its end gives the answer of the plain loop |
| StateMachine.BusyMeansFull | 2018_CppCon/src/sm.h:86-103 | if the next frame is busy then all are, so the rotation never runs an empty or finished frame |
| StateMachine.FilledNext | 2018_CppCon/src/sm.h:88-98 | frames are filled from the top down: those above index i and no others, or all |
| Rotation.TurnsAreFair | 2018_CppCon/src/sm.h:92-102 | among as many consecutive runs as there are frames, every frame has exactly one |
| Rotation.TurnsDetermined | 2018_CppCon/src/sm.h:92-102 | running downwards and around until a lookup ends leaves no choice of the runs made, nor of the frame that takes the key |
| Rotation.GoingOn | 2018_CppCon/src/sm.h:93-101 | one more run either ends its lookup, the first that does, or leaves all of them going with the turn at the frame below |
| StateMachine.RotateUntilFree | 2018_CppCon/src/sm.h:92-102 | the rotation ends; its runs go downwards from the start and around, the last is the first that ends a lookup, and that frame takes the key; the books stay balanced |
| StateMachine.TakeKey | 2018_CppCon/src/sm.h:86-104 | the key goes into the frame whose turn it is if that is free, else into the first whose lookup ends in rotation; the turn passes to the frame below, without a gap from key to key |
| StateMachine.DrainOnce | 2018_CppCon/src/sm.h:107-114 | in a pass each busy frame, in order, makes exactly one comparison and the others none; it reports whether there were any |
| StateMachine.SmMultiLookup | 2018_CppCon/src/sm.h:76-118 | for every vector, list and streams >= 1: it ends, returns the reference count, and makes exactly the comparisons of the plain loop; as long as there are keys the frames run from the top down and around without a gap |
| SchedulerQueue.Ring.PushBack | 2018_CppCon/src/coro_infra.h:16-19 | the handle goes to the back of the queue; if all 256 slots are in use, the queue is that handle alone |
| SchedulerQueue.Ring.PopFront | 2018_CppCon/src/coro_infra.h:21-25 | the front leaves the queue, across any wraparound |
| SchedulerQueue.Ring.TryPopFront | 2018_CppCon/src/coro_infra.h:26-26 | nothing is returned exactly when the queue is empty or completely full |
| TcAlloc.Allocator.Alloc | 2018_CppCon/src/coro_infra.h:77-88 | reuse and its counters; live plus free blocks equal alloc_count; the block is large enough exactly when the first free one is not smaller than the request |
| TcAlloc.Allocator.Free | 2018_CppCon/src/coro_infra.h:94-99 | the block goes to the front of the list; the headers stay truthful exactly when the size reported is the block's |
| TcAlloc.TooSmallABlock | 2018_CppCon/src/coro_infra.h:78-82 | an instance in which a request for 16 bytes is given a block of 8 |
| CoroutineLedger.TurnIsProbe | 2018_CppCon/src/coro.h:14-22 | a turn behind the co_await is one comparison of the plain search and preserves its answer |
| CoroutineLedger.PaceRan | 2018_CppCon/src/coro.h:8-25 | the turns the log shows of a task since it was spawned and those it has left always make the turns of the whole search for its key, and it ends exactly with the last |
| CoroutineLedger.TurnBound | 2018_CppCon/src/coro.h:13-22 | the comparisons of one search and the turn before the first are at most floor(log2 n) + 2, or 1 in an empty vector |
| CoroutineLedger.TimelyMeansLimited | 2018_CppCon/src/coro.h:8-25 | in a log in which every task ends with the last turn of its search, no task ever takes more turns than that |
| CoroutineLedger.AccountsFinish | 2018_CppCon/src/coro.h:21-25 | a task that ends moves, with its last turn, from the unfinished tasks to the finished ones |
| CoroutineLedger.TalliedRan | 2018_CppCon/src/coro.h:21-25 | exactly one of the two counters is raised, and only then: the one that fits whether its key is found |
| CoroutineLedger.AccountsReorder | 2018_CppCon/src/coro_infra.h:44-50 | the turns still to come do not depend on the order of the tasks |
| CoroutineLedger.RollTransferred | 2018_CppCon/src/coro_infra.h:48-49 | a suspension and transfer keep every unfinished task listed exactly once |
| CoroutineLedger.RollSpawned | 2018_CppCon/src/coro_infra.h:157-159 | so does a spawn, the tasks of an overwritten round counting as lost |
| Coroutines.Throttler.constructor | 2018_CppCon/src/coro.h:30-33 | a new throttler on an idle ring: no tasks, the whole limit free |
| Coroutines.Throttler.Advance | 2018_CppCon/src/coro.h:10-25 | the coroutine body between two suspensions: one comparison, or the end with the right counter raised |
| Coroutines.Throttler.Transfer | 2018_CppCon/src/coro_infra.h:44-50 | await_suspend queues the task at the back and passes control to the front, which exists |
| Coroutines.Throttler.Retire | 2018_CppCon/src/coro_infra.h:169-169 | the end of a task raises its owner's limit by one without wrap-around and releases its frame |
| Coroutines.Throttler.PlayTurn | 2018_CppCon/src/coro_infra.h:44-50 | after a turn the front of the queue runs, or exactly one task has finished and the limit is one higher |
| Coroutines.Throttler.Resume | 2018_CppCon/src/coro_infra.h:44-50 | every resume returns after finitely many transfers and exactly one finished task, with the queue as long as before |
| Coroutines.Throttler.Create | 2018_CppCon/src/coro_infra.h:114-118 | a new frame is allocated, from the heap only if no freed one is left, and suspends without owner |
| Coroutines.Throttler.SetOwner | 2018_CppCon/src/coro_infra.h:125-130 | the task is given its throttler before it can run |
| Coroutines.Throttler.Enqueue | 2018_CppCon/src/coro_infra.h:157-159 | the task is queued and charged to the limit, which is at least 1 |
| Coroutines.Throttler.Spawn | 2018_CppCon/src/coro_infra.h:153-160 | with no limit left one task finishes first, and the front it resumes exists; limit plus tasks in flight stays equal to streams |
| Coroutines.Throttler.Run | 2018_CppCon/src/coro_infra.h:28-31 | all queued tasks finish unless the ring is completely full; with none lost the limit is back at streams |
| MultiLookup.SpawnNext | 2018_CppCon/src/coro.h:35-37 | after k keys the tasks in flight, finished and lost, and the blocks obtained, are the stated functions of k and streams |
| MultiLookup.CoroMultiLookup | 2018_CppCon/src/coro.h:27-46 | for every vector, list and streams >= 1: the finished tasks and their hits, the keys lost, the BUG message exactly from 256 streams and 256 keys on, and below that the reference count, the number of turns, an idle ring and peak memory min(keys, streams + 1); each task takes the turns of its search, never more than floor(log2 n) + 2 |
| MultiLookup.RingJustLargeEnough | 2018_CppCon/src/coro.h:42-44 | an instance: with 255 streams all of 1024 tasks finish and no message is printed |
| MultiLookup.Reported | 2018_CppCon/src/coro.h:33-45 | the hits are exactly those of the keys of finished tasks; of the others, those of overwritten rounds have the first keys of the list, and those in a completely full ring the keys the log shows, which are the next ones if no task had to make room |
| MultiLookup.RingCompletelyFull | 2018_CppCon/src/coro.h:42-44 | an instance: with 256 streams and 1024 keys 768 tasks finish and the message is printed |
| EventLog.QueueOrder | 2018_CppCon/src/coro_infra.h:44-50 | from any moment on, the queued tasks take their turns first, in queue order |
| EventLog.RoundRobin | 2018_CppCon/src/coro_infra.h:44-50 | between two consecutive turns of a task every other queued task takes exactly one and no other runs, fewer than streams in all |
| EventLog.RoundRobinThroughout | 2018_CppCon/src/coro_infra.h:44-50 | so for any two consecutive turns of a task within the log of a multi-lookup |
| EventLog.QueueHasNoDuplicates | 2018_CppCon/src/coro_infra.h:16-25 | no task is queued twice |
| EventLog.KeysConserved | 2018_CppCon/src/coro_infra.h:16-31 | every key spawned is, once, that of a task that has finished, is queued, or was lost in an overflow |
| Nanotest.BuildVector | 2018_CppCon/src/nanotest.cpp:24-28 | one element for each four bytes, the even numbers from 0 |
| Nanotest.EvensFound | 2018_CppCon/src/nanotest.cpp:21-35 | exactly the even keys in its range are found |
| Nanotest.RunRepeatedly | 2018_CppCon/src/nanotest.cpp:119-138 | for all three algorithms and every stream count >= 1 the sum is the repetitions times the hits of the keys not lost; each repetition leaves the lost tasks' blocks in use, and if there are none only the first obtains memory |
| EchoInvariant.InvClientHandlesRead | 2017_CppCon/live/myclient.cpp:138-159 | the read handler keeps the invariant, whether it waits, restarts or stops |
| EchoInvariant.InvClientHandlesWrite | 2017_CppCon/live/myclient.cpp:161-181 | so does the write handler |
| EchoInvariant.InvServerReceive | 2017_CppCon/live/myserver.cpp:42-48 | a read of the server keeps the bytes under way in order |
| EchoInvariant.InvServerSend | 2017_CppCon/live/myserver.cpp:45-46 | so does each part of its write |
| EchoTheorems.InvAlways | 2017_CppCon/live/myclient.cpp:116-186 | the invariant holds in every reachable state, after failures and closing too |
| EchoTheorems.SubmittedContent | 2017_CppCon/live/myclient.cpp:91-181 | in every run, the byte submitted at position i is (i mod block_size) mod 128 |
| EchoTheorems.ReceivedContent | 2017_CppCon/live/myclient.cpp:138-142 | and so is every byte read back |
| EchoTheorems.Conservation | 2017_CppCon/live/myclient.cpp:138-181 | in every run without failures the block is exactly what is held, unsent, in the streams and at the server, and the totals differ by at most the block |
| EchoTheorems.Totals | 2017_CppCon/live/myclient.cpp:140-165 | in every run the two totals are those of the bytes submitted and received, but for operations not yet handled |
| EchoTheorems.UnwrittenCount | 2017_CppCon/live/myclient.cpp:125-168 | in every run the counter is the pending write plus the absent read, and stays in 0..2 after failures |
| EchoTheorems.SwapIffBothOver | 2017_CppCon/live/myclient.cpp:138-181 | in every run operations restart and the buffers change roles exactly in a successful handler that finds the other operation over; no other step changes the write buffer, and only a delivery the read buffer |
| EchoTheorems.PendingWriteKeepsBuffer | 2017_CppCon/live/myclient.cpp:126-170 | over any run until its handler, a pending write stays pending, its buffer keeps its contents and nothing else is begun |
| EchoConnection.StartedIffConnected | 2017_CppCon/live/myclient.cpp:116-136 | in every run operations have begun if and only if the connection was made, and then the whole block is submitted; after a refusal nothing is ever begun, moved or counted |
| EchoConnection.RefusedServerIsSilent | 2017_CppCon/live/myserver.cpp:29-40 | a server session that fails to start is destroyed and never takes in or sends a byte, nor does one that has not started |
| EchoConnection.NothingMovesAfterClose | 2017_CppCon/live/myclient.cpp:183-186 | after closing, the client never receives or sends another byte |
| EchoProgress.NextStep | 2017_CppCon/live/myserver.cpp:42-61 | in every healthy state that is not blocked some step can be taken |
| EchoProgress.StuckIffBlocked | 2017_CppCon/live/myserver.cpp:42-61 | the only stuck states are those with both streams full, bytes waiting at the server and the client, and a read not yet written back |
| EchoProgress.NeverStuck | 2017_CppCon/live/myclient.cpp:138-181 | with a block of at most 2 * capacity + 2 bytes no run without failures gets stuck |
| EchoProgress.LargerBlockGetsStuck | 2017_CppCon/live/myclient.cpp:138-181 | with a larger block some run without failures does |
| EchoProgress.StuckIffTooLarge | 2017_CppCon/live/myclient.cpp:138-181 | some run without failures gets stuck if and only if block_size > 2 * capacity + 2 |
| EchoProgress.ReadsAreFrequent | 2017_CppCon/live/myclient.cpp:138-181 | at most 10 * block_size + 6 other steps lie between two reads of the client |
| EchoShutdown.EndingStep | 2017_CppCon/live/myclient.cpp:138-186 | a session that has failed stays failed and begins nothing; a closed one restarts at most once |
| EchoShutdown.FewOperationsRemain | 2017_CppCon/live/myclient.cpp:183-186 | after closing at most one more pair of operations begins, after a failure none, and the counter stays in 0..2 |
| EchoShutdown.ClientComesToRest | 2017_CppCon/live/myclient.cpp:138-186 | only a bounded number of steps of the client session remain |
| EchoShutdown.RingComesToRest | 2017_CppCon/live/myserver.cpp:42-61 | once an operation of the server has failed, at most two operations of the client begin for each byte on its way back and for the read in hand, and only a bounded number of steps of the whole ring remain |
| EchoShutdown.EndingIffFailed | 2017_CppCon/live/myclient.cpp:116-186 | a session is ending exactly if one of the steps of the run closed the socket, refused it or failed |
| EchoShutdown.RunsEndSoon | 2017_CppCon/live/myclient.cpp:138-186 | from the moment a run closes the socket or an operation of the client or of the server fails, the operations still begun and the steps left are bounded by numbers given by the block size and the bytes on their way back |
| EchoObjects.ClientSession.constructor | 2017_CppCon/live/myclient.cpp:79-93 | two separate buffers of the block size, the write buffer filled with the pattern |
| EchoObjects.ClientSession.OnConnect | 2017_CppCon/live/myclient.cpp:116-136 | the first write and read begin, or nothing does |
| EchoObjects.ClientSession.OnRead | 2017_CppCon/live/myclient.cpp:138-159 | the handler does what the transition system says, and swaps the buffer pointers only when no write is pending |
| EchoObjects.ClientSession.OnWrite | 2017_CppCon/live/myclient.cpp:161-181 | likewise, only when no read is pending |
| EchoObjects.ClientSession.SwapAndRestart | 2017_CppCon/live/myclient.cpp:148-156 | the new write and read use the exchanged, separate buffers |
| EchoObjects.ClientSession.Deliver | 2017_CppCon/live/myclient.cpp:130-133 | a read never changes the buffer of a pending write |
| EchoObjects.ClientSession.Transmit | 2017_CppCon/live/myclient.cpp:126-129 | a pending write sends the next bytes of its buffer |
| EchoObjects.ClientSession.EndWrite | 2017_CppCon/live/myclient.cpp:126-129 | a write ends when all of it is sent, or fails |
| EchoObjects.ClientSession.FailRead | 2017_CppCon/live/myclient.cpp:130-133 | a read may fail without delivering anything |
| EchoObjects.ServerSession.StartSession | 2017_CppCon/live/myserver.cpp:29-40 | the first read begins, or the session is destroyed |
| EchoObjects.ServerSession.OnRead | 2017_CppCon/live/myserver.cpp:42-51 | what was read is written back, or the session is destroyed |
| EchoObjects.ServerSession.OnWrite | 2017_CppCon/live/myserver.cpp:53-61 | the next read begins, or the session is destroyed |
| EchoObjects.ServerSession.Deliver | 2017_CppCon/live/myserver.cpp:34-35 | a read of the server fills the front of its buffer |
| EchoObjects.ServerSession.Transmit | 2017_CppCon/live/myserver.cpp:45-46 | a write of the server sends the next bytes of it |
| EchoExecution.Begin | 2017_CppCon/live/myclient.cpp:79-93 | new sessions are in an initial state of the ring, with buffers of their own |
| EchoExecution.PerformClient | 2017_CppCon/live/myclient.cpp:116-186 | each step of the client on the objects is the step of the transition system |
| EchoExecution.PerformServer | 2017_CppCon/live/myserver.cpp:29-61 | so is each step of the server |
| EchoExecution.Execute | 2017_CppCon/live/myclient.cpp:116-186 | every possible run takes both objects to its final state; the two buffers stay separate, and that of a pending write is neither exchanged nor changed before its handler |
| ResumeToken.OneHolderAlways | 2017_CppCon/live/stop1.cpp:25-50 | at any time exactly one object holds the handle, or the coroutine has been resumed once and none does |
| ResumeToken.OneHolderStep | 2017_CppCon/live/stop1.cpp:29-49 | the awaiter is written to only before the coroutine is resumed, and each such event resumes it |
| ResumeToken.ResumedExactlyOnce | 2017_CppCon/live/stop1.cpp:25-50 | when all objects are gone the coroutine has been resumed once, with the code of the call wherever it is in the trace, or as aborted, which is not success, if there was none |
| ResumeToken.CalledResumes | 2017_CppCon/live/stop1.cpp:29-34 | a call resumes the coroutine with its own code, and nothing resumes it again |
| ResumeToken.Callback.Move | 2017_CppCon/live/stop1.cpp:40-42 | the handle passes to the new object |
| ResumeToken.Callback.Invoke | 2017_CppCon/live/stop1.cpp:29-34 | the coroutine is resumed with the given code and the object gives up the handle first |
| ResumeToken.Callback.Destroy | 2017_CppCon/live/stop1.cpp:44-49 | a holder resumes the coroutine as aborted; any other object touches nothing |
| ResumeToken.Execute | 2017_CppCon/live/stop1.cpp:25-50 | every possible trace, played on the objects, takes them to its final state; the awaiter is alive whenever it is written |
| ResumeToken.Awaiter.AwaitResume | 2017_CppCon/live/stop1.cpp:20-23 | the wait throws the code unless it is that of success |
| ResumeToken.Await | 2017_CppCon/live/stop1.cpp:20-55 | from suspension to the end of the last object the coroutine is resumed once; the wait ends without exception exactly if the token was called with success, and throws the code of the call or operation_aborted otherwise |
| HandlerAllocator.OverflowTest | 2017_CppCon/live/handler_allocator.hpp:59-61 | on wrapped 64-bit sizes the division test rejects exactly the requests that overflow |
| HandlerAllocator.ServedBy | 2017_CppCon/live/handler_allocator.hpp:23-67 | a request of at most 1024 bytes gets the slot if that is free; a larger one, or any while it is in use, a fresh block of the heap; one beyond 64 bits nothing |
| HandlerAllocator.HandlerMemory.Allocate | 2017_CppCon/live/handler_allocator.hpp:23-67 | the slot if free and large enough, else a fresh block of the heap, never one in use; bad_alloc exactly on overflow |
| HandlerAllocator.HandlerMemory.Deallocate | 2017_CppCon/live/handler_allocator.hpp:34-72 | the block returns to its origin; when the size reported to the heap is right |
| HandlerAllocator.WrongSizeReported | 2017_CppCon/live/handler_allocator.hpp:68-72 | an instance: a block of two bytes is reported as one |
| HandlerAllocator.TraceKeepsMemorySound | 2017_CppCon/live/handler_allocator.hpp:23-72 | over every matched trace the slot is marked exactly while in use and each call that succeeds has a block of its own |
| HandlerAllocator.SlotSuffices | 2017_CppCon/live/handler_allocator.hpp:23-72 | over every trace, requests of at most 1024 bytes, each returned before the next, never reach the heap |

## Left out

- Prefetching, timing, printing, argument parsing and the random choice of keys have no effect on results; the keys are a parameter, and each prefetched index is shown to exist.
- Machine integers are unbounded except where wrap-around matters: the throttler's limit and the sizes of handler memory are bounded types, byte totals and result counts are not.
- `&v[0]` on an empty vector is not modelled as a pointer; the index model covers the empty vector.
- CoroMultiLookup: when the ring is left completely full and there are more keys than streams, the keys of the 256 tasks left in it are stated by the log of turns, not as a function of the list; it depends on how long the searches take.
- RunRepeatedly: in that case the sum is stated up to those 256 tasks in each repetition.
- ReadsAreFrequent: counts steps of the transition system, with a bound that is not the least one.
- `~root_task` on a task that is never spawned, `unhandled_exception` and `~tcalloc` do not occur or come after everything that is modelled.
- Raw memory, alignment and the header that overlays a freed block are abstract block identities and sizes.
- A coroutine frame is a value in a map from block identities rather than an object; aliasing of a stale handle with a reused block is therefore visible, the layout of a frame is not.
- Coroutines of one multi-lookup never resume those of another; handles left in the ring by an earlier, overflowing one are given up when the next begins.
- The network is two FIFO byte streams of limited capacity, an operation may fail at any moment, and the strand makes each handler of the client one step; connecting, resolving and socket options are parameters.
- The client's session list, its timer, its threads and the mutex around the statistics, and the server's accept loop, add one independent session each.
- `await_ready` of the timer wait for a zero duration, and the coroutine that loops over it, are not modelled; one wait is.
- The future and executor adapters, the generator, the nested coroutine demonstration and the Windows completion-port program are not part of this model.
