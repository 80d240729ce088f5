# Hylux engine core: a verified model

Dafny models of the hard core of the Hylux engine runtime, with proofs about every run, every
interleaving or every input. The models keep the code's own fields, branches and constants.
Concurrent code is a transition system whose steps are the code's atomic accesses and critical
sections; code that one thread runs is classes and loops, tied to those systems or to plain values.

| file | what it models |
|---|---|
| `WorkStealingDeque.dfy` | the fixed-capacity Chase-Lev deque, step by step and as a class |
| `WorkerThreadPool.dfy` | the pool: inject queue, sleeping and waking, ownership of tasks, destructor |
| `WorkerThreadPoolProgress.dfy` | what the pool's workers get done: order of the search, work that is run, shutdown |
| `PowersOfTwo.dfy` | the pool's capacity rounding, in 64-bit words |
| `Dependencies.dfy` | dependency lists, their inverse, cycles and rankings |
| `TaskGraph.dfy`, `TaskGraphExecution.dfy`, `TaskGraphBuilder.dfy` | the task graph: its interleavings, its code on a deferred executor, its builder and `ParallelFor` |
| `Engine.dfy` | subsystem start and stop order, the sort proved as a run of the task graph's counting machine |
| `RefCounting.dfy`, `Ref.dfy` | one counted object under any number of threads; `RefCounted`, `Ref` and `WeakRef` as classes |
| `Future.dfy`, `WhenAll.dfy` | completion: continuations, waiters, the combinator |
| `RenderGraphData.dfy`, `RenderGraph.dfy` | the render graph's records and the class that compiles and executes it |
| `RenderGraphCulling.dfy` | what culling means and when it is sound |
| `RenderGraphBarriers.dfy` | what the barrier plan guarantees |
| `RenderGraphPlan.dfy` | the plan in the recorded stream, and the writes it leaves without a barrier |
| `RenderGraphExecution.dfy` | command streams, batches, interleavings |
| `FrameAllocator.dfy`, `Bits.dfy` | the bump arena and its mask arithmetic |
| `RefLruCache.dfy` | the budgeted LRU with weak resurrection |
| `AssetLoading.dfy` | in-flight de-duplication over that cache |
| `SmallVector.dfy` | object lifetimes across inline and heap storage |
| `PermutationKey.dfy` | FNV-1a and the permutation key builder |

`dafny verify dfyconfig.toml` checks everything.

## What is false of the code, and exactly when it is true

- `TaskGraphExecution::Start` re-reads live counters while it dispatches, so a node released during
  the scan is dispatched again. Some run on some executor does this if and only if the graph has a
  node whose dependencies, direct and indirect, can all run before the scan reads its counter
  (`TwiceIffOvertaken`). When every dependency has a smaller index than its node, which is what ids
  returned by `AddNode` give, that means: if and only if the graph has an edge (`TwiceIffEdge`). A
  deferred executor, which starts nothing before the scan is over, never does it
  (`DeferredDispatchesOnce`).
- Culling keeps the meaning of a graph for all passes if and only if no surviving pass sees a culled
  pass's write (`MeaningKeptIffNoDeadWriteVisible`). Reading only through newest handles ensures it;
  the code asserts that for writes and not for reads (`RenderGraph.cpp:227-271`), and a read through
  an older handle breaks it (`StaleReadBreaksCulling`).
- A pass finds its textures in the declared layouts if and only if it declares one layout per texture
  (`PassStartsAsDeclaredIff`).
- After a pass's last record of a resource, the passes up to a later one have a barrier on it if and
  only if their records of it are not quiet (`SeparatedIff`): one of them is a write, or changes the
  layout, or a write bit precedes one, in that last record or in an earlier record among them. So a
  write goes unseparated from a later read when its own pass reads the resource after writing it, or
  when its access mask carries no write bit (`HiddenWriteHasNoBarrier`,
  `UnflaggedWriteHasNoBarrier`, both on graphs that can be recorded and are executed in full).
- `BuildInitOrder` yields every subsystem if and only if there is no dependency cycle. With a cycle,
  and assertions compiled out, a subsystem is left out if and only if a chain of dependencies leads
  from it to a cycle (`LeftOutIffReachesCycle`).
- `NextPowerOfTwo` is right if and only if its argument is at most 2^63; above that it returns 0.
- `ResolveChunkSize` rounds the share of each chunk up if and only if total + target - 1 stays within
  64 bits; beyond that the sum wraps, the derived size is zero, and the guard makes it 1.
- `SmallVector::Erase` of an empty range moves every later element onto itself, so it keeps the tail
  if and only if the element type's self-move does, or there is no tail.

## Where the code and its documentation differ

- `RefLruCache.h:75-78` says an over-budget entry falls out via Get-misses. In the code a strong
  entry leaves only through a later Insert or Clear; Get erases slots without a strong reference.
- `FrameAllocator.h:41-43` says Allocate walks the chunk list. The code walks from the current chunk,
  so the unused ends of earlier chunks stay unused until Reset.

## Assumptions

- Atomics are sequentially consistent; the memory-order annotations are abstracted. A critical
  section that touches nothing but what its mutex protects is one step.
- The pool's model uses each deque as the sequence the deque refines, with the owner's pop in two
  steps because its first store shows in `SizeApprox`. A push or a steal may fail at any time, which
  covers a full deque and a lost race. `SizeApprox` loads bottom and top in one step. Nobody outside
  posts once the destructor has started.
- Users of counted objects follow the holder discipline: an operation goes through a holder its
  caller has, and a weak holder is not dropped while a Lock runs through it.
- A render graph's handles come from the graph, and Setup runs inside AddPass, so a producer is never
  above its consumer. A pass is an arbitrary function of the resources it reads; realized resources
  are distinct. Every record's write flag and mask are the caller's.
- The heap gives a new arena chunk memory apart from the others, and no address computation leaves
  the machine word.
- `alive` in the cache's Get stands for the values somebody outside still refers to.

## Model

| member | source | states |
|---|---|---|
| `DequeMachine.StepRefines` | Engine/Runtime/Core/Async/WorkStealingDeque.h:48-112 | every atomic step of the owner or a thief is a move of a sequential deque: a steal takes the oldest item, a pop the youngest, a null pop or refused push happens only when the deque is empty or full at that instant |
| `DequeMachine.ResponsesMatchEffects` | Engine/Runtime/Core/Async/WorkStealingDeque.h:48-112 | each call returns what its decisive step determined; only a failed steal returns without one |
| `DequeMachine.RunRefines` | Engine/Runtime/Core/Async/WorkStealingDeque.h:48-112 | every interleaving of one owner and any number of thieves is a run of the sequential deque |
| `DequeMachine.Conservation` | Engine/Runtime/Core/Async/WorkStealingDeque.h:48-112 | after any interleaving each item was pushed exactly as often as it was handed out, is still stored, or is carried by an unfinished pop |
| `DequeMachine.StealsInOrder` | Engine/Runtime/Core/Async/WorkStealingDeque.h:94-112 | successive steals take strictly increasing push indices, so no index is handed out twice although slots are reused modulo the capacity |
| `DequeMachine.PushAlone` | Engine/Runtime/Core/Async/WorkStealingDeque.h:48-60 | an undisturbed push: its steps, its final state and the new contents |
| `DequeMachine.PopAlone` | Engine/Runtime/Core/Async/WorkStealingDeque.h:64-90 | an undisturbed pop: its steps, its final state and the new contents |
| `DequeMachine.StealAlone` | Engine/Runtime/Core/Async/WorkStealingDeque.h:94-112 | an undisturbed steal: its steps, its final state and the new contents |
| `WorkStealingDeques.WorkStealingDeque.constructor` | Engine/Runtime/Core/Async/WorkStealingDeque.h:32-42 | an empty deque over a power-of-two buffer |
| `WorkStealingDeques.WorkStealingDeque.PushBottom` | Engine/Runtime/Core/Async/WorkStealingDeque.h:48-60 | refuses exactly when full, otherwise appends; the code runs the machine's steps |
| `WorkStealingDeques.WorkStealingDeque.PopBottom` | Engine/Runtime/Core/Async/WorkStealingDeque.h:64-90 | returns the youngest item, or null exactly when empty; the code runs the machine's steps |
| `WorkStealingDeques.WorkStealingDeque.Steal` | Engine/Runtime/Core/Async/WorkStealingDeque.h:94-112 | returns the oldest item, or null exactly when empty; the code runs the machine's steps |
| `WorkerPoolMachine.WakeStep` | Engine/Runtime/Core/Async/WorkerThreadPool.cpp:76-224 | every step of workers, posters and the destructor keeps the mutual exclusion and wakeup invariant |
| `WorkerPoolMachine.FallingAsleep` | Engine/Runtime/Core/Async/WorkerThreadPool.cpp:207-222 | a worker that falls asleep beside queued work leaves another one awake, unless a notification is still to come |
| `WorkerPoolMachine.QueuedWorkIsSeen` | Engine/Runtime/Core/Async/WorkerThreadPool.cpp:111-224 | no lost wakeup in any run: before stop, queued work whose posters have all notified finds some worker awake |
| `WorkerPoolMachine.TaskStep` | Engine/Runtime/Core/Async/WorkerThreadPool.cpp:91-200 | every step keeps each task in exactly one deque, the inject queue or one thread's hands, with its run and delete counts |
| `WorkerPoolMachine.TasksAreKept` | Engine/Runtime/Core/Async/WorkerThreadPool.cpp:111-200 | no lost task in any run: a body runs at most once, a task is deleted at most once and not before its body has run unless the pool is being destroyed, and until then it is in exactly one place |
| `WorkerPoolMachine.ShutdownDeletesAll` | Engine/Runtime/Core/Async/WorkerThreadPool.cpp:76-109 | after notify_all nobody sleeps; once the queues are drained every task ever posted has been deleted exactly once |
| `WorkerPoolProgress.OwnWorkFirst` | Engine/Runtime/Core/Async/WorkerThreadPool.cpp:144-149 | the youngest task of the worker's own deque is taken first; it turns to the others only if its own is empty |
| `WorkerPoolProgress.StealTakesOldest` | Engine/Runtime/Core/Async/WorkerThreadPool.cpp:149-166 | a successful steal takes the oldest task of another worker's deque |
| `WorkerPoolProgress.GivesUpOnlyOnEmpty` | Engine/Runtime/Core/Async/WorkerThreadPool.cpp:144-178 | whatever the others do, a worker finds no work only if the inject queue was empty when it looked |
| `WorkerPoolProgress.SearchTakesInjected` | Engine/Runtime/Core/Async/WorkerThreadPool.cpp:144-178 | a whole search with an empty deque and no successful steal, after exactly the configured number of tries, runs the oldest injected task, or finds nothing if there is none |
| `WorkerPoolProgress.ReachableWorkIsRun` | Engine/Runtime/Core/Async/WorkerThreadPool.cpp:180-224 | an undisturbed worker that is awake and has work of its own or injected work runs a task within a bounded number of its steps, whatever its steals do |
| `WorkerPoolProgress.AlertCanStep` | Engine/Runtime/Core/Async/WorkerThreadPool.cpp:180-224 | and only another holder of the lock, or its own unfinished Post, can stop it |
| `WorkerPoolProgress.QueuesMoveAtTheirEnds` | Engine/Runtime/Core/Async/WorkerThreadPool.cpp:111-178 | the inject queue is first in first out; a deque grows and shrinks at its young end for its own worker and loses its oldest to others, in every step |
| `WorkerPoolProgress.PostAdvances` | Engine/Runtime/Core/Async/WorkerThreadPool.cpp:111-136 | a Post always goes on, and its task ends up last in its worker's deque, or in the inject queue if it comes from outside or the deque is full |
| `WorkerPoolProgress.WorkersExit` | Engine/Runtime/Core/Async/WorkerThreadPool.cpp:203-206 | once all have been notified and nothing is queued, a worker's own steps lead out of its loop within a bounded number |
| `PowersOfTwo.NextPowerOfTwo` | Engine/Runtime/Core/Async/WorkerThreadPool.cpp:34-48 | the result is the least power of two that is at least v and at least 2 if and only if v is at most 2^63; above that it is 0 |
| `PowersOfTwo.SpreadingIsMask` | Engine/Runtime/Core/Async/WorkerThreadPool.cpp:40-46 | the shifts fill in every bit below the highest one |
| `PowersOfTwo.SpreadingStaysBelow` | Engine/Runtime/Core/Async/WorkerThreadPool.cpp:40-46 | and stay below every power of two above the input |
| `TaskGraphMachine.InvStep` | Engine/Runtime/Core/Async/TaskGraph.cpp:21-65 | every step of the scan and of running nodes keeps the counter invariant unless it dispatches a node a second time, and it says exactly which steps do |
| `TaskGraphMachine.DispatchedTwiceIffReleasedEarly` | Engine/Runtime/Core/Async/TaskGraph.h:82-97 | of a single run: a node was dispatched twice if and only if one was released while Start had still to read its counter |
| `TaskGraphMachine.TwiceIffOvertaken` | Engine/Runtime/Core/Async/TaskGraph.h:82-97 | some interleaving on some executor dispatches a node twice if and only if the graph has a node all of whose direct and indirect dependencies can run before the scan reaches it |
| `TaskGraphMachine.TwiceIffEdge` | Engine/Runtime/Core/Async/TaskGraph.h:82-97 | for graphs whose nodes depend on earlier nodes only: if and only if the graph has an edge |
| `TaskGraphMachine.InlineChainDispatchesTwice` | Engine/Runtime/Core/Async/TaskGraph.h:90-96 | a concrete run, two chained nodes on an executor that runs at once, in which Start dispatches a node a second time |
| `TaskGraphMachine.DeferredDispatchesOnce` | Engine/Runtime/Core/Async/TaskGraph.h:82-97 | if no node starts before the scan is over, no interleaving dispatches a node twice |
| `TaskGraphMachine.EdgeFreeDispatchesOnce` | Engine/Runtime/Core/Async/TaskGraph.h:82-97 | without edges no interleaving on any executor dispatches a node twice |
| `TaskGraphMachine.DependenciesFirst` | Engine/Runtime/Core/Async/TaskGraph.cpp:47-59 | a node is posted only after the bodies of all its dependencies, duplicates included |
| `TaskGraphMachine.PromiseSetIffAllDone` | Engine/Runtime/Core/Async/TaskGraph.cpp:60-64 | the promise is set at most once, and has been set exactly when every node has completed |
| `TaskGraphMachine.BodiesMove` | Engine/Runtime/Core/Async/TaskGraph.cpp:29-45 | a body is called only when its running node's turn comes with the token not cancelled, and then once |
| `TaskGraphMachine.CanceledRunsNothing` | Engine/Runtime/Core/Async/TaskGraph.cpp:32-38 | after a cancellation no run calls another body |
| `TaskGraphMachine.AcyclicNeverStalls` | Engine/Runtime/Core/Async/TaskGraph.cpp:29-65 | when nothing more can run over an acyclic graph every node has completed, cancelled or not, and without a cancellation each body has run exactly once |
| `TaskGraphMachine.CompletesIffNoCycle` | Engine/Runtime/Core/Async/TaskGraph.cpp:47-65 | on a deferred executor the promise has been set when nothing more can run if and only if there is no dependency cycle |
| `TaskGraphMachine.StepsUseUpWork` | Engine/Runtime/Core/Async/TaskGraph.cpp:47-65 | every step uses up work |
| `TaskGraphMachine.RunLengthBound` | Engine/Runtime/Core/Async/TaskGraph.cpp:47-65 | so no run is longer than the work at its start |
| `Dependencies.AllFiled` | Engine/Runtime/Core/Async/TaskGraph.cpp:121-128 | the successor lists name a node as often as it names the dependency |
| `Dependencies.AcyclicIffNoCycle` | Engine/Runtime/Engine/Engine.cpp:61-61 | a dependency list can be ranked if and only if no node depends on itself through others |
| `TaskGraphExecutions.LogGrows` | Engine/Runtime/Core/Async/TaskGraph.cpp:29-45 | appending the running node keeps the log in dependency order |
| `TaskGraphExecutions.TaskGraphExecution.constructor` | Engine/Runtime/Core/Async/TaskGraph.h:71-74 | a fresh execution is the machine's initial state |
| `TaskGraphExecutions.TaskGraphExecution.Start` | Engine/Runtime/Core/Async/TaskGraph.h:82-97 | the scan posts exactly the nodes without dependencies and leaves the machine with its scan over |
| `TaskGraphExecutions.TaskGraphExecution.Run` | Engine/Runtime/Core/Async/TaskGraph.cpp:29-45 | runs one posted node to completion as machine steps; its body is called exactly if the token is not cancelled |
| `TaskGraphExecutions.TaskGraphExecution.OnNodeComplete` | Engine/Runtime/Core/Async/TaskGraph.cpp:47-65 | decrements every successor, posts those that reach zero, counts the node and sets the promise after the last, all as machine steps |
| `TaskGraphExecutions.TaskGraphExecution.Drain` | Engine/Runtime/Core/Async/IExecutor.h:75-87 | runs the batch it took, in the order it was posted, calling no body once cancelled; what those runs post waits for the next drain |
| `TaskGraphExecutions.TaskGraphExecution.DrainAll` | Engine/Runtime/Core/Async/IExecutor.h:75-87 | drained until empty, bodies ran at most once and never before a dependency; over an acyclic graph the promise was set once, and every body ran unless the run was cancelled, which only a `cancelAfter` below the number of nodes can do; cancelled from the start, no body runs |
| `TaskGraphExecutions.TaskGraphExecution.RunToCompletion` | Engine/Runtime/Core/Async/TaskGraph.cpp:101-134 | a fresh execution started and drained: the same |
| `Executors.QueuedExecutor.Post` | Engine/Runtime/Core/Async/IExecutor.h:62-70 | appends to the pending work |
| `Executors.QueuedExecutor.TakeAll` | Engine/Runtime/Core/Async/IExecutor.h:77-81 | hands over the pending work and leaves none |
| `TaskGraphs.TaskGraph.AddNode` | Engine/Runtime/Core/Async/TaskGraph.h:141-152 | appends a builder, returns its index, and keeps dependencies earlier than dependents |
| `TaskGraphs.TaskGraph.AddParallelFor` | Engine/Runtime/Core/Async/TaskGraph.cpp:69-99 | adds chunks of the resolved size that split the range in order, each index in exactly one, and a join that depends on exactly them; an empty range gives one node with the given dependencies |
| `TaskGraphs.TaskGraph.FileSuccessors` | Engine/Runtime/Core/Async/TaskGraph.cpp:121-128 | the successor lists are the inverse of the dependency lists |
| `TaskGraphs.TaskGraph.Submit` | Engine/Runtime/Core/Async/TaskGraph.cpp:101-134 | moves the builders into an execution and starts it: exactly the nodes without dependencies are posted on return; no execution for an empty graph; acyclic when ids come from AddNode |
| `TaskGraphs.AddOrderIsAcyclic` | Engine/Runtime/Core/Async/TaskGraph.h:149-151 | the order of addition ranks the graph |
| `TaskGraphs.ResolveChunkSize` | Engine/Runtime/Core/Async/ParallelFor.h:22-36 | in 64-bit words: the requested size, or the size that makes as few chunks per target as rounding allows as long as the rounding does not wrap, else 1; zero only for nothing |
| `TaskGraphs.ParallelFor` | Engine/Runtime/Core/Async/ParallelFor.h:42-69 | submits edge-free chunks of the resolved size that split the range in order, all of them posted on return; an empty range submits nothing |
| `TaskGraphs.ParallelForRunsEachIndexOnce` | Engine/Runtime/Core/Async/ParallelFor.h:53-68 | in any interleaving on any executor the body runs at most once for an index and never outside the range, and exactly once for every index inside once the future has resolved |
| `TaskGraphs.ParallelForResolves` | Engine/Runtime/Core/Async/ParallelFor.h:53-68 | and it resolves once nothing more can run |
| `RefCountMachine.InvStep` | Engine/Runtime/Core/Memory/RefCounted.h:45-98 | every step of every thread that respects the holder discipline keeps the counting and lifetime invariant |
| `RefCountMachine.LifetimeIsSafe` | Engine/Runtime/Core/Memory/RefCounted.h:45-77 | in every interleaving the counters are the numbers of holders, with one weak reference for the strong ones together; the destructor runs at most once and never beside a strong holder; the storage is freed at most once, after it, and never beside a holder |
| `RefCountMachine.NeverTouchedOnceFreed` | Engine/Runtime/Core/Memory/RefCounted.h:53-98 | no step touches freed storage, and only a destroyed object is freed |
| `RefCountMachine.NoResurrection` | Engine/Runtime/Core/Memory/RefCounted.h:83-98 | once the strong count has reached zero nobody gets a strong reference again |
| `RefCountMachine.LockOutcome` | Engine/Runtime/Core/Memory/WeakRef.h:110-118 | a Lock succeeds only on a living object, with its increment, and fails only because the count has reached zero |
| `RefCountMachine.NothingLeaks` | Engine/Runtime/Core/Memory/RefCounted.h:53-77 | an adopted object with no holder and no thread at work has been destroyed and freed |
| `RefCounts.RefCounted.AddRef` | Engine/Runtime/Core/Memory/RefCounted.h:45-48 | the code is one machine step |
| `RefCounts.RefCounted.Release` | Engine/Runtime/Core/Memory/RefCounted.h:53-60 | removes one holder; destroys the object exactly when it was the last and frees it exactly when no weak holder is left |
| `RefCounts.RefCounted.ReleaseWeakRef` | Engine/Runtime/Core/Memory/RefCounted.h:71-77 | removes one weak holder or the phantom one; frees the storage exactly when none is left |
| `RefCounts.RefCounted.TryAddRefFromWeak` | Engine/Runtime/Core/Memory/RefCounted.h:83-98 | succeeds exactly when the strong count is not zero, whatever number of spurious failures the loop meets |
| `RefCounts.Ref.Copy` | Engine/Runtime/Core/Memory/Ref.h:42-48 | a copy is one more holder of the same object |
| `RefCounts.Ref.Move` | Engine/Runtime/Core/Memory/Ref.h:50-53 | a move passes the holder on and empties the source |
| `RefCounts.Ref.Reset` | Engine/Runtime/Core/Memory/Ref.h:112-119 | gives up the holder and empties the reference |
| `RefCounts.Ref.Assign` | Engine/Runtime/Core/Memory/Ref.h:79-84 | the old object loses one holder, the new one gains one; assigning a reference to itself or to a sibling never destroys the object |
| `RefCounts.Ref.AssignMove` | Engine/Runtime/Core/Memory/Ref.h:86-91 | the holder moves; a self-move changes nothing |
| `RefCounts.Ref.Detach` | Engine/Runtime/Core/Memory/Ref.h:131-136 | gives the counted reference away untouched |
| `RefCounts.Ref.Attach` | Engine/Runtime/Core/Memory/Ref.h:141-148 | takes a counted reference over and releases the one held before |
| `RefCounts.WeakRef.FromRef` | Engine/Runtime/Core/Memory/WeakRef.h:57-63 | one more weak holder of the object a strong reference holds |
| `RefCounts.WeakRef.Copy` | Engine/Runtime/Core/Memory/WeakRef.h:32-38 | one more weak holder of the same object |
| `RefCounts.WeakRef.Move` | Engine/Runtime/Core/Memory/WeakRef.h:40-43 | a move passes the weak holder on and empties the source |
| `RefCounts.WeakRef.Lock` | Engine/Runtime/Core/Memory/WeakRef.h:110-118 | returns a strong reference exactly when the object has a strong holder |
| `RefCounts.WeakRef.Reset` | Engine/Runtime/Core/Memory/WeakRef.h:127-134 | gives up a weak holder; frees the storage exactly when nobody holds it any more |
| `FutureMachine.InvStep` | Engine/Runtime/Core/Async/Future.h:51-94 | every step of Set, AddContinuation and Wait keeps each continuation stored, in one thread's hands, or run once |
| `FutureMachine.EachContinuationOnce` | Engine/Runtime/Core/Async/Future.h:64-94 | whatever the race, a continuation runs at most once and not before the value is there; when everybody is done each has run exactly once and no waiter is left asleep |
| `FutureMachine.RunInv` | Engine/Runtime/Core/Async/Future.h:64-78 | along every run the invariant holds and a value once set never changes |
| `FutureMachine.CallsFinish` | Engine/Runtime/Core/Async/Future.h:51-94 | each step of a call brings its thread nearer to its end, and a waiter that finds the value returns |
| `FutureMachine.CallbacksInOrder` | Engine/Runtime/Core/Async/Future.h:51-78 | callbacks stored before the value run in the order they were stored |
| `WhenAllMachine.ResultsInOrder` | Engine/Runtime/Core/Async/WhenAll.h:30-47 | in every interleaving the promise is set at most once, only after every input resolved, with result i equal to input i, and has been set once all continuations have run |
| `WhenAllMachine.NeverStuck` | Engine/Runtime/Core/Async/WhenAll.h:67-83 | an unfinished continuation always has a next step, and each brings it nearer to its end |
| `RenderGraphs.RenderGraph.AddPass` | Engine/Runtime/RenderGraph/RenderGraph.h:205-240 | appends a pass and keeps the records consistent |
| `RenderGraphs.RenderGraph.CreateTexture` | Engine/Runtime/RenderGraph/RenderGraph.cpp:158-171 | a transient texture at version 0 that no pass has produced, and its handle |
| `RenderGraphs.RenderGraph.ImportTexture` | Engine/Runtime/RenderGraph/RenderGraph.cpp:173-189 | the same for an imported texture, with the caller's initial layout |
| `RenderGraphs.RenderGraph.CreateBuffer` | Engine/Runtime/RenderGraph/RenderGraph.cpp:198-225 | the same for buffers, transient or imported |
| `RenderGraphs.RenderGraph.SetTextureFinalLayout` | Engine/Runtime/RenderGraph/RenderGraph.cpp:191-196 | exports a texture in a layout; the records stay consistent |
| `RenderGraphs.RenderGraph.MarkPassSideEffect` | Engine/Runtime/RenderGraph/RenderGraph.cpp:319-324 | marks one pass and nothing else |
| `RenderGraphs.WithAccessKeeps` | Engine/Runtime/RenderGraph/RenderGraph.cpp:227-317 | recording an access keeps version tables, records and pass order consistent, and keeps reads newest if this one is |
| `RenderGraphs.RenderGraph.RecordTextureRead` | Engine/Runtime/RenderGraph/RenderGraph.cpp:227-242 | appends the record of a read of the handle's version to the pass, and changes nothing else |
| `RenderGraphs.RenderGraph.RecordTextureWrite` | Engine/Runtime/RenderGraph/RenderGraph.cpp:244-271 | opens the next version, names this pass its producer, and returns its handle |
| `RenderGraphs.RenderGraph.RecordBufferRead` | Engine/Runtime/RenderGraph/RenderGraph.cpp:273-288 | the same for buffers |
| `RenderGraphs.RenderGraph.RecordBufferWrite` | Engine/Runtime/RenderGraph/RenderGraph.cpp:290-317 | the same for buffers |
| `RenderGraphs.RenderGraph.CullDeadPasses` | Engine/Runtime/RenderGraph/RenderGraph.cpp:391-449 | one backward sweep leaves alive exactly the least set with the side-effect passes and last producers of exported textures that is closed under producers of consumed versions |
| `RenderGraphs.RenderGraph.MarkRoots` | Engine/Runtime/RenderGraph/RenderGraph.cpp:393-413 | the first two loops mark exactly the roots |
| `RenderGraphs.RenderGraph.MarkProducers` | Engine/Runtime/RenderGraph/RenderGraph.cpp:422-447 | the inner loops mark the producers of what a pass consumes, and nothing above it |
| `RenderGraphCulling.LiveSetUnique` | Engine/Runtime/RenderGraph/RenderGraph.cpp:391-449 | there is only one such least set |
| `RenderGraphCulling.KeptIffReason` | Engine/Runtime/RenderGraph/RenderGraph.cpp:391-449 | a pass is kept if and only if it has a side effect, made the newest version of an exported texture, or made a version that a kept pass consumes |
| `RenderGraphCulling.SurvivingWritersArePrefix` | Engine/Runtime/RenderGraph/RenderGraph.cpp:422-447 | for each resource the surviving writers are a prefix of its version chain |
| `RenderGraphCulling.NewestReadsSeeNoDeadWrite` | Engine/Runtime/RenderGraph/RenderGraph.cpp:227-271 | when reads use the newest handle no surviving pass sees the write of a culled one |
| `RenderGraphCulling.CullingPreservesMeaning` | Engine/Runtime/RenderGraph/RenderGraph.cpp:391-464 | for arbitrary passes on an in-place store, reads through newest handles give every surviving pass the same inputs and every exported texture the same contents as running everything |
| `RenderGraphCulling.CulledRunMatchesFullRun` | Engine/Runtime/RenderGraph/RenderGraph.cpp:451-464 | running the execution order Compile builds leaves every exported texture with the contents that running every pass would |
| `RenderGraphCulling.SurvivorsSeeFullRun` | Engine/Runtime/RenderGraph/RenderGraph.cpp:451-464 | and each pass of that order gets the inputs it would get if every pass ran |
| `RenderGraphCulling.MeaningKeptIffNoDeadWriteVisible` | Engine/Runtime/RenderGraph/RenderGraph.cpp:391-464 | culling keeps every possible meaning if and only if no surviving pass or export sees a culled pass's write |
| `RenderGraphCulling.StaleReadBreaksCulling` | Engine/Runtime/RenderGraph/RenderGraph.cpp:227-242 | a concrete graph that reads an older handle and changes meaning when culled |
| `RenderGraphs.RenderGraph.TopologicallySortPasses` | Engine/Runtime/RenderGraph/RenderGraph.cpp:451-464 | the alive passes in add order |
| `RenderGraphs.RenderGraph.RealizeResources` | Engine/Runtime/RenderGraph/RenderGraph.cpp:466-502 | imported textures and buffers and those the pool or device could provide are realized, no others |
| `RenderGraphs.RenderGraph.PlanBarriers` | Engine/Runtime/RenderGraph/RenderGraph.cpp:504-567 | every pass gets the prelude its accesses call for in the state earlier passes left; nothing else changes |
| `RenderGraphPlans.FirstTextureUse` | Engine/Runtime/RenderGraph/RenderGraph.cpp:507-529 | the first pass to use a texture gets a barrier on it unless it only reads it in the layout it is held in: the imported one, or none |
| `RenderGraphPlans.FirstTextureBarrier` | Engine/Runtime/RenderGraph/RenderGraph.cpp:507-539 | that barrier takes the texture from the imported layout, or from none, and waits for nothing |
| `RenderGraphPlans.ImportedReadIsFree` | Engine/Runtime/RenderGraph/RenderGraph.cpp:507-528 | a pass that only reads an imported texture in its imported layout gets no barrier on it |
| `RenderGraphPlans.FirstBufferUse` | Engine/Runtime/RenderGraph/RenderGraph.cpp:516-565 | the first pass to use a buffer gets a barrier exactly if it writes it, or uses it again after an access with a write bit |
| `RenderGraphData.WriteBits` | Engine/Runtime/RenderGraph/RenderGraph.cpp:87-98 | a mask writes if and only if it has one of the seven write bits |
| `RenderGraphBarriers.EmittedReplays` | Engine/Runtime/RenderGraph/RenderGraph.cpp:518-544 | replayed from the initial layouts no barrier names a wrong old layout |
| `RenderGraphBarriers.PassStartsAsDeclaredIff` | Engine/Runtime/RenderGraph/RenderGraph.cpp:522-544 | after its prelude a pass finds its textures in the declared layouts if and only if it declares one layout per texture |
| `RenderGraphBarriers.AdjacentBarrierIsExact` | Engine/Runtime/RenderGraph/RenderGraph.cpp:524-543 | between adjacent accesses that need one stands a barrier with exactly their layouts, stages and masks |
| `RenderGraphBarriers.SeparatedIff` | Engine/Runtime/RenderGraph/RenderGraph.cpp:518-565 | after a pass's last record of a resource the passes up to any later one have a barrier on it if and only if their records of it are not all quiet |
| `RenderGraphBarriers.ConflictsAreSeparated` | Engine/Runtime/RenderGraph/RenderGraph.cpp:524-565 | in particular two accesses of different passes with a write among them have a barrier in between if the later one is the write, or the earlier one is, carries a write bit and is its pass's last record of the resource |
| `RenderGraphPlans.HiddenWriteHasNoBarrier` | Engine/Runtime/RenderGraph/RenderGraph.cpp:525-528 | in a recordable graph a pass that reads a texture after writing it hides the write, whatever its access, and the next reader in that layout gets no barrier |
| `RenderGraphPlans.UnflaggedWriteHasNoBarrier` | Engine/Runtime/RenderGraph/RenderGraph.cpp:525-528 | nor does the reader after a write whose mask carries no write bit |
| `RenderGraphBarriers.WholePlanReplays` | Engine/Runtime/RenderGraph/RenderGraph.cpp:780-813 | all preludes and the closing transitions replay cleanly and leave every exported texture in its final layout |
| `RenderGraphBarriers.ClosingIsExact` | Engine/Runtime/RenderGraph/RenderGraph.cpp:780-813 | the closing transitions are exactly those of realized exported textures not yet in their final layout, after what their last access left |
| `RenderGraphs.RenderGraph.ComputeMergeHints` | Engine/Runtime/RenderGraph/RenderGraph.cpp:569-583 | a pass merges with its predecessor exactly when both are raster and it agrees |
| `RenderGraphs.RenderGraph.ComputeRenderPassBatches` | Engine/Runtime/RenderGraph/RenderGraph.cpp:602-671 | the batches partition the execution order into contiguous non-empty runs cut exactly where a pass does not merge |
| `RenderGraphExecution.LongBatchesAreRaster` | Engine/Runtime/RenderGraph/RenderGraph.cpp:652-670 | batches longer than one hold raster passes only |
| `RenderGraphExecution.BatchesCutAtMerges` | Engine/Runtime/RenderGraph/RenderGraph.cpp:652-670 | a batch starts exactly at the first pass, at passes that are not raster, and at passes that do not merge |
| `RenderGraphs.RenderGraph.Compile` | Engine/Runtime/RenderGraph/RenderGraph.cpp:585-595 | exactly the live passes, in add order, with the planned preludes, hints and batches; what was recorded is untouched |
| `RenderGraphs.RenderGraph.RecordPass` | Engine/Runtime/RenderGraph/RenderGraph.cpp:673-766 | appends the pass's commands: marker, barriers if any, rendering scope for raster, body |
| `RenderGraphs.RenderGraph.Execute` | Engine/Runtime/RenderGraph/RenderGraph.cpp:768-778 | records the serial stream: every pass in order, then the closing transitions |
| `RenderGraphPlans.SerialStreamReplays` | Engine/Runtime/RenderGraph/RenderGraph.cpp:673-813 | executed on a device that holds imported textures in their initial layouts and the others in none, the texture barriers of that stream never meet a wrong old layout and leave every realized exported texture in its final layout |
| `RenderGraphPlans.SerialStreamBuffers` | Engine/Runtime/RenderGraph/RenderGraph.cpp:673-813 | its buffer barriers are the planned ones, in order |
| `RenderGraphPlans.SerialStreamRunsInOrder` | Engine/Runtime/RenderGraph/RenderGraph.cpp:673-778 | the stream calls the body of every executed pass once, in execution order |
| `RenderGraphPlans.BodyStartsAsDeclared` | Engine/Runtime/RenderGraph/RenderGraph.cpp:680-762 | wherever a body stands in the stream, the barriers before it leave its textures in the layouts its pass declared, if and only if it declares one layout per texture |
| `RenderGraphPlans.BodyFollowsBufferBarriers` | Engine/Runtime/RenderGraph/RenderGraph.cpp:680-762 | and the buffer barriers before it are those of the preludes up to its own |
| `RenderGraphPlans.SerialStreamIsScoped` | Engine/Runtime/RenderGraph/RenderGraph.cpp:673-813 | a body stands inside its own marker, and inside its own rendering scope exactly for a raster pass; no barrier stands inside one; nothing is left open |
| `RenderGraphs.RenderGraph.RecordParallelBatch` | Engine/Runtime/RenderGraph/RenderGraph.cpp:842-864 | for every order in which the workers take steps each list ends up with its pass's commands |
| `RenderGraphs.RenderGraph.ExecuteParallel` | Engine/Runtime/RenderGraph/RenderGraph.cpp:815-873 | for every such order the lists, submitted in order, are the serial stream |
| `Engines.Engine.RegisterSubsystem` | Engine/Runtime/Engine/Engine.h:81-92 | appends a slot |
| `Engines.Engine.IndexById` | Engine/Runtime/Engine/Engine.cpp:16-21 | maps every registered id to the first slot that has it |
| `Engines.Engine.Edges` | Engine/Runtime/Engine/Engine.cpp:16-36 | dependents are the inverse of the declared dependencies and the in-degrees their numbers |
| `Engines.Engine.BuildInitOrder` | Engine/Runtime/Engine/Engine.cpp:10-62 | no subsystem twice, each after all its dependencies; a subsystem is missing if and only if it reaches a dependency cycle, and all are there if and only if there is none |
| `Engines.DeclaredComesFirst` | Engine/Runtime/Engine/Engine.cpp:16-36 | for every id a subsystem declares, the first subsystem registered under it stands before it |
| `Engines.SortingEnds` | Engine/Runtime/Engine/Engine.cpp:47-61 | why: an empty queue of the counting machine leaves out only what can never start |
| `Engines.LeftOutIffReachesCycle` | Engine/Runtime/Engine/Engine.cpp:38-61 | a dependency order that leaves out only what waits for something left out, leaves out exactly what reaches a cycle |
| `Engines.Engine.Initialize` | Engine/Runtime/Engine/Engine.cpp:64-73 | initialises each subsystem of that order, in that order |
| `Engines.Engine.Shutdown` | Engine/Runtime/Engine/Engine.cpp:75-93 | stops in exactly the reverse order and forgets everything; does nothing if not initialised |
| `Engines.DependenciesOutlive` | Engine/Runtime/Engine/Engine.cpp:68-84 | a dependency starts before and stops after everything that depends on it |
| `FrameAllocators.AlignUpIsLeastMultiple` | Engine/Runtime/Core/Memory/FrameAllocator.cpp:15-18 | the mask expression gives the least multiple of the alignment not below the value |
| `FrameAllocators.GrownIsRoomy` | Engine/Runtime/Core/Memory/FrameAllocator.cpp:62-64 | a chunk grown for a request has room for it wherever the heap puts it, so one growth is enough |
| `FrameAllocators.FrameAllocator.Allocate` | Engine/Runtime/Core/Memory/FrameAllocator.cpp:33-64 | aligned, in bounds, beside every block of this frame, exactly where the arena as a value says; terminates after at most one growth |
| `FrameAllocators.ServesFirstRoom` | Engine/Runtime/Core/Memory/FrameAllocator.cpp:33-64 | a request goes to the first chunk from the current one on with room, at its least aligned free address; a chunk of the larger of the default size and size plus alignment is added if and only if there is none; no other chunk changes |
| `FrameAllocators.FitsIffRoom` | Engine/Runtime/Core/Memory/FrameAllocator.cpp:41-48 | the test finds room exactly where an aligned place for the request exists, and takes the first |
| `FrameAllocators.FrameAllocator.Consume` | Engine/Runtime/Core/Memory/FrameAllocator.cpp:50-57 | adds padding and size to bytesUsed, keeps it the sum of the chunks' used bytes, and raises the high-water mark to it if it is lower |
| `FrameAllocators.BlocksAreDisjoint` | Engine/Runtime/Core/Memory/FrameAllocator.cpp:41-60 | no two blocks of one frame overlap |
| `FrameAllocators.FrameAllocator.GrowAtLeast` | Engine/Runtime/Core/Memory/FrameAllocator.cpp:86-95 | appends one empty chunk of the requested or the default size and makes it current |
| `FrameAllocators.FrameAllocator.Reset` | Engine/Runtime/Core/Memory/FrameAllocator.cpp:66-74 | every chunk empty and kept, the high-water mark kept |
| `FrameAllocators.SecondFrameIsTheFirst` | Engine/Runtime/Core/Memory/FrameAllocator.cpp:33-74 | after Reset the same requests get the same addresses and no new chunk |
| `RefLruCaches.RefLruCache.Get` | Engine/Runtime/Core/Containers/RefLruCache.h:53-73 | a strong hit becomes the most recent; a weak hit is returned without touching order or budget; an expired slot is erased |
| `RefLruCaches.GetMakesNewest` | Engine/Runtime/Core/Containers/RefLruCache.h:61-65 | a hit puts the entry last and leaves the others as they are; a miss moves nothing |
| `RefLruCaches.RecencyOrder` | Engine/Runtime/Core/Containers/RefLruCache.h:53-102 | over every run an entry stands before another if and only if it was last used, inserted or hit, earlier |
| `RefLruCaches.ListedWasInserted` | Engine/Runtime/Core/Containers/RefLruCache.h:79-115 | and is what the last Insert under its key stored |
| `RefLruCaches.RefLruCache.Insert` | Engine/Runtime/Core/Containers/RefLruCache.h:79-102 | replaces, evicts the shortest oldest prefix that makes room, appends; weak references of evicted slots stay |
| `RefLruCaches.RefLruCache.EvictUntilFits` | Engine/Runtime/Core/Containers/RefLruCache.h:130-145 | drops exactly the surplus prefix of the recency list |
| `RefLruCaches.RefLruCache.Clear` | Engine/Runtime/Core/Containers/RefLruCache.h:107-115 | drops every strong reference and keeps the weak ones |
| `RefLruCaches.EvictionIsOldestFirst` | Engine/Runtime/Core/Containers/RefLruCache.h:130-145 | what is kept keeps its order and fits; with one eviction fewer it would not have fitted |
| `RefLruCaches.SurplusIsLeast` | Engine/Runtime/Core/Containers/RefLruCache.h:132-132 | the surplus is the shortest prefix whose removal makes room |
| `RefLruCaches.RunStaysWithinBudget` | Engine/Runtime/Core/Containers/RefLruCache.h:26-32 | over every run no key is listed twice and the bytes fit the budget unless a single entry is left |
| `AssetLoadMachine.OneJobPerAsset` | Engine/Runtime/Asset/AssetSubsystem.cpp:527-579 | in every run at most one job per id is under way, every promise is set exactly once when its job is done, and a strongly cached asset is not parsed again |
| `AssetLoadMachine.LoadAnswers` | Engine/Runtime/Asset/AssetSubsystem.cpp:532-542 | a call gets the cached asset exactly if the cache has it or it is alive, else the future of the one job under way, else starts the only job |
| `AssetLoadMachine.JobsFinish` | Engine/Runtime/Asset/AssetSubsystem.cpp:544-578 | every path of a job ends with its promise set; publishing caches the asset in the step that removes the in-flight entry |
| `AssetLoadMachine.OutcomeIsKept` | Engine/Runtime/Asset/AssetSubsystem.cpp:544-578 | in every run a finished job has set its promise with an asset exactly if each of its three stages went well, and its id enters the cache in the step that ends its in-flight entry exactly then |
| `AssetLoadMachine.OnlyPublishingCaches` | Engine/Runtime/Asset/AssetSubsystem.cpp:566-576 | nothing else puts an id into the cache |
| `SmallVectors.SmallVector.EmplaceBack` | Engine/Runtime/Core/Containers/SmallVector.h:218-228 | appends; when full, and only then, moves to a block of twice the capacity and frees a heap block left behind |
| `SmallVectors.SmallVector.Reallocate` | Engine/Runtime/Core/Containers/SmallVector.h:299-315 | same contents in a larger block; a heap block left behind is empty and freed |
| `SmallVectors.SmallVector.Resize` | Engine/Runtime/Core/Containers/SmallVector.h:183-201 | appends copies or destroys the tail; grows to exactly the new size if the capacity is smaller, and frees a heap block left behind |
| `SmallVectors.SmallVector.Clear` | Engine/Runtime/Core/Containers/SmallVector.h:203-210 | destroys every object |
| `SmallVectors.SmallVector.PopBack` | Engine/Runtime/Core/Containers/SmallVector.h:230-235 | destroys the last object |
| `SmallVectors.SmallVector.Erase` | Engine/Runtime/Core/Containers/SmallVector.h:242-258 | removes the range; erasing nothing keeps the tail exactly for element types whose self-move keeps the value |
| `SmallVectors.SmallVector.ShrinkToFit` | Engine/Runtime/Core/Containers/SmallVector.h:262-277 | back inline with the same contents and the heap block freed exactly when it fits, otherwise nothing |
| `SmallVectors.SmallVector.MoveFrom` | Engine/Runtime/Core/Containers/SmallVector.h:325-345 | takes the heap block over untouched, or moves the inline elements; the source ends empty |
| `SmallVectors.SmallVector.AssignMove` | Engine/Runtime/Core/Containers/SmallVector.h:102-114 | takes the other's contents; the old heap block is freed; a self-move changes nothing |
| `SmallVectors.SmallVector.AssignCopy` | Engine/Runtime/Core/Containers/SmallVector.h:87-100 | equal contents; the other unchanged; a heap block left behind for a larger one is freed |
| `SmallVectors.SmallVector.Dispose` | Engine/Runtime/Core/Containers/SmallVector.h:116-120 | leaves no object alive and a heap block freed |
| `SmallVectors.Relocate` | Engine/Runtime/Core/Containers/SmallVector.h:307-311 | moves objects to raw slots and destroys what is left of them |
| `Hashing.Fnv1a64` | Engine/Runtime/Core/Utils/Hash.h:21-31 | the loop is the byte-by-byte fold |
| `Hashing.KnownHashes` | Engine/Runtime/Core/Utils/Hash.h:15-31 | the published FNV-1a values of nothing, "a" and "foobar" |
| `Hashing.MixU32` | Engine/Runtime/Core/Utils/Hash.h:60-67 | mixes the four little-endian bytes |
| `Hashing.MixU64` | Engine/Runtime/Core/Utils/Hash.h:71-76 | mixes the eight little-endian bytes |
| `Hashing.Le32IsLittleEndian` | Engine/Runtime/Core/Utils/Hash.h:57-67 | byte k carries the bits from 8k on |
| `Hashing.PrimeIsInvertible` | Engine/Runtime/Core/Utils/Hash.h:16-16 | multiplication by the prime can be undone modulo 2^64 |
| `Hashing.OneByteChangesHash` | Engine/Runtime/Core/Utils/Hash.h:21-31 | two byte strings of one length that differ in exactly one place never collide |
| `PermutationKeys.PermutationKeyBuilder.AddBool` | Engine/Runtime/Shader/PermutationKey.cpp:21-25 | keeps the key the one-shot hash of the encodings of everything pushed |
| `PermutationKeys.PermutationKeyBuilder.AddInt` | Engine/Runtime/Shader/PermutationKey.cpp:27-31 | the same |
| `PermutationKeys.PermutationKeyBuilder.AddTypeId` | Engine/Runtime/Shader/PermutationKey.cpp:33-37 | the same |
| `PermutationKeys.PermutationKeyBuilder.AddRaw` | Engine/Runtime/Shader/PermutationKey.cpp:39-47 | the same |
| `PermutationKeys.PermutationKeyBuilder.Finalize` | Engine/Runtime/Shader/PermutationKey.h:77-77 | returns the one-shot hash of everything pushed |
| `PermutationKeys.EncodingIsInjective` | Engine/Runtime/Shader/PermutationKey.cpp:14-47 | different argument lists have different encodings |
| `PermutationKeys.EncodingsAreTagged` | Engine/Runtime/Shader/PermutationKey.cpp:14-47 | each kind of argument has its own first byte, then its value, little-endian; a span's length stands before its bytes |
| `PermutationKeys.OneByteChangesKey` | Engine/Runtime/Shader/PermutationKey.cpp:21-47 | argument lists whose encodings have one length and differ in one byte never share a key |
| `PermutationKeys.FlagChangesKey` | Engine/Runtime/Shader/PermutationKey.cpp:21-25 | the two settings of a flag never share a key, whatever is pushed around it |

## Left out

- Weak memory: the memory orders and fences of the deque, the counters and the flags are read as sequentially consistent.
- Wrap-around of 64-bit indices, sizes and footprints and of 32-bit counts and versions: the models count without bound, except where a word is modelled as one (the capacity rounding, the hashes, the decrements below zero).
- WorkerThreadPool, Future, WhenAll and AssetSubsystem have no class form: they are transition systems of their threads' steps, because what is promised of them is about interleavings.
- WorkerPoolMachine.WakeStep: `SizeApprox` reads bottom and top in one step, so what happens between its two loads is not covered.
- WorkerPoolMachine.QueuedWorkIsSeen: says that some worker is awake, not that the scheduler will run it.
- WorkerPoolProgress.ReachableWorkIsRun: speaks of a worker's own deque and the inject queue; a task in another worker's deque is reached by random steals, which may fail for ever, and workers that interleave without end are not scheduled fairly.
- RefCounts.Ref.Copy: the converting constructors, weak assignments and comparisons are the same code over related types and are not repeated.
- TaskGraphs.TaskGraph.Submit: takes one deferred executor with no other work pending; nodes pinned to several executors are covered by the interleavings of the machine.
- TaskGraphs.ParallelFor: a chunk's own loop with its cancellation check is one body; the default token it submits with is never cancelled.
- WhenAllMachine.ResultsInOrder: an empty list of inputs is answered at once with an empty result and never reaches the shared state.
- FutureMachine.EachContinuationOnce: a future that is ready from the start, continuations routed through an executor, and Transform are compositions of the modelled steps and are not repeated.
- Exceptions: a throwing task body counts as run, as the code swallows it; element constructors do not throw.
- Waits for completion: blocking in Future::Wait is modelled, the scheduling of the thread that waits is not.
- FrameAllocators.FrameAllocator.Allocate: the memory-resource and allocator adapters, Construct and BytesCapacity forward to it or sum and are left out.
- SmallVectors.SmallVector.EmplaceBack: takes its argument by value, so an argument that aliases an element of a vector that reallocates is not covered.
- SmallVectors.SmallVector.Resize: the overload that default-constructs is the same loop with a fixed value; the range and copy constructors only add elements one by one.
- AssetLoadMachine.OneJobPerAsset: Shutdown, which clears the in-flight table under running jobs, is left out, as are the loaders behind ParseAndConstruct.
- RefLruCaches.RefLruCache.Get: whether a value is alive elsewhere is a parameter; the counts behind it are the counting model's.
- GPU hazards: a barrier that separates a write from two later readers names the stages of the first only; whether the second is ordered by it is a question about the GPU's memory model and is not asked.
- RenderGraphs.RenderGraph.AddPass: Setup is not called inside it; its recording calls follow, up to the next AddPass.
- RenderGraphs.RenderGraph.ComputeRenderPassBatches: the attachment formats and sample count derived for each batch are not modelled.
- RenderGraphs.RenderGraph.RecordPass: the attachments and the render area of a rendering scope are not modelled.
- Attachments, render areas, inferred usages, view descriptions and debug names of the render graph are field copying and are not modelled; RGNode.h, the transient pool and the resource registry are not part of this model.
- Tickables and Tick of the engine, and lookups by type, are left out: easier members of the same class.
- The 32-bit FNV, Combine and MixTrivial have no property beyond those of the 64-bit fold.
- The Vulkan back end, the editor, file systems, logging, reflection, float mathematics and cooked formats are left out.
