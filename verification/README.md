# A verified model of the threading, hashing and path components

This project models the parts of the library whose behaviour is hardest to see from the code, and proves what they
promise. It follows the source: what the source computes by changing things in place is a class or an array here, with
the source's loops and branches, proved against a specification; what the source promises over whole executions is a
lemma about all runs of a state machine.

`dafny verify dfyconfig.toml` checks the whole project.

**The thread pool** (`Pool*.dfy`). `Pool` is a state machine over the shared words, the lanes, the tag map and a
program counter per thread; one step is one atomic operation or one section under a mutex, except that the idle wait
loads `terminate` in one step and `queuedCount` in a later one, and blocks in a third, because both move outside of
`idleMutex`. Threads enter through enqueue, retire, finishAllThreads and abandonAllThreads at any time, from running
tasks too. `PoolSums` and `PoolLaws` say what the counters should count and that every step conserves it;
`PoolInvariants` joins this to one invariant of all runs; `PoolTheorems` and `PoolSweep` state what follows, and
`PoolOutcomes` why each call and each task ends as it does. `PoolCode` is the same protocol as code: a class whose
fields are the shared words, with `runWorker`, `tryGetTask`, `enqueue` and `retire` as loops and calls, each operation
one step of the machine, and with an arbitrary schedule of other threads between any two operations. `PoolDrain` is
the draining shutdown, with tasks as finite trees of further tasks, and `PoolShutdown` says that the machine hands
over to it what it needs. `BlockingQueue` is the class of the lanes.

**Fork and join** (`ForkJoin*.dfy`). `parallelFor` and `parallelForAsync` as a state machine of dispensers and of
threads that are stacks of frames, so that a function may start further batches to any depth. `ForkJoinCode` is
`parallelFor` and `drainIndices` as code, recursive where the user's functions nest, with a log of what these
functions do.

**SHA-3** (`Words`, `Fips202`, `Keccak`, `Sha3`, `Sha3Correct`). `Fips202` is a transcription of FIPS 202 on bit
strings: the step mappings of section 3.2, the permutation of section 3.3, the padding and the sponge of sections 4
and 5.1, and the functions of section 6.1. Words of the C code are sequences of 64 bits, least significant bit first,
so that the bit order of appendix B.1 is the order of the sequence. `Keccak` and `Sha3` are the C code, in place on
arrays; `Sha3Correct` joins the two.

**Symlinks and mounts** (`Mounts`, `Symlinks`, `SymlinkMeaning`, `MountInfo`, `MountTable`). The reading of links and
the lexical normalisation of paths are functions about which nothing is assumed; `SymlinkMeaning` says what a
replacement does to a path, and under which lookups of paths it leads to the same file. `MountInfo` is the reader of
the mount table, and `MountTable` the table as the kernel prints it, against which the reader is held.

**The execution queue** (`ExecutionQueue`). A task is a finite list of calls to the queue that it makes while it runs;
other threads act between any two sections. A log of what the tasks do is part of every contract.

**The periodic thread** (`Periodic`). A state machine for all interleavings of the thread with pause, resume, start
and terminate, and the loop of the thread as code.

Three facts about the source came out of the proofs. `parseMountInfo` does not read back every mount point: the
formatted read stops at vertical tab, form feed and carriage return, which the kernel does not escape, in the mount
point and in the root of the mount, which stands before it on the line. `MountTable.MountPointReadBack` gives the
exact condition over both fields, and `MountTable.StrayBlankInMountPoint` and `MountTable.StrayBlankInRoot` a failing
row for each. And when `resolveLocalSymlinks` has used up its hops, resolving the result again may go on
(`Symlinks.SpentHopsCanGoOn`, `Symlinks.LinksToEachOther`); `Symlinks.ResolvingAgain` and `Symlinks.SpentHops` say
exactly when it does not, and `Symlinks.ResolvedWithinHops` when no link is left. And the resolver does not always
follow links as the kernel does: a target with `..` behind a link is taken lexically first
(`SymlinkMeaning.DotsBehindLink`), as the test of the lookup at tests/test-app/storagespeed_tests.cpp:466 has it for
the path that is asked about; `SymlinkMeaning.ReplacementIsSame` says exactly when a replacement leads to the same
file. The remark in hash/sha3_hasher.hpp:33 that an update with nothing might not be supported is not borne out by the
code: `Sha3.Sha3Context.Update` has no condition on the length.
## Model

| member | source | states |
|---|---|---|
| `PoolTheorems.NoStrandedTask` | threading/cthreadpool.h:192-199 | in every state of every run before a stop is requested, if any worker is blocked un-notified or has found the wait predicate false, the tasks in all lanes number at most the awake workers that execute nothing plus the producers that have pushed and not yet passed the idle gate or the notification |
| `PoolTheorems.CountersAgree` | threading/cthreadpool.h:204-209 | in every state of every run queuedCount is the tasks in the lanes plus the work in progress of producers and removers, idleCount is the number of workers in the idle region, and the outstanding count of a tag node is the tasks of that node wherever they are |
| `PoolTheorems.AssertionsHold` | threading/cthreadpool.cpp:136-234 | the asserted facts hold whenever they are reached: a completion finds a live node with a task outstanding, a retirer never subtracts more than there is, no removal takes queuedCount below zero, and idleCount is zero once every worker has exited |
| `PoolTheorems.PointersAreLive` | threading/cthreadpool.h:211-216 | every tag-state pointer held by a lane, a worker, a producer or a retirer names a node that is still in the map, in every interleaving with enqueue, steal, completion and erasure |
| `PoolTheorems.RetirementBarrier` | threading/cthreadpool.cpp:183-215 | from the moment retire is done with a node, and ever after, no task of that node is in a lane, popped, running, or registered and not yet pushed; by `PoolOutcomes.RetireMarks` and `RetireGoesThrough` that is how retire ends for every tag in the map |
| `PoolTheorems.DoneIsErased` | threading/cthreadpool.cpp:210-214 | a retirement that has returned has erased its node, and the number of the node is not given to another |
| `PoolTheorems.NoStartAfterRetired` | threading/cthreadpool.cpp:217-224 | no task whose run check comes after the retired mark is set ever executes: whoever executes a task of the node later was executing it when the mark was set |
| `PoolTheorems.RetirerWaitsForTask` | threading/cthreadpool.cpp:207-210 | a retirer that is blocked and not notified waits for a task that is still outstanding: no wakeup is lost |
| `PoolTheorems.OneFate` | threading/cthreadpool.cpp:17-215 | every enqueue call is in one of these cases at every moment of every run: its task is in one place, or has met one fate (executed, skipped as retired, removed by retire, destroyed by abandonment, rejected, or failed to be pushed) |
| `PoolTheorems.FatesAreFinal` | threading/cthreadpool.cpp:17-215 | a fate, once met, is never changed or taken back |
| `PoolTheorems.ExecutedMeansRun` | threading/cthreadpool.cpp:29-50 | a task that counts as executed has been executed by some thread; none is recorded without its call |
| `PoolTheorems.StopWakesAll` | threading/cthreadpool.cpp:116-123 | once requestWorkersStop has notified, no worker is blocked un-notified, about to block, or still in the wait predicate with terminate read before the stop, then or later |
| `PoolTheorems.JoinNeverSticks` | threading/cthreadpool.cpp:125-137 | while finishAllThreads waits for its join, some worker can make a step: no deadlock over idleMutex and no sleeping worker |
| `PoolTheorems.StoppedWorkerEnds` | threading/cthreadpool.cpp:23-65 | once the stop is requested, every step of a worker brings it closer to its exit, whichever way the step goes |
| `PoolInvariants.RunInv` | threading/cthreadpool.h:80-217 | the invariant that joins the counters, the tag map, the mutexes, the parked workers, the stop request and the retirers holds in every state of every run |
| `PoolInvariants.StepKeeps` | threading/cthreadpool.cpp:17-249 | every step of every thread, and every call from outside, keeps that invariant |
| `PoolInvariants.WakeupsKept` | threading/cthreadpool.h:116-124 | every step keeps the balance between queued tasks and those who will see to them, the two loads of the wait predicate outside of the order of enqueue included |
| `PoolInvariants.RetirersKept` | threading/cthreadpool.cpp:226-235 | every step leaves a blocked, un-notified retirer something to wait for |
| `PoolLaws.StepLaws` | threading/cthreadpool.cpp:17-249 | each step changes queuedCount, idleCount, the outstanding counts and the retired marks by exactly what it changes in the things they count, and moves tasks without copying or dropping one |
| `PoolSweep.SweepVisitsEachOnce` | threading/cthreadpool.cpp:81-84 | the sweep from the own index visits every other lane once and never the own one |
| `PoolSweep.SameLane` | threading/cthreadpool.cpp:68-92 | a task that stays queued over a stretch of a run stays on one lane |
| `PoolSweep.FailedSweepOverlooksNothing` | threading/cthreadpool.cpp:68-92 | when tryGetTask returns false, no task sat in the lanes throughout the call, whatever the other threads did meanwhile |
| `PoolOutcomes.RetireMarks` | threading/cthreadpool.cpp:187-198 | in every run retire returns at once exactly when the map lacks the tag; otherwise it marks the node of the tag, which nobody had marked before, and goes on |
| `PoolOutcomes.RetireGoesThrough` | threading/cthreadpool.cpp:187-215 | a retirement that has marked a node works on that node until it is done with it |
| `PoolOutcomes.RetireRemovesQueued` | threading/cthreadpool.cpp:200-204 | when retire comes to its wait, no task of its node has sat in the lanes all the while since it began |
| `PoolOutcomes.CheckDecides` | threading/cthreadpool.cpp:217-224 | the run check skips a popped task exactly if the node of that very task is retired at that moment; anything else is run |
| `PoolOutcomes.FateHasCause` | threading/cthreadpool.cpp:17-257 | every fate has its cause at an earlier moment: an executed task was run, a skipped one had a retired node of its own, a removed one sat on a lane that the retirer of its node swept, a destroyed one was taken out by an abandonment, a rejected one has a tag that was being retired, a failed one was taken back by its producer |
| `PoolOutcomes.RegisterDecides` | threading/cthreadpool.h:88-99 | enqueue refuses exactly what has a tag that is being retired; anything else gets the node of its tag, made if there is none |
| `PoolOutcomes.WorkerExitsOnStop` | threading/cthreadpool.cpp:23-65 | a worker ends only when a stop has been requested |
| `PoolOutcomes.TerminateHasStopper` | threading/cthreadpool.cpp:116-118 | terminate is set only by a thread that called finishAllThreads or abandonAllThreads |
| `PoolOutcomes.StopperKeepsKind` | threading/cthreadpool.cpp:125-181 | a stop function does what it was called for to its end: a draining finish drains, an abandonment abandons |
| `PoolOutcomes.JoinWaitsForAll` | threading/cthreadpool.cpp:129-140 | the join of finishAllThreads is over only when every worker has exited, unless an abandonment has detached them; the drain follows exactly if it was asked for |
| `PoolOutcomes.DetachedIsAbandoned` | threading/cthreadpool.cpp:178-180 | workers are detached only by an abandonment that has come to its end |
| `PoolOutcomes.AbandonOverlooksNothing` | threading/cthreadpool.cpp:167-176 | when abandonAllThreads has returned, no task sat in the lanes throughout its sweep |
| `PoolOutcomes.DrainOverlooksNothing` | threading/cthreadpool.cpp:142-158 | when a draining finishAllThreads has returned, its last pass took nothing, and no task sat in the lanes throughout that pass |
| `PoolOutcomes.WithoutIsKept` | threading/cconsumerblockingqueue.h:74-80 | what a retirement leaves on a lane of the machine is what remove_if of the queue class leaves: the other tasks, in their order |
| `PoolCode.SharedPool.TryGetTask` | threading/cthreadpool.cpp:68-92 | the code, between arbitrary steps of other threads, follows the machine; a task that it returns is taken and counted off, and when it returns none, no task stayed in the lanes throughout; while nobody else moves, none means that all lanes are empty |
| `PoolCode.SharedPool.StealFromOthers` | threading/cthreadpool.cpp:79-91 | the steal loop: every victim of the sweep is tried; while nobody else moves, a fruitless sweep leaves all lanes empty and any other takes one task |
| `PoolCode.SharedPool.TryPop` | threading/cconsumerblockingqueue.h:119-130 | try_pop on a lane takes its first task or leaves it empty, in one section |
| `PoolCode.SharedPool.RunWorker` | threading/cthreadpool.cpp:23-65 | the worker loop is a run of the machine; it ends with the exit, and then terminate is set, or with the schedule of the others used up and then all lanes empty, unless somebody else keeps idleMutex |
| `PoolCode.SharedPool.ExecuteTask` | threading/cthreadpool.cpp:29-50 | a taken task is executed exactly if the tag node of that task is not retired at the moment of the check, skipped exactly if it is, and completed |
| `PoolCode.SharedPool.TaggedTaskCanRun` | threading/cthreadpool.cpp:217-224 | a task can run exactly if it has no tag, or its own tag is not retired |
| `PoolCode.SharedPool.WaitFor` | threading/cthreadpool.cpp:58-63 | the wait with predicate: it ends only on terminate, on queued work or on the timeout, and the mutex is held from the predicate to the block |
| `PoolCode.SharedPool.EvaluatePredicate` | threading/cthreadpool.cpp:61 | the wait predicate: two loads with the other threads in between; the wait is over exactly if the first found terminate set, or the second found work or came after the timeout |
| `PoolCode.SharedPool.LoadTerminateInWait` | threading/cthreadpool.cpp:61 | the first load: terminate ends the wait and lets go of idleMutex |
| `PoolCode.SharedPool.LoadQueuedCountInWait` | threading/cthreadpool.cpp:61 | the second load: without queued work and without a timeout the worker keeps idleMutex and is about to block |
| `PoolCode.SharedPool.Enqueue` | threading/cthreadpool.h:82-126 | enqueue is a run of the machine: ticket, registration, count, push, gate, notification in this order; the task has been pushed to the end of the lane that the ticket selects, whose length is returned, or refused, or taken back because the push threw |
| `PoolCode.SharedPool.RegisterTag` | threading/cthreadpool.h:88-99 | the registration fails exactly if the tag is being retired; otherwise the task has the node of its tag |
| `PoolCode.SharedPool.UndoSubmit` | threading/cthreadpool.h:109-114 | when the push throws, the count and the registration are taken back |
| `PoolCode.SharedPool.PushTask` | threading/cthreadpool.h:107 | the push goes to the end of the selected lane and returns its new length |
| `PoolCode.SharedPool.RetireTag` | threading/cthreadpool.cpp:183-215 | retire of a tag that the map holds returns only when no task of its node is queued, popped, running or on its way into a lane; of a tag that the map lacks it returns at once |
| `PoolCode.SharedPool.MarkRetired` | threading/cthreadpool.cpp:187-198 | the node is that of the tag, and there is none exactly if the map lacks the tag |
| `PoolCode.SharedPool.RemoveQueued` | threading/cthreadpool.cpp:202-209 | the removal loop over the lanes and the correction of both counts |
| `PoolCode.SharedPool.RemoveFromLane` | threading/cthreadpool.cpp:204 | remove_if on one lane, counted: the tasks of the node go and the others keep their order |
| `PoolCode.RemoveIf` | threading/cconsumerblockingqueue.h:74-80 | the loop that removes: what stays, in order, and what goes |
| `PoolCode.SharedPool.AwaitOutstanding` | threading/cthreadpool.cpp:207-214 | the wait for the last outstanding task, and the erasure in the same section |
| `PoolDrain.ShutdownPool.Drain` | threading/cthreadpool.cpp:142-160 | the pass-until-empty loop ends for all finite trees of spawned tasks, accounts for every task of every tree exactly once (run with its own tag not retired, or within the tree of a task whose own tag is retired and that was skipped or refused), runs all of them when no tag is retired, and leaves every lane empty, queuedCount zero and no task outstanding |
| `PoolDrain.ShutdownPool.DrainPass` | threading/cthreadpool.cpp:146-158 | a pass that drains nothing leaves the lanes as they were, all empty; one that drains something makes the remaining trees smaller |
| `PoolDrain.ShutdownPool.DrainLane` | threading/cthreadpool.cpp:149-157 | a lane is drained together with what comes into it meanwhile |
| `PoolDrain.ShutdownPool.ExecuteContainedTask` | threading/cthreadpool.cpp:237-257 | one popped task is run if its own tag is not retired and skipped if it is, its children are enqueued, and it is accounted for |
| `PoolDrain.ShutdownPool.Enqueue` | threading/cthreadpool.h:82-126 | enqueue during the drain: the item goes to the end of the lane of the ticket with the node of its tag, counted before the push; it is refused exactly when its tag is retired |
| `PoolShutdown.DrainMayStart` | threading/cthreadpool.cpp:125-160 | in every run of the machine, once the workers have exited and no caller is inside, the counters agree with the lanes as the drain needs it, and no tag is being retired |
| `ForkJoinTheorems.IndicesHandedOutOnce` | threading/cthreadpool.h:246-275 | for any number of concurrent drainers each index below the count is handed out at most once and no other is, no call ends that did not begin, completedCount is at most min(nextIndex, count), nextIndex is at most the count plus the drainers, and these are at most the count, and at most the workers and the caller |
| `ForkJoinTheorems.HelpersEnqueued` | threading/cthreadpool.h:313-335 | once a batch is dispatched, the helpers enqueued for it, whatever became of them, number the lesser of count - 1 and the workers for parallelFor, and for parallelForAsync the lesser of count and workers, but one for a count of zero |
| `ForkJoinTheorems.FiresOnceAfterAll` | threading/cthreadpool.h:265-266 | onAllCompleted begins at most once, and only when every call of fn has returned or thrown |
| `ForkJoinTheorems.NoCallAfterFired` | threading/cthreadpool.h:231-235 | once onAllCompleted has begun, fn is never called again, although late helpers may still come to the dispenser |
| `ForkJoinTheorems.ParallelForReturns` | threading/cthreadpool.h:296-320 | a thread leaves a parallelFor with a count of two or more, from wherever in it, only when every call of fn has returned or thrown |
| `ForkJoinTheorems.NestedCallsCannotDeadlock` | threading/cthreadpool.h:285-320 | with fn blocking only in nested parallelFor calls, to any depth and on any number of threads: whenever a caller is blocked on its batch, some thread that is not blocked executes an index of that batch or of a batch nested in it |
| `ForkJoinTheorems.BlockedHasWorker` | threading/cthreadpool.h:285-320 | the same for any state that satisfies the invariant, by induction from outer to inner batches |
| `ForkJoinTheorems.NeverStuck` | threading/cthreadpool.h:137-141 | as long as any thread is in the middle of a batch, some thread can make a step, without any queued helper being taken |
| `ForkJoinTheorems.NothingLeftUndone` | threading/cthreadpool.h:148-153 | when nobody works on a batch and no helper of it is queued, every index has run once and onAllCompleted has run once, unless all helpers of a parallelForAsync, as many as were due and at least one, were destroyed before any of them began |
| `ForkJoinTheorems.AsyncEndsOnWorker` | threading/cthreadpool.h:148-153 | the onAllCompleted of parallelForAsync runs on a worker, at the bottom of its stack, never inside the call that started the batch |
| `ForkJoinTheorems.SleeperIsNotForgotten` | threading/cthreadpool.h:296-320 | a caller that is blocked and not notified waits for a batch that is not done |
| `ForkJoinInvariants.RunInv` | threading/cthreadpool.h:229-336 | the words of every batch agree with the frames that work on it, and frames nest, in every state of every run |
| `ForkJoinInvariants.EveryStepKeeps` | threading/cthreadpool.h:229-336 | every step, every call, and every helper taken or destroyed keeps that invariant |
| `ForkJoinCode.ForkJoinPool.ParallelFor` | threading/cthreadpool.h:285-320 | the code, with functions that call parallelFor themselves to any depth, between arbitrary steps of other threads: when it returns, every call of fn has ended, and for every index that the caller took, fn has made its own calls, all of them in order; it returns unless it is blocked, un-notified, when the others stop moving, and always if no other thread moves |
| `ForkJoinCode.ForkJoinPool.RunDirectly` | threading/cthreadpool.h:290-294 | a count of one: fn is called directly, once, and makes its calls |
| `ForkJoinCode.ForkJoinPool.DrainIndices` | threading/cthreadpool.h:246-268 | the loop takes indices until there are none left, and ends; for each index fn has made its calls, behind the last one the completion has, and fn and the completion were begun no other times |
| `ForkJoinCode.ForkJoinPool.RunIndex` | threading/cthreadpool.h:253-266 | one index: fn makes the calls of its plan, the index is counted, and the completion follows when it was the last |
| `ForkJoinCode.ForkJoinPool.RunPlan` | threading/cthreadpool.h:255 | what fn does: its own calls of parallelFor and parallelForAsync, every one of them, in order |
| `ForkJoinCode.ForkJoinPool.FetchIndex` | threading/cthreadpool.h:250-252 | one index is taken, or the drain ends |
| `ForkJoinCode.ForkJoinPool.Dispatch` | threading/cthreadpool.h:313-315 | behind the loop the helpers of the batch number the lesser of count - 1 and workers, or for parallelForAsync the lesser of count and workers, but one for a count of zero |
| `ForkJoinCode.ForkJoinPool.ParallelForAsync` | threading/cthreadpool.h:322-336 | the batch is made, the lesser of count and workers helpers are enqueued, one for a count of zero, and the call returns with the stack as it was |
| `ForkJoinCode.ForkJoinPool.RunFinale` | threading/cthreadpool.h:265-266 | onAllCompleted of parallelForAsync is begun once and makes its calls, which may start batches of its own |
| `ForkJoinCode.ForkJoinPool.AwaitDone` | threading/cthreadpool.h:318-319 | the wait ends only when the batch is done, and at once when the caller has worked alone |
| `ForkJoinCode.ForkJoinPool.RunHelper` | threading/cthreadpool.h:314-335 | a worker takes a helper, drains, completes if the index was the last, and is free again, with fn and the completion having made their calls; the helper of an empty batch only runs the completion, once |
| `ForkJoinCode.AloneIsDone` | threading/cthreadpool.h:137-141 | a batch on which only its initiator has worked is done when the initiator comes to wait |
| `BlockingQueue.ConsumerQueue.TryPush` | threading/cconsumerblockingqueue.h:150-162 | accepts unless the queue is at maxSize, and says how long the queue is |
| `BlockingQueue.ConsumerQueue.Push` | threading/cconsumerblockingqueue.h:164-180 | gives way while the queue is full; at once when it is not |
| `BlockingQueue.ConsumerQueue.TryPop` | threading/cconsumerblockingqueue.h:119-130 | takes the first item; items are popped in the order in which they were pushed |
| `BlockingQueue.ConsumerQueue.Pop` | threading/cconsumerblockingqueue.h:132-148 | waits once when the queue is empty, then takes the first item or none |
| `BlockingQueue.ConsumerQueue.RemoveIf` | threading/cconsumerblockingqueue.h:74-80 | removes and counts all matching items; the others keep their order, and the queue stays within maxSize |
| `BlockingQueue.KeptInPushOrder` | threading/cconsumerblockingqueue.h:74-80 | after a removal the queue still holds items in push order, all pushed after whatever was popped |
| `BlockingQueue.KeptMembers` | threading/cconsumerblockingqueue.h:74-80 | an item stays exactly if it does not match |
| `Keccak.KeccakF` | hash/sha3.c:73-112 | in-place keccakf leaves the lanes that 24 rounds of KECCAK-p[1600] of FIPS 202 make of them |
| `Keccak.ThetaInPlace` | hash/sha3.c:82-90 | the column-parity loops are theta of section 3.2.1 |
| `Keccak.RhoPiInPlace` | hash/sha3.c:92-99 | the walk with one temporary moves every lane as rho and pi, applied to all lanes at once, do |
| `Keccak.WalkDone` | hash/sha3.c:92-99 | after 24 moves of the walk the state is pi of rho (sections 3.2.2 and 3.2.3) |
| `Keccak.RhoWalkLanes` | hash/sha3.c:60-68 | the walk of algorithm 2 rotates each lane once, by the triangular number of its place in the orbit |
| `Keccak.WalkIsWalk` | hash/sha3.c:65-68 | the orbit of (1, 0) visits every lane but the first, each once |
| `Keccak.PilnAreDestinations` | hash/sha3.c:65-68 | keccakf_piln is that orbit |
| `Keccak.RotcAreOffsets` | hash/sha3.c:60-63 | keccakf_rotc is the sequence of triangular numbers modulo 64 |
| `Keccak.ChiInPlace` | hash/sha3.c:101-107 | the row loops are chi of section 3.2.4 |
| `Keccak.RndcIsRoundConstant` | hash/sha3.c:45-58 | keccakf_rndc holds the round constants that the feedback register of section 3.2.5 generates |
| `Keccak.Rotl64IsRotated` | hash/sha3.c:40-43 | the two shifts and the or are the rotation of a lane |
| `Sha3.Sha3Context.Init256` | hash/sha3.c:117-123 | the initial context for 256 bits |
| `Sha3.Sha3Context.Init384` | hash/sha3.c:125-131 | the initial context for 384 bits |
| `Sha3.Sha3Context.Init512` | hash/sha3.c:133-139 | the initial context for 512 bits |
| `Sha3.Sha3Context.Update` | hash/sha3.c:141-207 | Update leaves the context that feeding its octets one by one leaves, for every length, zero included |
| `Sha3.FeedConcat` | hash/sha3.c:141-207 | chunk independence: feeding a and then b is feeding their concatenation, so that Update does not depend on how a message is cut |
| `Sha3.FeedWithinWord` | hash/sha3.c:155-162 | octets that complete no word only add to `saved` |
| `Sha3.FeedCompletesWord` | hash/sha3.c:164-179 | octets that complete a word absorb it, and permute when the rate is full |
| `Sha3.Sha3Context.Finalize` | hash/sha3.c:213-261 | the two XORs, the permutation, and the conversion of all lanes to little-endian octets, which overwrites the lanes: on hosts of either byte order they are left holding what their octets stand for |
| `Sha3.ConvertInPlace` | hash/sha3.c:244-258 | the conversion in the memory that lanes and octets share, on hosts of either byte order: every lane comes out as its octets, least significant first |
| `Sha3.OctetsOfWord` | hash/sha3.c:246-257 | the eight octets of a lane, taken through two 32-bit halves, are its bits in order |
| `Sha3.FlatIsString` | hash/sha3.c:73-112 | the lanes in memory order are the state string of section 3.1.3 |
| `Sha3.PermutedString` | hash/sha3.c:73-112 | what keccakf does to the lanes is KECCAK-p[1600, 24] on the state string |
| `Sha3Correct.FeedOctetStreams` | hash/sha3.c:141-207 | each octet keeps the relation between the context and the message so far: whole blocks absorbed, the rest XORed in or saved, unused bytes of `saved` zero |
| `Sha3Correct.FeedStreams` | hash/sha3.c:141-207 | that relation after any message |
| `Sha3Correct.PaddingStep` | hash/sha3.c:218-236 | the two XORs of Finalize are the suffix 01 and pad10*1, for every byteIndex and wordIndex, both pad bytes in one byte included |
| `Sha3Correct.PaddedMessage` | hash/sha3.c:218-236 | message, suffix and pad10*1 make whole blocks, of which the last is the one that Finalize absorbs |
| `Sha3Correct.DigestIsSponge` | hash/sha3.c:117-261 | the final string is the sponge of section 4 on the padded message, with one squeeze |
| `Sha3Correct.DigestIsSha3` | hash/sha3.c:117-261 | for the three variants it is the digest of section 6.1 |
| `Sha3Correct.Hash` | hash/sha3.c:117-261 | end to end: for every list of chunks, Init, the Updates and Finalize leave in the output the digest that section 6.1 of FIPS 202 assigns to their concatenation |
| `Mounts.WithinIsComponentPrefix` | system/storagespeed.cpp:10-13 | on absolute normal paths isWithinFolder is exactly component-list prefix |
| `Mounts.ComponentsRoundTrip` | system/storagespeed.cpp:10-13 | an absolute normal path is the join of its components |
| `Mounts.MountForPath` | system/storagespeed.cpp:99-108 | the mount returned is the longest that contains the path, the last listed among equals, and none only if none contains it |
| `Mounts.DeepestMount` | system/storagespeed.cpp:99-108 | on absolute normal paths that is the deepest containing mount, and it hides earlier ones on the same point |
| `Mounts.CanonicalPath` | system/storagespeed.cpp:88-97 | the longest matching firmlink, the first among equals, is replaced by its target; the path is unchanged if none matches |
| `Symlinks.ResolveLocalSymlinks` | system/storagespeed.cpp:110-139 | ends on all inputs, link loops included; reads links only on prefixes whose own mount is present and local; returns the path after at most 39 replacements of its first link; no link is left unless the hops are used up |
| `Symlinks.ReadLink` | system/storagespeed.cpp:121-125 | a link is read only where its prefix is on a local mount |
| `Symlinks.WalkEnds` | system/storagespeed.cpp:115-123 | the walk stops at the end or at the first prefix that is not on a local mount, with everything before it plain |
| `Symlinks.WalkRestarts` | system/storagespeed.cpp:125-136 | a link that is found is the first link of the path; it is replaced, or the hops are used up |
| `SymlinkMeaning.LocalMountHolds` | system/storagespeed.cpp:120-123 | a prefix counts as local exactly if the mount that holds it, the longest and last listed that contains it, is local |
| `SymlinkMeaning.ResolvedByFolders` | system/storagespeed.cpp:113-129 | a normal path is resolved exactly if it leads through no link before the first folder that is not on a local mount; the folders are those whose components the path begins with |
| `SymlinkMeaning.ReplacedLink` | system/storagespeed.cpp:134-135 | the first link, name in folder dir with rest behind it, gives way to target + rest if the target is absolute and to dir + target + rest if not, normalised and with its firmlink replaced |
| `SymlinkMeaning.ReplacementIsSame` | system/storagespeed.cpp:134-135 | where links stand for their targets, one replacement leads to the same file exactly if the path with the target put in is looked up like its normal form |
| `SymlinkMeaning.ResolvedIsSame` | system/storagespeed.cpp:110-139 | for every way to look up paths under which links stand for their targets and absolute paths are the same in normal form: an absolute path and what it is resolved to are looked up alike, however many links are replaced |
| `SymlinkMeaning.DotsBehindLink` | system/storagespeed.cpp:135 | a link to d/../e where d is a link: links stand for their targets, and yet the path is resolved to another file than it is looked up as, because .. is taken lexically first |
| `Symlinks.ResolvedWithinHops` | system/storagespeed.cpp:110-139 | the result has no link left exactly if fewer than 40 replacements resolve the path |
| `Symlinks.ResolvingAgain` | system/storagespeed.cpp:110-139 | resolving the result again changes nothing exactly if fewer than 40 replacements resolve the path, or 39 more replacements lead back to where they started |
| `Symlinks.SpentHops` | system/storagespeed.cpp:131-132 | resolving the result again changes nothing exactly if the replacements lead round from it in a cycle whose length divides 39; a resolved path is one of length one |
| `Symlinks.BackOnCycle` | system/storagespeed.cpp:110-139 | on a cycle of links a path comes back after the multiples of its length, and then only |
| `Symlinks.LinkToItself` | system/storagespeed.cpp:131-132 | a link to itself uses up the hops, and resolving the result again changes nothing |
| `Symlinks.LinksToEachOther` | system/storagespeed.cpp:131-132 | two links to each other use up the hops, and resolving the result again gives the other one |
| `Symlinks.SpentHopsCanGoOn` | system/storagespeed.cpp:131-132 | links that lead to longer and longer paths use up the hops, and resolving the result again goes on |
| `MountInfo.UnescapedMountPoint` | system/storagespeed.cpp:16-32 | the decoder loop, incomplete escapes kept as they are |
| `MountInfo.UnescapedEscaped` | system/storagespeed.cpp:15-32 | decoding undoes the octal escaping of space, tab, newline and backslash, for every string |
| `MountInfo.UnescapedPiece` | system/storagespeed.cpp:21-29 | a backslash and three octal digits are the byte with that number modulo 256; any other character, a lone backslash included, is itself |
| `MountInfo.ParseMountInfo` | system/storagespeed.cpp:53-71 | line by line and field by field; malformed lines are skipped |
| `MountInfo.ParseLine` | system/storagespeed.cpp:59-68 | which fields of a line are used, and when a line is skipped |
| `MountInfo.ParsedIff` | system/storagespeed.cpp:59-68 | a line is a mount exactly if a separator with a type behind it comes after its fifth field; the device is the third field, the mount point the fifth, unescaped, and the type the one behind the first such separator |
| `MountInfo.NoRemoteType` | system/storagespeed.cpp:34-44 | no type of an NFS, SMB, Ceph or 9P client, no FUSE type but fuseblk, and no automounter is local |
| `MountInfo.LocalTypes` | system/storagespeed.cpp:34-44 | the file systems on block devices named here, and those in memory, are local |
| `MountTable.RowRead` | system/storagespeed.cpp:59-68 | what is read of any row, whatever its two paths hold: the device, and as the mount point the second piece of the root and the mount point taken together, where vertical tab, form feed and carriage return cut |
| `MountTable.MountPointReadBack` | system/storagespeed.cpp:59-68 | a mount point comes back from a printed row exactly if, with a root of one piece, it holds none of these characters, or, with a root of several, it is the second of them; with none of them in the root, exactly if it holds none |
| `MountTable.OnePiece` | system/storagespeed.cpp:61 | a path is one piece exactly if these characters occur at its end only |
| `MountTable.RowReadBack` | system/storagespeed.cpp:59-68 | a row comes back as a mount exactly if its mount point does and no piece of a path, taken for the separator, changes whether the mount is local |
| `MountTable.TableReadBack` | system/storagespeed.cpp:53-71 | reading a printed table gives back the mount points, devices and localities of its rows, in order, exactly if every row comes back |
| `MountTable.PlainTableReadBack` | system/storagespeed.cpp:53-71 | when no root holds one of these characters: exactly if no mount point does |
| `MountTable.StrayBlankInMountPoint` | system/storagespeed.cpp:61 | a row whose mount point /a\rb is read as /a |
| `MountTable.StrayBlankInRoot` | system/storagespeed.cpp:61 | a row with root /a\rb whose mount point /mnt is read as b |
| `MountTable.HarmlessStrayBlanks` | system/storagespeed.cpp:61 | roots with a carriage return whose rows come back all the same |
| `ExecutionQueue.TaskQueue.Exec` | threading/cexecutionqueue.h:64-95 | with tasks that enqueue, clear and exec while they run, and with other threads at it too: at most the entry-time number of tasks is taken by the call; every task that it takes makes exactly the calls of its code up to a throw, in order, and no other task does anything; after an execAll every entry-time task has been taken, replaced or cleared, and after an execFirst so has every one, or one was taken |
| `ExecutionQueue.TaskQueue.CallCode` | threading/cexecutionqueue.h:81-93 | a task that exec has taken makes the calls of its code up to the first throw, in order, and no more |
| `ExecutionQueue.TaskQueue.EnqueueTask` | threading/cexecutionqueue.h:47-55 | a queued task with the same tag is replaced, the new one goes last |
| `ExecutionQueue.WithoutTagHasNone` | threading/cexecutionqueue.h:50-52 | to erase the first task with a tag is to erase all of them |
| `ExecutionQueue.TaskQueue.ClearTasks` | threading/cexecutionqueue.h:58-62 | the queue is emptied, and every task in it has met its fate |
| `ExecutionQueue.TaskQueue.TryPop` | threading/cexecutionqueue.h:98-109 | the first task is taken; tasks are taken in the order in which they were enqueued |
| `ExecutionQueue.TaskQueue.RunCode` | threading/cexecutionqueue.h:81-93 | the calls of a task, up to a throw, are all made, in order; tasks that they take make theirs; the queue stays in order; and it ends |
| `ExecutionQueue.TaskQueue.Perform` | threading/cexecutionqueue.h:47-95 | one call of a running task: enqueue replaces and appends, clear settles every task, exec takes what it should; it is logged as the doing of that task |
| `ExecutionQueue.RemovalKeepsAccount` | threading/cexecutionqueue.h:50-54 | a task that leaves the queue has exactly one fate |
| `Periodic.AtMostOneCallWhilePaused` | threading/cperiodicexecutionthread.cpp:52-95 | over every interleaving, between a pause and the next resume at most one call of the workload begins, and only if the thread had passed the gate before the pause |
| `Periodic.PausedCommitsNone` | threading/cperiodicexecutionthread.cpp:80-86 | while paused, no further call is committed to |
| `Periodic.NoCallAfterTerminate` | threading/cperiodicexecutionthread.cpp:38-50 | after terminate has returned no call begins before the next start |
| `Periodic.TerminateReturns` | threading/cperiodicexecutionthread.cpp:47-48 | terminate returns only when the thread has exited, and leaves the request cleared |
| `Periodic.TerminationIsNear` | threading/cperiodicexecutionthread.cpp:78-95 | a thread asked to terminate can always make a step, and each brings it closer to its exit |
| `Periodic.ExitMeansTerminate` | threading/cperiodicexecutionthread.cpp:78-95 | a thread ends only by a step of its own, and only when it is asked to terminate |
| `Periodic.StartedThreadIsThere` | threading/cperiodicexecutionthread.cpp:27-76 | a started thread begins with its delay, or at the gate if there is none, or ends at once if there is no workload |
| `Periodic.RunningThreadCalls` | threading/cperiodicexecutionthread.cpp:78-95 | a thread that is neither paused nor asked to terminate can always go on, and each step brings it closer to its next call of the workload, which it then makes |
| `Periodic.PeriodIsWaitedOut` | threading/cperiodicexecutionthread.cpp:90-93 | unless it is paused or asked to terminate, the thread leaves the period only on the timeout |
| `Periodic.DelayIsWaitedOut` | threading/cperiodicexecutionthread.cpp:72-76 | unless it is asked to terminate, the thread leaves its delay only on the timeout; neither pause nor resume cuts it short |
| `Periodic.PausedThreadParks` | threading/cperiodicexecutionthread.cpp:80-93 | a paused thread can always go on until it parks, and each step brings it closer to that |
| `Periodic.ParkedMeansPaused` | threading/cperiodicexecutionthread.cpp:81-85 | a thread that is parked and not notified is paused and not asked to terminate |
| `Periodic.ResumedRunsAtOnce` | threading/cperiodicexecutionthread.cpp:59-64 | a parked thread that is resumed calls the workload again without any wait |
| `Periodic.PeriodicThread.ThreadFunc` | threading/cperiodicexecutionthread.cpp:66-96 | the delay and the loop are a run of the machine; the thread exits only on a termination; otherwise, when the others stop moving, it is parked because it is paused, or has called the workload once for each further round |
| `Periodic.PeriodicThread.WaitAtGate` | threading/cperiodicexecutionthread.cpp:80-86 | the wait at the gate ends with the gate passed or, on a termination only, with the exit; a thread that stays is parked, un-notified and paused |
| `Periodic.PeriodicThread.WaitOutPeriod` | threading/cperiodicexecutionthread.cpp:90-94 | the wait for the period leads back to the gate, or to the exit on a termination only |
| `Periodic.PeriodicThread.EndPeriod` | threading/cperiodicexecutionthread.cpp:91-94 | a period that is over leads to the exit exactly if a termination is asked for, and to the gate if not |
| `Periodic.PeriodicThread.PauseThread` | threading/cperiodicexecutionthread.cpp:52-57 | pause is one step of the machine and notifies the thread |
| `Periodic.PeriodicThread.ResumeThread` | threading/cperiodicexecutionthread.cpp:59-64 | resume likewise |
| `Periodic.PeriodicThread.RequestTermination` | threading/cperiodicexecutionthread.cpp:38-46 | terminate up to the join: the request is set and notified, and nothing happens without a thread |
| `Periodic.PeriodicThread.FinishJoin` | threading/cperiodicexecutionthread.cpp:47-48 | after the exit of the thread the request is cleared, and a thread can be started again |
| `Periodic.PeriodicThread.StartThread` | threading/cperiodicexecutionthread.cpp:27-36 | a new thread begins with its delay, at the gate, or at its end if there is no workload |

## Left out

- PoolTheorems.RetirementBarrier: covers queued, popped, registered and running tasks; the captures of a task that a worker still holds after it has completed may be destroyed later, as in the source.
- PoolCode.SharedPool.RetireTag: requires that the tag is not being retired already, as the assertion in the source does; the machine has no step for an overlapping retirement.
- PoolCode.SharedPool.RunWorker: ends when the schedule of the others has ended and it has found nothing more to do; liveness under a fair scheduler is not stated, only that somebody can step and that no wakeup is lost.
- SymlinkMeaning.ResolvedIsSame: normalisation and the reading of links stay functions; that the kernel's lookup meets the conditions, which it does where no `..` comes behind a link, is not part of this model.
- PoolDrain.ShutdownPool.Drain: its tasks enqueue further tasks; a task that retires a tag or starts a batch during the drain is not modelled, and a task that throws is one with fewer children.
- BlockingQueue.ConsumerQueue.Push: gives up, with the item not accepted, when the schedule of the other threads ends with the queue still full, where the source goes on spinning.
- ForkJoinTheorems.IndicesHandedOutOnce: the counters are unbounded here; by its bound on nextIndex a 64-bit counter does not wrap.
- ForkJoinTheorems.ParallelForReturns: for a count of two or more; a throw from the direct call with a count of one is not contained by the source either, and its way through the caller's code is not modelled.
- ForkJoinInvariants.RunInv: an enqueue that throws while a batch is being dispatched is not modelled.
- ForkJoinCode.ForkJoinPool.ParallelFor: a wait that needs other threads goes on for as long as the schedule lasts. What fn does apart from calls of parallelFor and parallelForAsync is not modelled.
- Periodic.PeriodicThread.ThreadFunc: goes on for as long as the schedule lasts, and then for the given number of rounds, where the source loops until it is terminated.
- Sha3.Sha3Context.Finalize: the octets are kept beside the lanes and brought up to date where they are read, in `Finalize`; that the conversion is sound in the memory that both share is `Sha3.ConvertInPlace`.
- Lanes at `maxSize` inside the pool, zero workers, more than 2^31 workers, and enqueues from workers after abandonment.
- `FastMod32` is plain modulo; the ticket wraps at 2^32, all other counters are unbounded.
- Timeouts are wake steps that may happen at any time; memory ordering is sequential consistency; promises, futures, thread names, `waitUntilStarted` and `queueLength`.
- `waitForItem`, `wakeAllThreads`, `size` and `empty` of the blocking queue: the pool does not use them.
- The `SHA3_USE_KECCAK` build and `Sha3_Hasher`.
- `parseFirmlinks`, the reading of `/proc`, the Windows volume table, IOKit and sysfs, the cache of storage speeds.
- `setWorkload` and the destructor of the periodic thread; the destructor of the execution queue.
- The profiler, `CMeanCounter`, `Enum`, `CInterruptableThread`, the process and console utilities: thin or foreign.
