# Taskworks: proofs about its lock-free and protocol code

Taskworks runs a graph of dependent tasks on a pool of worker threads. This project models the parts of it that are
correct only because of an argument about interleavings, and proves that argument in Dafny 4.11:

* the lock-free FIFO queue (`src/common/twi_nb_queue.c`);
* task statuses, dependency records, the countdown and the notification cascade (`src/driver/native/twnative_task.c`,
  `src/driver/native/twnative_task_int.c`, `src/dispatcher/tw_task_dep.c`);
* the priority scheduler, its counting semaphore, draining and shutdown (`src/driver/native/twnative_engine_sched.c`,
  `twnative_engine.c`, `twnative_engine_int.c`);
* timestamp-based deferred reclamation (`src/common/twi_disposer.c`);
* the re-commit slot of an event (`src/eal/libevent/twlibevt_event.c`, `twlibevti_event.c`);
* the life of dependency records (`twnative_task_int.c:15-88`);
* concurrent appends to a growing vector (`src/common/twi_ts_vector.c`).

`dafny verify dfyconfig.toml` checks everything.

## How the model is built

Each component comes in two layers.

**A state machine.** Every atomic load, store, compare-and-swap or counter operation, and every locked section, is one step
of one thread. `Next(s, action)` is total: an action that makes no sense in a state leaves it unchanged. `Run` folds a list of
actions, so a lemma about `Run(…, acts)` for all `acts` is a statement about every interleaving of any number of threads.
Fields called history (logs, counts, marks) are written but never read by the steps. What holds in every run would also hold
if nothing ever happened, so there are results in the other direction too: calls return (`TasksReturn.CallsReturn`,
`TsVector.AppendsReturn`, `EventSlot.ComesToRest`), jobs are handed out (`Handout.EveryJobServed`), workers stop
(`Shutdown.StopEnds`), frees free (`EdgeFrees.FreesFully`), and reclamation leaves little behind
(`DisposerCode.DisposerHandle.FlushEach`).

**The code.** A class holds the shared fields, and its methods are the loops and the recursion of the source. Every
access a method makes is proved to be the step the state machine allows (`Tick`), so the state is always one the machine can
reach and the results about all runs apply to it. `NbQueueCode.Queue` and `EventSlotCode.Event` run against arbitrary
interference: the steps other threads are going to take are an input, and any number of them may happen before each access.
Loops are proved to terminate; in the queue, a retry is paid for by a step of another thread, which is lock-freedom.

| files | component |
|---|---|
| NbQueue, NbQueueRuns, NbQueueNodes, NbQueueCode | queue: steps and invariant, linearizability, node accounting, code |
| Tasks, TasksOwn, TasksCount, TasksLog, TasksCover, TasksDriven | task protocol: steps, and what each step keeps |
| TasksReturn | task protocol: every call returns |
| TasksOrder, TasksSolo, TasksEarly, TaskGraph | task protocol: order of running, one-step commits, a run that is early, code |
| Scheduler, Shutdown, Handout, EngineCode | wake-ups, shutdown, what becomes of each job, scanning and draining |
| Disposer, DisposerSafety, DisposerSplit, DisposerBound, DisposerCode | deferred reclamation: steps, safety, a run that is unsafe, what is left over, code |
| EventSlot, EventSlotCode | re-commit slot |
| EdgeRefs, EdgeFrees | dependency records: what holds in every run, what frees and commits get done |
| TsVector, TsVectorCode | vector |

Assumptions: memory is sequentially consistent, allocation succeeds, and the `int` counters do not overflow. The dependency
handler is the built-in all-complete one. Locks, semaphores, thread-local variables and the clock of the disposer are values of
the state. User handlers are actions that return with either outcome.

### Where the code does not do what it is meant to

The code is modelled as it is; each of these is a lemma.

* *A completion can be counted twice.* `TasksEarly.EarlyReady` is a run in which a task becomes READY while a parent is
  still IDLE. At zero the counter is exact if and only if no dependency was decremented by both the notification pass and
  the scan (`TasksOrder.ZeroIffNoneTwice`). Such a double decrement needs a compare-and-swap of the scan that writes
  COMPLETED over COMPLETED (`TasksOrder.CountdownExact`), and `TasksOrder.RecountGuard` says exactly when that happens. The
  condition is about single tasks: a path or a cycle is in order as long as its own tasks are
  (`TasksOrder.AncestorsComplete`, `TasksOrder.OnOrBelowCycle`). With commit's wiring and scan as one step it always
  holds (`TasksSolo.RunAlone`).
* *A dispose is not one step.* A thread delayed between fetching its timestamp and pushing its node puts an older node on
  top of a newer one, and a flush can then handle an object that somebody holds (`DisposerSplit.HandledWhileHeld`). Cutting the
  list is right at every floor if and only if the list is in timestamp order (`DisposerSafety.CutExact`).
* *A flush can walk an empty list*, leaving its cursor unset, if and only if every dispose so far is still between fetch
  and push (`DisposerSafety.WalkEmpty`).
* *An accepted re-commit can be lost.* The callback thread, holding a request it took from the slot, finds the event armed by
  a later commit and the slot taken by yet another one; nobody reads its error (`EventSlot.LosingRun`). That is the only way
  (`EventSlot.DropExactly`), and it cannot happen while commits wait for each other (`EventSlot.DisciplinedArms`).
* *A parent freed too early is named by a record that is still in use.* Freeing a task is safe if and only if no other
  task in use depends on it with that dependency still to be wired (`EdgeRefs.FreeSafeIff`, `EdgeRefs.FreeDangles`);
  `EdgeRefs.EarlyFreeDangles` is a run. A record that was never wired is never freed (`EdgeRefs.UnwiredLeaks`).

## Model

| member | source | states |
|---|---|---|
| NbQueue.PublishKeeps | src/common/twi_nb_queue.c:118-124 | A successful compare-and-swap of push puts the new node in front of the chain and keeps the queue's invariant. |
| NbQueue.RemovesOldest | src/common/twi_nb_queue.c:159-165 | When the compare-and-swap of pop succeeds, the node it takes off is the oldest one in the queue, and the node it leaves at the end is the next oldest or the head. |
| NbQueue.PreOnPath | src/common/twi_nb_queue.c:148-155 | A backward pointer is NULL only at the head; from any other node it leads to a node that has been in the queue or to the head. |
| NbQueue.StepKeeps | src/common/twi_nb_queue.c:105-178 | Every step of push, pop and recycle keeps the memory invariant and what the stepping thread relies on. |
| NbQueue.StepEvolves | src/common/twi_nb_queue.c:20-29 | No step of another thread changes the links of a node a thread owns: one it has not published, or one it removed and has not recycled. |
| NbQueueRuns.StepApplies | src/common/twi_nb_queue.c:105-178 | Each step changes the abstract FIFO queue by exactly the effect it reports, at most one, and the answer of the operation is that of its effect. |
| NbQueueRuns.Linearizable | src/common/twi_nb_queue.c:105-178 | In every run, the effects replay on a sequential FIFO queue, each operation has one effect between call and return and answers it, and the chain in memory is the replayed queue. |
| NbQueueRuns.FirstInFirstOut | src/common/twi_nb_queue.c:105-178 | Nodes inserted are distinct and are those removed, in insertion order, followed by those on the chain. |
| NbQueueRuns.ChainIsQueue | src/common/twi_nb_queue.c:91-95 | Following the links from the head meets the nodes inserted and not removed, newest first, and stops. |
| NbQueueRuns.EffectBeforeReturn | src/common/twi_nb_queue.c:141-178 | An operation about to return has its effect after its own invocation, with nothing else of that thread in between. |
| NbQueueRuns.ContentsPrefix | src/common/twi_nb_queue.c:105-178 | Every effect was allowed by the sequential queue at the moment it happened. |
| NbQueueRuns.EmptyAnswer | src/common/twi_nb_queue.c:148-155 | If a pop answers "empty", the queue was empty at a moment between its invocation and its return. |
| NbQueueRuns.NullHead | src/common/twi_nb_queue.c:151-155 | The head link is NULL exactly when the abstract queue is empty. |
| NbQueueNodes.RunAccounted | src/common/twi_nb_queue.c:20-43 | At every moment each allocated node has been inserted or is in one thread's hands, and each removed node has been recycled or is in one thread's hands. |
| NbQueueNodes.FinalizeFreesAll | src/common/twi_nb_queue.c:84-100 | With no call in progress, the head chain and the recycle chain are disjoint and together hold every node ever allocated. |
| NbQueueCode.Queue.constructor | src/common/twi_nb_queue.c:66-83 | A new queue is empty and in the initial state. |
| NbQueueCode.Queue.TryInsert | src/common/twi_nb_queue.c:120-124 | One turn of the insertion loop inserts the node, or another thread took a step. |
| NbQueueCode.Queue.InsertFront | src/common/twi_nb_queue.c:118-124 | However often the compare-and-swap is retried, the loop ends and its one effect is to append the item. |
| NbQueueCode.Queue.LinkBack | src/common/twi_nb_queue.c:128-135 | Setting the back pointer or the tail has no effect on the abstract queue. |
| NbQueueCode.Queue.Push | src/common/twi_nb_queue.c:105-140 | Under any interference a push returns, and what its thread did is: invoke, append the item once, return. |
| NbQueueCode.PreRank | src/common/twi_nb_queue.c:151-151 | Each step of the backward walk gets nearer to the head in insertion order. |
| NbQueueCode.Queue.FindBack | src/common/twi_nb_queue.c:148-155 | The backward walk ends, at a node with a link or past the head; in the second case the queue was found empty. |
| NbQueueCode.Queue.WalkForward | src/common/twi_nb_queue.c:159-164 | The forward walk ends at a node that had no link, reached through the link of its predecessor unless another thread took a step. |
| NbQueueCode.Queue.CasTail | src/common/twi_nb_queue.c:165-168 | The compare-and-swap succeeds exactly if the link is still there, and then its effect is to take the oldest item. |
| NbQueueCode.Queue.RecycleNode | src/common/twi_nb_queue.c:20-29 | The recycling loop ends, has no effect on the abstract queue and leaves the item to be answered. |
| NbQueueCode.Queue.TryPop | src/common/twi_nb_queue.c:148-174 | One turn of the outer loop answers, or another thread took a step. |
| NbQueueCode.Queue.Pop | src/common/twi_nb_queue.c:141-178 | Under any interference a pop returns, and what its thread did is: invoke, one removal or one finding of emptiness, return of that answer. |
| NbQueueCode.Queue.Finalize | src/common/twi_nb_queue.c:84-100 | With no call in progress the two loops free every node, each once. |
| TasksOrder.StatusesRise | src/driver/native/twnative_task_int.c:180-247 | In every interleaving a task's statuses rise, a later change starts at or above where an earlier one ended, and COMPLETED, ABORTED and FAILED are final. |
| TasksOrder.HandlerAtMostOnce | src/driver/native/twnative_task_int.c:90-119 | A task's handler is called at most once, in whatever number of queues the task is. |
| TasksOrder.OneDriver | src/driver/native/twnative_task_int.c:180-247 | At most one activation at a time carries a task on from READY. |
| TasksOrder.CountdownExact | src/dispatcher/tw_task_dep.c:44-76 | The counter is the number of dependencies minus the decrements; a decrement stands for a completed parent; READY was returned exactly when the counter passed zero; a dependency decremented twice was recorded COMPLETED by the scan over a record a pass had told. |
| TasksOrder.ZeroIffNoneTwice | src/driver/native/twnative_task.c:182-202 | At zero, every dependency has been counted if and only if none has been decremented by both sides. |
| TasksOrder.RecountGuard | src/driver/native/twnative_task.c:188-192 | The scan marks a record exactly when its compare-and-swap writes COMPLETED over COMPLETED, and then a pass had told the wired record. |
| TasksOrder.ReadyMeansParentsDone | src/driver/native/twnative_task_int.c:249-304 | A task that went on to READY without a double count of its own has only COMPLETED parents. |
| TasksOrder.AncestorsComplete | src/driver/native/twnative_task.c:130-215 | When a handler has been called, every ancestor on a dependency path, through barriers too, is COMPLETED, if no task on the way there was counted twice. |
| TasksOrder.BelowUnfinished | src/driver/native/twnative_task_int.c:108-112 | A task below one that is not COMPLETED, for instance FAILED, has not run, if no task in between was counted twice. |
| TasksOrder.CycleNeverReady | src/driver/native/twnative_task_int.c:249-304 | No member of a set in which everybody has a parent in the set, and nobody was counted twice, ever becomes READY. |
| TasksOrder.OnOrBelowCycle | src/driver/native/twnative_task.c:130-215 | A task on a dependency cycle or below one has not run, if nobody on the way there or in the cycle was counted twice. |
| TasksEarly.EarlyReady | src/driver/native/twnative_task.c:188-199 | A run in which a task becomes READY although one of its parents is IDLE, because the other was counted by both sides. |
| TasksCover.NoCompletionLost | src/driver/native/twnative_task.c:155-209 | However wiring and scan interleave with the passes, once commit has returned, all parents are COMPLETED and their passes over, the task has left DEPHOLD and one decrement returned READY. |
| TasksDriven.NobodyStuck | src/driver/native/twnative_task_int.c:205-239 | When all calls have returned, a task past DEPHOLD is in its queue, in its handler, or COMPLETED, ABORTED or FAILED, and a barrier is not in a queue or a handler; being put in a second queue changes nothing. |
| TasksReturn.EveryStepNearer | src/driver/native/twnative_task_int.c:180-304 | In every interleaving each step of a call in progress, retries included, lowers a measure, so no schedule keeps calls going for ever. |
| TasksReturn.NoDeadlock | src/driver/native/twnative_task_int.c:259-286 | As long as some call has not returned, some call can move: a pass waits only for a later one that is on its way back. |
| TasksReturn.CallsReturn | src/driver/native/twnative_task_int.c:180-304 | From every state of any number of threads, on any graph, the calls in progress lead to all of them having returned. |
| TasksSolo.RunAlone | src/driver/native/twnative_task.c:168-202 | If commits wire and scan with nothing in between, no completion is recorded by both sides and no recorded completion is taken back. |
| TasksSolo.AncestorsFirst | src/driver/native/twnative_task_int.c:90-119 | With one-step commits, when a handler has been called every ancestor is COMPLETED. |
| TasksSolo.CyclesNeverRun | src/driver/native/twnative_task.c:130-215 | With one-step commits, no task on or below a cycle runs. |
| TasksSolo.CounterIsUnrecorded | src/dispatcher/tw_task_dep.c:44-60 | With one-step commits, the counter of a waiting task is at every step the number of its records not marked COMPLETED plus the activations between recording a completion for it and counting it. |
| TaskGraph.Graph.CasStatus | src/driver/native/twnative_task_int.c:188-190 | The status changes exactly if it was the expected one, and then the total height left to rise drops. |
| TaskGraph.Graph.StatusChange | src/dispatcher/tw_task_dep.c:44-60 | One decrement; it answers zero exactly if the counter was one, and then, and only then, the child is to be made READY. |
| TaskGraph.Graph.VisitChild | src/driver/native/twnative_task_int.c:259-286 | Telling one child and what follows from it raises statuses only and leaves every earlier call where it was. |
| TaskGraph.Graph.NotifyParentStatus | src/driver/native/twnative_task_int.c:249-304 | The pass over the children ends on every graph, raises statuses only, and leaves other calls alone. |
| TaskGraph.Graph.UpdateStatus | src/driver/native/twnative_task_int.c:180-247 | The mutual recursion ends on every graph; it reports success exactly if the status was the expected one; statuses only rise; every call it made has returned or is a job in a queue. A task changed to FINAL ends COMPLETED, and COMPLETED, ABORTED and FAILED are never left. |
| TaskGraph.Graph.FollowUp | src/driver/native/twnative_task_int.c:205-239 | After READY a task is queued or a barrier goes on to FINAL; after FINAL comes COMPLETED; the activation ends where the caller expects it. |
| TaskGraph.Graph.Queue | src/driver/native/twnative_task_int.c:121-137 | One job for the task is added, and nothing but the job's ownership changes. |
| TaskGraph.Graph.CreateTask | src/driver/native/twnative_task.c:29-54 | Adds an IDLE task without dependencies. |
| TaskGraph.Graph.AddDep | src/driver/native/twnative_task.c:326-358 | Adds one record exactly if the child has not been committed. |
| TaskGraph.Graph.CreateBarrier | src/driver/native/twnative_task.c:86-128 | The new barrier depends on the picked tasks among those that exist, in order, and nothing else changes. |
| TaskGraph.PickedAll | src/driver/native/twnative_task.c:104-115 | Every picked task is a parent of the barrier. |
| TaskGraph.PickedOnly | src/driver/native/twnative_task.c:104-115 | Only picked tasks are, and the barrier itself is not. |
| TaskGraph.Graph.InitCount | src/dispatcher/tw_task_dep.c:62-76 | The countdown is set to the number of dependencies; without any the task is to become READY at once. |
| TaskGraph.Graph.WireAll | src/driver/native/twnative_task.c:168-180 | The wiring loop ends with every record wired and on its parent's list, commit at the start of its scan, and statuses unlowered. |
| TaskGraph.Graph.ScanAll | src/driver/native/twnative_task.c:182-202 | The scan ends, early if the countdown reaches zero, and says whether the task is to become READY. |
| TaskGraph.Graph.CommitTask | src/driver/native/twnative_task.c:130-215 | Succeeds exactly if the task was IDLE; and if all was at rest before, it is at rest after, and exactly the right tasks have left DEPHOLD. |
| TaskGraph.Graph.StartTask | src/driver/native/twnative_task_int.c:90-104 | A job taken from a queue calls the handler exactly if the task was in QUEUE; the task is then RUNNING and its handler has been called once; other calls are left where they were. |
| TaskGraph.Graph.FinishTask | src/driver/native/twnative_task_int.c:106-112 | After the handler has returned the task is COMPLETED if the handler succeeded and FAILED if not, whatever follows from that for other tasks. |
| TaskGraph.Graph.RunTask | src/driver/native/twnative_task_int.c:90-119 | Runs the handler exactly if the task was in QUEUE; then all tasks the handler commits are committed, the task is COMPLETED or FAILED by the handler's answer, and exactly the right tasks have left DEPHOLD. |
| TaskGraph.Graph.RetractTask | src/driver/native/twnative_task.c:217-245 | Succeeds exactly if the task was in DEPHOLD or READY; then it is ABORTED, with the same guarantee for all other tasks. |
| TaskGraph.RestExact | src/driver/native/twnative_task_int.c:249-304 | Single-threaded and at rest: a committed task not retracted is in DEPHOLD if some parent is not COMPLETED; otherwise a barrier is COMPLETED and any other task queued, running, COMPLETED or FAILED. |
| Scheduler.NextKeeps | src/driver/native/twnative_engine_sched.c:25-55 | At every level but the lowest, the jobs up to it are never more than tokens, pushes not yet signalled, and workers that hold a token and have not passed it. |
| Scheduler.NoLostWakeup | src/driver/native/twnative_engine_sched.c:25-98 | If all workers block on the semaphore, no token is left and no push is still to signal, every level each scan visits is empty. |
| Shutdown.TokensSuffice | src/driver/native/twnative_engine_int.c:22-26 | After the worker count is 0, tokens and posts to come are never fewer than the workers at the semaphore. |
| Shutdown.NoDeadlock | src/driver/native/twnative_engine_sched.c:70-98 | Once all posts are made, every worker that has not exited can take a step. |
| Shutdown.MeasureDrops | src/driver/native/twnative_engine_sched.c:70-98 | During shutdown every effective step of a worker or post decreases a measure; a push adds at most two to it, and nothing else adds to it. |
| Shutdown.ShutdownBounded | src/driver/native/twnative_engine_int.c:22-31 | Whatever happens after the shutdown has begun, commits by handlers and helping threads included, workers and posts take at most as many steps as the measure and two for each push. |
| Shutdown.SettledAllGone | src/driver/native/twnative_engine_int.c:22-31 | In a shutdown, no worker or post can move any more if and only if all posts are made and every worker has exited, so all joins return. |
| Shutdown.ShutdownEnds | src/driver/native/twnative_engine_int.c:22-31 | From every state of a shutdown some steps of workers and posts lead to all workers having exited. |
| Shutdown.LowestStranded | src/driver/native/twnative_engine_sched.c:25-29 | Why Handout.NothingLeftBehind is about pushes to the other levels: one to the lowest level, which no accepted priority reaches, would be left there while the only worker sleeps. |
| Shutdown.LowestOnlyByPush | src/driver/native/twnative_engine_sched.c:25-29 | Nothing is ever on the lowest level if nothing is pushed there. |
| Shutdown.StopEnds | src/driver/native/twnative_engine_int.c:22-31 | Stopping can be begun in any state, and ends with every worker gone. |
| Handout.JobsInOrder | src/driver/native/twnative_engine_sched.c:33-33 | In every run the jobs pushed to a level are those popped from it, in the same order, followed by those queued there. |
| Handout.PushArrives | src/driver/native/twnative_task_int.c:131-133 | Every push puts its job at the end of its level, with one signal to follow. |
| Handout.JobsInHand | src/driver/native/twnative_engine_sched.c:33-54 | Every job popped is in the hands of exactly one worker or waiting thread until its run is over. |
| Handout.TokensConserved | src/driver/native/twnative_engine_sched.c:73-73 | There is one token for every push and, in a shutdown, for every worker: still to come, there, or taken. |
| Handout.LimitExact | src/driver/native/twnative_engine_sched.c:25-29 | A worker's scan takes in the lowest level exactly if the engine has more than one worker and one of them sleeps when it looks. |
| Handout.ScanDrains | src/driver/native/twnative_engine_sched.c:31-54 | A scan that meets only tasks already run stays at each level until it is empty, takes each job in turn, and leaves the other levels alone. |
| Handout.HelpDrains | src/driver/native/twnative_engine.c:139-148 | A thread that comes to help in any state, and finds only such tasks, empties every level a task can be queued at. |
| Handout.NothingLeftBehind | src/driver/native/twnative_engine_sched.c:25-98 | With accepted priorities, a pool that sleeps with no signal due leaves no job: every job ever pushed has been handed out as often as it was pushed, in order at each level, and is over unless a waiting thread still runs it. |
| Handout.EveryJobServed | src/driver/native/twnative_engine_sched.c:61-106 | From every state of an engine with workers that is not being stopped, steps of the workers lead to a sleeping pool that has handed out every job pushed so far. |
| EngineCode.LevelsSort | src/driver/native/twnative_engine_sched.c:31-54 | Scanning level after level is a stable sort by priority: same tasks, rising priority, commit order within a priority. |
| EngineCode.StableUnique | src/driver/native/twnative_engine_sched.c:31-54 | There is only one such order. |
| EngineCode.Engine.CreateTask | src/dispatcher/tw_task.c:44-45 | A priority is accepted exactly from 0 to the standard one. |
| EngineCode.Engine.CommitTask | src/driver/native/twnative_task_int.c:121-137 | An IDLE task without dependencies ends up in QUEUE at the back of the queue of its priority, and one token is added. |
| EngineCode.Engine.RunTask | src/driver/native/twnative_task_int.c:90-119 | The handler runs exactly if the task is in QUEUE; then the task is COMPLETED if the handler succeeds and FAILED if not, and no other task changes. |
| EngineCode.Engine.SchedulerCore | src/driver/native/twnative_engine_sched.c:15-59 | Runs the first task that a drain would run, skipping jobs of tasks already run, and ends it by its outcome; without one no task changes and every level a task can be queued at ends up empty, for any number of workers. The lowest level is touched only while one of several workers sleeps. |
| EngineCode.Engine.DoWork | src/driver/native/twnative_engine.c:128-153 | Working without end runs exactly what a drain would, and leaves nothing at any level a task can be queued at; working once runs its first task; with a time limit it runs a first part, all of it unless the time was up after the last turn. Each task run goes from QUEUE to COMPLETED or FAILED by its outcome, once, and no other changes. |
| EngineCode.Engine.CommitAndDrain | src/driver/native/twnative_engine.c:139-148 | On an engine with any number of workers, this thread alone committing distinct tasks of any accepted priorities and draining runs them all, in the stable order; each ends COMPLETED exactly if its handler succeeds and FAILED otherwise, and no other task changes. |
| EngineCode.Engine.Free | src/driver/native/twnative_engine_int.c:15-53 | Posts one token per worker, empties every level, and hands out all jobs in scan order. |
| Disposer.NextKeepsClocks | src/common/twi_disposer.c:86-223 | Every step keeps: floor at most each joined thread's timestamp, that at most the clock; one holder of the lock; a scan's minimum at most every timestamp it has read. |
| Disposer.NextKeepsHolders | src/common/twi_disposer.c:86-223 | A thread that holds a disposed object has not agreed on a timestamp after the object's. |
| DisposerSafety.FloorBelowEveryone | src/common/twi_disposer.c:186-218 | In every run the published floor is at most every joined thread's timestamp, and that is at most the clock. |
| DisposerSafety.CutExact | src/common/twi_disposer.c:201-208 | A cut at any floor takes only nodes below that floor if and only if the list is in timestamp order. |
| DisposerSafety.SafeReclamation | src/common/twi_disposer.c:189-219 | As long as nodes went on the list in timestamp order, no handler runs, or has run, on an object that some thread holds. |
| DisposerSafety.AtomicInOrder | src/common/twi_disposer.c:156-159 | If each dispose fetches and pushes with nothing in between, nodes go on the list in timestamp order. |
| DisposerSafety.AtomicSafe | src/common/twi_disposer.c:156-219 | Then reclamation is safe in every run. |
| DisposerSafety.HandledAtMostOnce | src/common/twi_disposer.c:210-216 | In every run no node is handled twice, or handled while still on the list. |
| DisposerSafety.HandledExactlyOnce | src/common/twi_disposer.c:59-79 | With no call in progress, finalizing leaves every disposed object handled exactly once. |
| DisposerSafety.WalkEmpty | src/common/twi_disposer.c:201-212 | A flush walks an empty list if and only if every dispose so far is still between its fetch and its push, and at least BIN_SIZE have begun. |
| DisposerSafety.AtomicWalk | src/common/twi_disposer.c:201-212 | With one-step disposes the walk always finds a node. |
| DisposerSplit.HandledWhileHeld | src/common/twi_disposer.c:156-159 | A run in which a delayed dispose makes a flush handle an object that another thread holds. |
| DisposerBound.KeptTight | src/common/twi_disposer.c:201-208 | All nodes kept are newer than the floor except the last one, which is at or below it unless nothing was cut off. |
| DisposerBound.FewLeft | src/common/twi_disposer.c:168-223 | With one-step disposes, in every run the list is at most one longer than the clock is ahead of the published floor. |
| DisposerCode.DisposerHandle.constructor | src/common/twi_disposer.c:50-51 | A new disposer is empty, with room for 32 threads. |
| DisposerCode.DisposerHandle.Grow | src/common/twi_disposer.c:105-113 | Doubling the array keeps every timestamp and leaves room. |
| DisposerCode.DisposerHandle.Join | src/common/twi_disposer.c:86-122 | Is the join of the state machine: nested joins count; the first takes a new or the old entry at the present timestamp. |
| DisposerCode.DisposerHandle.Leave | src/common/twi_disposer.c:124-144 | Is the leave of the state machine: the last one sets the entry to the largest timestamp. |
| DisposerCode.DisposerHandle.Dispose | src/common/twi_disposer.c:146-166 | Puts the object in front with the present timestamp and moves the clock on. |
| DisposerCode.DisposerHandle.LeastAgreed | src/common/twi_disposer.c:190-194 | The loop finds the least timestamp of all entries. |
| DisposerCode.KeptWalk | src/common/twi_disposer.c:201-208 | The walk stops after the first node at or below the floor, or at the end. |
| DisposerCode.DisposerHandle.HandleRest | src/common/twi_disposer.c:210-219 | Handles every node cut off, in order, and publishes the floor. |
| DisposerCode.DisposerHandle.Flush | src/common/twi_disposer.c:168-223 | Agrees on the clock; reclaims exactly if that is new and the clock is more than BIN_SIZE ahead of the last floor: then the floor is the least timestamp agreed on, everything behind the first node at or below it is handled in order, and at most that node at or below it is left. Nothing handled is held by anybody. |
| DisposerCode.DisposerHandle.FlushEach | src/common/twi_disposer.c:168-223 | If every joined thread flushes in turn, and one of them had not agreed on the present clock, at most BIN_SIZE + 1 nodes are left, however many were disposed. |
| DisposerCode.DisposerHandle.Finalize | src/common/twi_disposer.c:59-79 | Afterwards every object ever disposed has been handled exactly once. |
| EventSlot.Conserved | src/eal/libevent/twlibevt_event.c:77-99 | In every interleaving each request is in exactly one place: armed, in the slot, in a thread's hands, refused, or dropped. |
| EventSlot.NeverStranded | src/eal/libevent/twlibevti_event.c:15-30 | A request in the slot of a pending event has a thread on its way to pick it up. |
| EventSlot.DropExactly | src/eal/libevent/twlibevt_event.c:81-98 | A request is dropped exactly when the callback thread comes back to park it and finds the slot full. |
| EventSlot.RefuseExactly | src/eal/libevent/twlibevt_event.c:81-98 | A commit is refused exactly when it finds the slot full, or takes its request back and finds the event armed again. |
| EventSlot.FiresOncePerArming | src/eal/libevent/twlibevti_event.c:73-82 | In every run the handler has been run once for every arming, except the last while the event is armed; the callback runs it exactly if it is free and one arming is unserved. |
| EventSlot.NeverArmsTwice | src/eal/libevent/twlibevt_event.c:77-89 | A step that arms the event finds every earlier arming served, and leaves the event armed. |
| EventSlot.ArmedUntilFired | src/eal/libevent/twlibevti_event.c:75-76 | An armed event stays armed until the callback runs its handler. |
| EventSlot.ComesToRest | src/eal/libevent/twlibevti_event.c:15-30 | From every state the two threads come to rest without new commits; then every request made has armed the event and been served by a run of the handler, or was refused or dropped. |
| EventSlot.DisciplinedArms | src/eal/libevent/twlibevti_event.c:15-30 | If commits wait for each other, nothing is refused or dropped, and every request has armed the event once both threads are done. |
| EventSlot.LosingRun | src/eal/libevent/twlibevt_event.c:81-98 | A run in which an accepted request is lost. |
| EventSlotCode.Event.FinishCommit | src/eal/libevent/twlibevt_event.c:77-99 | Under any interference a commit that succeeds armed the event, taking it from PENDING to COMMITED, or put its request in the slot and did not take it back; one that fails had its request refused or dropped by its last step, which cannot happen if commits wait for each other. |
| EventSlotCode.Event.CommitEvent | src/eal/libevent/twlibevt_event.c:66-99 | The same for a commit from its start. |
| EventSlotCode.Event.StatReset | src/eal/libevent/twlibevti_event.c:15-30 | The callback thread leaves the slot alone, or takes one request out of it, and that request ends up armed, parked again, or dropped, the last not if commits wait for each other. |
| EventSlotCode.Event.RunCallback | src/eal/libevent/twlibevti_event.c:69-83 | Under any interference, and whatever commits the handler makes, the callback runs it exactly if it meets an unserved arming, and serves one arming by that. |
| EdgeRefs.CountsEnds | src/driver/native/twnative_task_int.c:43-88 | As long as no free was too early, the reference count of a wired record is two minus the ends reclaimed, and the record is freed once, when both are. |
| EdgeRefs.UnwiredLeaks | src/driver/native/twnative_task_int.c:54-79 | When all tasks are gone, exactly the wired records have been freed. |
| EdgeRefs.NeverNamesFreed | src/driver/native/twnative_task_int.c:15-41 | As long as no free was too early, a pointer of a record names no task whose free has returned, except in records nobody will look at. |
| EdgeRefs.NeverTouchedFreed | src/driver/native/twnative_task_int.c:43-88 | As long as no free was too early, no access has met a freed record, and no record that a list may still lead to has been freed. |
| EdgeRefs.FreeDangles | src/driver/native/twnative_task.c:168-180 | After a free of a task that another one in use still has to wire itself to, the clearing of its lists does not meet the record, and the other task's commit puts the record, still naming the freed task, on its list. |
| EdgeRefs.FreeSafeIff | src/driver/native/twnative_task_int.c:15-41 | A free keeps every later state sound, as long as later frees keep to the same rule, if and only if no other task in use still has to wire itself to the one freed. |
| EdgeRefs.EarlyFreeDangles | src/driver/native/twnative_task.c:168-180 | A run in which commit puts a record on the list of a parent that is already gone. |
| EdgeFrees.FreesFully | src/driver/native/twnative_task_int.c:15-88 | From every state without an early free, a safe free, the reclaim and the task's own steps lead to the task being gone: each record has lost its pointers to it and one reference for each time it is on its lists, those that lost their last one are freed, and nothing else has changed. |
| EdgeFrees.FreedWithBoth | src/driver/native/twnative_task_int.c:54-79 | Freeing both ends of a wired record, in either order, frees it exactly once. |
| EdgeFrees.AddsRecord | src/driver/native/twnative_task.c:326-358 | A dependency on any task in use, itself included, adds one record with two references to the end of the task's list. |
| EdgeFrees.CommitsFully | src/driver/native/twnative_task.c:168-180 | From every such state a commit and the task's own steps lead to each of its records being on the list of its parent, with nothing else changed. |
| TsVector.OwnSlot | src/common/twi_ts_vector.c:335-363 | A thread about to write has a slot inside the buffer that nobody else has, and nobody is replacing the buffer. |
| TsVector.WrittenStays | src/common/twi_ts_vector.c:135-156 | What has been written stays through any growth. |
| TsVector.AppendsExact | src/common/twi_ts_vector.c:335-363 | Once all appends have returned, the vector is its old contents followed by the items in ticket order, and each thread's items are among them in its own order. |
| TsVector.AppendsReturn | src/common/twi_ts_vector.c:335-363 | From every state some steps lead to all appends having returned, and the vector holding the item of every append begun. |
| TsVector.AppendGetsDone | src/common/twi_ts_vector.c:335-363 | An append begun while nobody replaces the buffer is let in, and its item ends up in the vector. |
| TsVectorCode.CapacityTight | src/common/twi_ts_vector.c:143-144 | The growth loop stops at a sufficient capacity less than twenty times what is needed. |
| TsVectorCode.Vector.constructor | src/common/twi_ts_vector.c:190-209 | A new vector is empty with room for 32 items. |
| TsVectorCode.Vector.Expand | src/common/twi_ts_vector.c:135-156 | Growing keeps the contents and reaches the capacity of the growth loop. |
| TsVectorCode.Vector.PushBack | src/common/twi_ts_vector.c:335-363 | Appends one item and changes nothing before it. |
| TsVectorCode.Vector.PushAll | src/common/twi_ts_vector.c:335-363 | Appending a list appends it, through any number of growths. |

## Left out

- TasksCover.NoCompletionLost: is about runs in which no priority change puts a task in a second queue. That leaves out no run of the program: nothing calls `TWNATIVE_Task_set_priority` (`src/driver/native/twnative_task.c:422`), whose one use, at line 268, is commented out. TaskGraph.RestExact is about such runs too; no other result about tasks is.
- TasksOrder.AncestorsComplete: needs that no task on the way was counted twice; TasksSolo.AncestorsFirst removes the condition for one-step commits, and TasksEarly.EarlyReady shows that it cannot be dropped.
- TaskGraph.Graph.RunTask: what the handler does is commit a list of tasks; creating, retracting and running others from inside it is the same with StartTask, those calls and FinishTask, and in the state machine a handler may do anything before it returns.
- EngineCode.Engine.Free: hands the jobs out; retracting their tasks recursively is not modelled, because it is built on `TWI_Vector`.
- DisposerSafety.SafeReclamation: needs nodes pushed in timestamp order; DisposerSplit.HandledWhileHeld shows what happens otherwise.
- DisposerCode.DisposerHandle.Flush: calls of different threads do not overlap here, and the trash list is a sequence; their overlap is in the state machine.
- EventSlot.Conserved: taking an event back with retract, and what libevent does, are not modelled; arming is one step.
- EdgeRefs.CountsEnds: needs that no task was freed before another task in use had wired itself to it; EdgeRefs.FreeSafeIff shows that this is the exact condition. A task is freed once and reclaimed when nobody uses it.
- NbQueueCode.Queue.Push: nodes are numbered cells in sequences rather than objects; nodes are never reused, as in the source, where reuse is commented out, and the `ref` and `free` fields that serve it are left out.
- TsVector.AppendsExact: concurrent erase, resize, read and write are not modelled; a reader that sees the size before the item is written is outside this model.
- Tasks: the countdown is never reclaimed, though FINAL finalizes the dependency handler; wiring a record, one append to the parent's list, is one step with respect to the parent's pass.
- The loop of a worker thread is in the state machine Scheduler only, since it blocks on the semaphore.
- The event driver's branch in the worker loop, and events in the job queues.
- Changing the number of workers (`TWNATIVE_Engine_set_num_workers`) and removing a dependency (`TWNATIVE_Task_rm_dep`).
- Jobs invalidated by a priority change or by freeing a queued task; the scheduler does not test for them.
- Accesses to `tp->ep` after a retract.
- Passing FAILED or ABORTED on to children: the built-in handler asks only for COMPLETED.
- The join of a thread reallocating the array of timestamps while another thread's flush writes its entry without the lock.
- The argobots driver, which repeats the native protocol on another library, and `twi_nb_list.c`, `twi_vector.c`, `twi_hash.c`.
- `TWI_Ts_vector_find` and the erase functions.
- Timeouts, error strings, argument setters, debug output, Windows branches, mutexes, semaphores and thread-local storage themselves.
- Weak memory ordering, failing allocations and overflow of `int` counters.
