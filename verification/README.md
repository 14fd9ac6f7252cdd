# flexcore, verified

A Dafny model of the hard core of flexcore, a data-flow library for cyclic systems, with proofs
of what its parts promise.  `dafny verify dfyconfig.toml` checks the whole project.

## What is modelled

**Scheduler and cross-region buffers.**  `Scheduling` is one state machine for `cycle_control`, its
periodic tasks, the workers and every buffered connection.  A step is one action of one thread; a
run is any sequence of actions, so a statement about all runs is a statement about all
interleavings.  A timed wait either finds its task done or expires, and the timeout handler answers
with a boolean: both are choices of the environment.  Cycle stamps, the tokens fired and delivered
so far and the log of ticks are history that no step looks at; `SchedulerHistory` reads the same
histories off the actions of a run.  `SchedulerControl`, `SchedulerEvents`,
`SchedulerOwnership`, `SchedulerRace`, `SchedulerTiming`, `SchedulerLatency`, `SchedulerLog`,
`SchedulerCalls`, `SchedulerAbort`, `SchedulerStates` and `SchedulerFresh` prove properties of its runs, `SchedulerPool`
that it uses its workers only in the ways that the thread pool offers.  `ConnectionBuffers` holds the
buffers as classes, `NodeAware` the wiring of `construct_buffer`, `CycleControls` the main thread's
methods with the loops of the source and workers acting between any two of its actions; each action
is proved to be one step of the machine.

**adobe::forest.**  `RoseForest` has rose forests and the words of their full-order traversal,
`ForestLinks` the nodes with their links and the iterator, `Forests` the container with its ring of
links through a sentinel, `ForestOperations`, `ForestReverse`, `ForestReverseDamage`, `ForestValues`
and `ForestCopies` the operations.  Each is proved against one function on rose forests, `PlugTree`, which puts trees in
front of a position of the traversal.  `RosePaths` and `BaseNodes` have the ownership tree of nodes
built on it.

**Thread pool, ports, chains.**  `ThreadPool` is the mutex, condition variable and queue protocol of
`parallel_scheduler`, with notifications that arrive late and wake-ups without any;
`ParallelSchedulers` has its methods, with other threads acting between their critical sections.
`PortRegistry` and `StatePorts` have active and passive ports under every sequence of connecting, moving and
destroying.  `ConnectionChains` has the evaluation of `>>` and the meaning of what it returns.

Where the source goes wrong or differs from its documentation, the model follows the code:

- An event or state connection between two tasks of the same tick rate is safe exactly when the
  timeout handler never goes on past a task that is not done.  With a handler that goes on, the main
  thread can append to a buffer that a worker is sending from, and the event is lost
  (`SchedulerRace.SafeIff`, `SchedulerRace.LosslessIff`).
- A call of `run_periodic_tasks` that the handler stops leaves in `done_tasks` what it found done so
  far.  If that is not empty, the group never runs again: the entry assertion fails when the group
  is next due (`SchedulerCalls.StuckForEver`).  A run gets there exactly if one of its steps is the
  stop of a call that has found a task done (`SchedulerCalls.EmptyIffAbortFree`), and two tasks and
  the default handler are enough (`SchedulerAbort.AbortRun`).
- `forest::reverse` works exactly when the range ends at a trailing edge or holds at most one sibling
  (`ForestReverse.Reverse`).  When it holds two or more and ends in front of another sibling, the
  call returns with the siblings in their old order and the leading edge of the sibling behind them,
  with all its descendants, cut out of the ring (`ForestReverseDamage.ReverseDamages`, for three
  leaves `ForestReverseDamage.ReverseThree`).
- `insert` of a range of siblings into their own forest ends exactly when the position is not inside
  the range and not at its end (`ForestCopies.InsertRangeWithin`).  Otherwise the loop follows its own
  copies (`ForestCopies.InsertRangeEndless`), also when the trees of a forest are appended to
  themselves (`ForestCopies.AppendToItself`).
- Not every grouping of `>>` completes a chain: a connectable that takes no argument, or one that
  returns nothing, completes the chain of a pushing port where it is added.  All groupings complete
  exactly the legal chains (`ConnectionChains.CompletesIff`); those that complete mean the same
  (`ConnectionChains.SameMeaning`).
- `erase_with_subtree` is documented to return the trailing edge of the parent.  It returns the
  position just behind the node, which is that edge exactly when no sibling followed the node
  (`BaseNodes.EraseWithSubtree`, for the first of two children `BaseNodes.EraseFirstOfTwo`).

## Model

| member | source | states |
|---|---|---|
| SchedulerEvents.NothingLost | flexcore/extended/ports/connection_buffer.hpp:116-178 | in every reachable state the tokens that the actions of the run have fired are the tokens delivered, then the rest of extern, then middle, then intern, in this order; between instances of the sink extern is empty. Any handler for different rates, a handler that never goes on for equal rates |
| SchedulerHistory.FiredAsShot | flexcore/extended/ports/connection_buffer.hpp:88-88 | over every run the history of a connection has one token for each time an instance of its source fires, with its value and cycle, in order |
| SchedulerEvents.ExternDrained | flexcore/extended/ports/connection_buffer.hpp:136-145 | when the switch tick of the sink reaches the buffer, the extern content that is thrown away is empty |
| SchedulerRace.LosslessIff | flexcore/scheduler/cyclecontrol.cpp:119-151 | for every system: an event connection conserves its tokens in all runs if and only if its ends have different rates or the handler never goes on |
| SchedulerOwnership.Owned | flexcore/extended/ports/node_aware.hpp:46-71 | in every run the main thread touches a buffer cell only while the task that uses the cell has no queued or running instance |
| SchedulerRace.SafeIff | flexcore/scheduler/cyclecontrol.cpp:119-135 | that ownership holds in all runs if and only if the rates differ or the handler never goes on |
| SchedulerRace.RaceRun | flexcore/scheduler/cyclecontrol.cpp:124-134 | in every system with a connection of equal rates, a run with a handler that goes on in which one end is switched while the other is at work |
| SchedulerRace.LostRun | flexcore/extended/ports/connection_buffer.hpp:169-178 | from there, an event appended to extern while the sink sends is cleared away unsent |
| SchedulerOwnership.SwitchKeepsOff | flexcore/extended/ports/node_aware.hpp:56-64 | a switch tick neither reads nor writes the cell of the other end, unless the rates are equal |
| SchedulerOwnership.WorkerKeepsOff | flexcore/extended/ports/connection_buffer.hpp:83-93 | a worker neither reads nor writes a cell unless it runs the task at that end |
| SchedulerControl.AtMostOneInstance | flexcore/scheduler/cyclecontrol.hpp:64-108 | in every reachable state a task has at most one queued or running instance, its flag is set while it has one and only while it has one or is held by the main thread, and a task about to be switched is done |
| SchedulerControl.StepControl | flexcore/scheduler/cyclecontrol.cpp:119-151 | every action of every thread keeps the invariant on flags, instances and done_tasks |
| SchedulerLog.LogOfBlocks | flexcore/scheduler/cyclecontrol.cpp:137-150 | over every run the ticks are spelled by the calls that ended in it, one block each and nothing else: one switch tick and one dispatch for each task found done, all switch ticks first; calls come in the order of cycles and rates, an aborted call leaves nothing |
| SchedulerLog.BlockAt | flexcore/scheduler/cyclecontrol.cpp:137-148 | the block of a call, entry by entry: the switch ticks of its tasks in order, then their dispatches in order |
| SchedulerLog.DoneTasksServed | flexcore/scheduler/cyclecontrol.cpp:119-151 | from the entry of a call that is due, along every run and for any handler: the call is still under way, or the handler stopped it, or the log has the block of the call and every task of the group that was done on entry is in it |
| SchedulerLog.DispatchCount | flexcore/scheduler/cyclecontrol.cpp:73-87 | from clock 0 on, n calls of work() that find all due tasks done dispatch a task ceil(n / period) times |
| SchedulerLog.RunDispatches | flexcore/scheduler/clock.hpp:136-144 | the same from any clock phase, at every point of a cycle |
| SchedulerLog.DispatchesCounted | flexcore/scheduler/cyclecontrol.cpp:144-148 | the count of dispatches of a task is the number of places of the log at which it is dispatched |
| SchedulerLatency.BoundedLatency | flexcore/extended/ports/node_aware.hpp:56-65 | if due tasks are found done, each event fired in cycle s has an arrival cycle d with s + Ts <= d <= s + Ts + Td; if it has been delivered, then in cycle d, and if not, no turn of the sink after d has begun and the main thread is not past cycle d + Td |
| SchedulerLatency.RunLate | flexcore/scheduler/cyclecontrol.cpp:83-86 | d is s + T for equal rates, the first due cycle from s + Ts on for a slower sink, s + Ts + Td for a faster one; this rests on the order fast, medium, slow |
| SchedulerTiming.LastMoves | flexcore/scheduler/parallelregion.hpp:69-74 | the turn of a task on a connection moves from one due cycle to the next at its switch tick, and at no other step |
| SchedulerTiming.StepStamped | flexcore/scheduler/cyclecontrol.hpp:103-108 | every queued or running instance belongs to the latest due cycle of its task |
| SchedulerCalls.CalmCall | flexcore/scheduler/cyclecontrol.cpp:89-111 | over every run, if the last call of work() followed a wait in which nothing timed out, it never turns to the timeout handler |
| SchedulerCalls.KeepWorkingAsSet | flexcore/scheduler/cyclecontrol.cpp:126-130 | over every run keep_working is what start() or stop() set last, unless a handler has answered since that the scheduler is to stop |
| SchedulerPool.StepServes | flexcore/scheduler/cyclecontrol.cpp:144-148 | every step of the scheduler does to the queued and running instances what the thread pool offers: push at the back, take from the front, end a running task, or nothing |
| SchedulerPool.TakeServes | flexcore/scheduler/parallelscheduler.cpp:59-63 | an idle worker takes the instance that has waited longest |
| SchedulerCalls.EmptyUntilAbort | flexcore/scheduler/cyclecontrol.cpp:121-135 | done_tasks is empty on entry after a step if and only if the step is not the abort of a call that has found a task done |
| SchedulerCalls.EmptyIffAbortFree | flexcore/scheduler/cyclecontrol.cpp:119-151 | over every run: done_tasks is empty wherever a call may be entered if and only if no step of the run was the abort of a call that had found a task done; without one no assertion of run_periodic_tasks fails |
| SchedulerCalls.StuckForEver | flexcore/scheduler/cyclecontrol.cpp:121-130 | after such an abort done_tasks never changes again and the next call for the group that is due fails its assertion |
| SchedulerAbort.AbortRun | flexcore/scheduler/cyclecontrol.cpp:119-135 | with two tasks, of which the first has finished, the default handler leads in the second cycle to a done_tasks that is not empty, and the next call fails its assertion |
| SchedulerStates.OneValuePerCycle | flexcore/extended/ports/connection_buffer.hpp:336-349 | all pulls of a sink during one of its cycles return the same sample; extern is not newer than middle, middle not newer than intern |
| SchedulerStates.NeverBackwards | flexcore/extended/ports/connection_buffer.hpp:400-411 | no buffer ever goes back to an older sample |
| SchedulerFresh.Freshness | flexcore/extended/ports/node_aware.hpp:56-65 | if due tasks are found done, a pull in the sink's cycle d returns the value that the source's work tick stored in the last cycle whose switch tick comes before the sink's in cycle d: at least as new as every sample visible in d, at most two periods of the source old, and the default only while no cycle is visible |
| SchedulerFresh.OneSamplePerCycle | flexcore/extended/ports/connection_buffer.hpp:404-404 | if due tasks are found done, the source takes exactly one sample in each of its due cycles, and it has taken that of a cycle when its next turn is over |
| SchedulerHistory.PullsAsTaken | flexcore/extended/ports/connection_buffer.hpp:404-406 | over every run, whatever the handler answers: one entry for each pull of an instance of the sink, with its cycle, and the value seen is the default or the one that the work tick with the sample's number stored |
| NodeAware.SwitchAsWired | flexcore/extended/ports/node_aware.hpp:46-71 | the switch tick of a task does to a connection what the wires that construct_buffer adds do, in their order |
| NodeAware.WorkAsWired | flexcore/extended/ports/node_aware.hpp:65-65 | a work tick reaches exactly the buffers wired to it |
| ConnectionBuffers.SwitchActiveKeeps | flexcore/extended/ports/connection_buffer.hpp:116-129 | the active switch neither loses nor reorders anything |
| ConnectionBuffers.SwitchPassiveDrops | flexcore/extended/ports/connection_buffer.hpp:136-145 | the passive switch loses exactly the old extern content, so nothing if and only if that is empty |
| ConnectionBuffers.SwitchActivePassiveKeeps | flexcore/extended/ports/connection_buffer.hpp:151-163 | the direct switch neither loses nor reorders anything |
| ConnectionBuffers.EventBuffer.Receive | flexcore/extended/ports/connection_buffer.hpp:88-88 | one more token at the end of what is under way |
| ConnectionBuffers.EventBuffer.SwitchActiveBuffers | flexcore/extended/ports/connection_buffer.hpp:116-129 | the new state, and what is under way is kept |
| ConnectionBuffers.EventBuffer.SwitchPassiveBuffers | flexcore/extended/ports/connection_buffer.hpp:136-145 | the new state, and what is under way is kept but for the old extern |
| ConnectionBuffers.EventBuffer.SwitchActivePassiveBuffers | flexcore/extended/ports/connection_buffer.hpp:151-163 | the new state, and what is under way is kept |
| ConnectionBuffers.EventBuffer.SendEvents | flexcore/extended/ports/connection_buffer.hpp:169-178 | fires what extern held, in order, and leaves it empty |
| ConnectionBuffers.VoidEventBuffer.Receive | flexcore/extended/ports/connection_buffer.hpp:208-208 | the counters stay the lengths of an event buffer's vectors |
| ConnectionBuffers.VoidEventBuffer.SwitchActiveBuffers | flexcore/extended/ports/connection_buffer.hpp:232-240 | the counters stay the lengths of an event buffer's vectors |
| ConnectionBuffers.VoidEventBuffer.SwitchPassiveBuffers | flexcore/extended/ports/connection_buffer.hpp:242-249 | the counters stay the lengths of an event buffer's vectors |
| ConnectionBuffers.VoidEventBuffer.SwitchActivePassiveBuffers | flexcore/extended/ports/connection_buffer.hpp:251-255 | the counters stay the lengths of an event buffer's vectors |
| ConnectionBuffers.VoidEventBuffer.SendEvents | flexcore/extended/ports/connection_buffer.hpp:262-268 | fires as often as an event buffer would, and leaves zero |
| ConnectionBuffers.StateBuffer.Sample | flexcore/extended/ports/connection_buffer.hpp:404-404 | the new sample is the newest of all, and middle and extern keep the samples they hold |
| ConnectionBuffers.StateBuffer.SwitchPassiveBuffers | flexcore/extended/ports/connection_buffer.hpp:336-339 | middle holds the newest sample and never goes back, extern keeps its sample |
| ConnectionBuffers.StateBuffer.SwitchActiveBuffers | flexcore/extended/ports/connection_buffer.hpp:341-344 | extern holds the sample of middle, and does not go back unless it was ahead of middle |
| ConnectionBuffers.StateBuffer.SwitchActivePassiveBuffers | flexcore/extended/ports/connection_buffer.hpp:346-349 | extern holds the newest sample and never goes back, middle keeps its sample |
| ConnectionBuffers.StateBuffer.Pull | flexcore/extended/ports/connection_buffer.hpp:406-406 | the sink pulls a value that was sampled, or the default, namely the one that the last switch of its side chose |
| CycleControls.CycleControl.RunPeriodicTasks | flexcore/scheduler/cyclecontrol.cpp:119-151 | with workers acting at any time: each task found done gets one switch tick, then one dispatch, in this order, and every task that was done on entry is found done; a stopped call gives none and ends the main loop; with the default handler all tasks of the group are found done or the call stops |
| CycleControls.CycleControl.Work | flexcore/scheduler/cyclecontrol.cpp:73-87 | the clock advances by one tick, exactly the due groups get their calls, fast, medium, slow, each of them serving every task that was done before; after a clean wait all of them do and the handler is not called |
| CycleControls.CycleControl.WaitForCurrentTasks | flexcore/scheduler/cyclecontrol.cpp:89-111 | if nothing times out, every task that the next work() checks is done and no handler was called |
| CycleControls.CycleControl.LoopBody | flexcore/scheduler/cyclecontrol.cpp:218-222 | a pass in which the handler is not called runs all due groups |
| CycleControls.CycleControl.CheckGroup | flexcore/scheduler/cyclecontrol.cpp:122-135 | the first loop ends with done_tasks holding every task that was done when it began, or with the handler's stop |
| CycleControls.CycleControl.Ask | flexcore/scheduler/cyclecontrol.cpp:124-130 | a task found not done: only a handler other than the default one can make the call look again; the default handler stores exactly one exception, for this task, and ends the main loop |
| CycleControls.CycleControl.SwitchGroup | flexcore/scheduler/cyclecontrol.cpp:137-143 | one switch tick for each task found done, in order |
| CycleControls.CycleControl.DispatchGroup | flexcore/scheduler/cyclecontrol.cpp:144-150 | one dispatch for each task found done, in order; done_tasks is empty afterwards |
| CycleControls.CycleControl.Interfere | flexcore/scheduler/cyclecontrol.hpp:103-108 | whatever workers do is a run of the machine and sets no flag |
| ThreadPool.NoLostWakeUp | flexcore/scheduler/parallelscheduler.cpp:38-66 | while the pool works and a worker sleeps, the tasks waiting are no more than the workers about to look at the queue and the notifications under way |
| ThreadPool.ExactlyOnce | flexcore/scheduler/parallelscheduler.cpp:59-63 | the tasks handed to add_task are started in this order, each once, and each started task finishes once |
| ThreadPool.SubmittedAsPushed | flexcore/scheduler/parallelscheduler.cpp:102-107 | what counts as submitted is what the calls of add_task handed over, in their order |
| ThreadPool.NeverStuck | flexcore/scheduler/parallelscheduler.cpp:102-110 | while a task waits, some worker can move or is about to be notified |
| ThreadPool.Shutdown | flexcore/scheduler/parallelscheduler.cpp:70-88 | after stop() no queued task is started, a pool without sleepers never sleeps again, and at most two steps a thread separate it from its end |
| ThreadPool.JoinsComplete | flexcore/scheduler/parallelscheduler.cpp:78-86 | until all threads have returned, some thread can take a step towards its end |
| ThreadPool.StepInv | flexcore/scheduler/parallelscheduler.cpp:38-110 | every critical section, notification and spurious wake-up keeps the invariant |
| ThreadPool.PoolServes | flexcore/scheduler/parallelscheduler.cpp:43-63 | seen from outside, the pool only pushes at the back, takes from the front and ends running tasks |
| ParallelSchedulers.ParallelScheduler.AddTask | flexcore/scheduler/parallelscheduler.cpp:102-110 | the task is among those submitted during the call, whatever other threads submit, and the critical section and the notification are steps of the protocol |
| ParallelSchedulers.ParallelScheduler.Look | flexcore/scheduler/parallelscheduler.cpp:43-61 | a worker returns if and only if the pool stops, sleeps only on an empty queue, and otherwise takes the task that has waited longest |
| ParallelSchedulers.ParallelScheduler.Stop | flexcore/scheduler/parallelscheduler.cpp:70-88 | no thread sleeps, a pool that was stopped before starts nothing more, and the joins complete exactly when all threads have returned; while they have not, a thread can take a step towards its end |
| ParallelSchedulers.ParallelScheduler.JoinAll | flexcore/scheduler/parallelscheduler.cpp:79-86 | with other threads acting between any two joins: all threads have returned, or one is left that can take a step towards its end; nothing is started meanwhile |
| ParallelSchedulers.ParallelScheduler.NrOfWaitingTasks | flexcore/scheduler/parallelscheduler.cpp:96-100 | the number of tasks submitted and not started |
| ParallelSchedulers.ParallelScheduler.Interfere | flexcore/scheduler/parallelscheduler.cpp:38-66 | whatever other threads do is a run of the protocol; a stopped pool starts nothing and puts nobody to sleep |
| RoseForest.PlugTreeWord | flexcore/3rdparty/adobe/forest.hpp:659-669 | putting trees in front of a position inserts their traversal there and moves nothing else |
| RoseForest.WordDetermines | flexcore/3rdparty/adobe/forest.hpp:437-457 | a tree is determined by its traversal |
| RoseForest.TwoPositionsPerNode | flexcore/3rdparty/adobe/forest.hpp:437-446 | the traversal visits every node twice |
| ForestLinks.IncrementSteps | flexcore/3rdparty/adobe/forest.hpp:437-446 | increment recovers the edge and steps to the next position of the traversal, round the ring |
| ForestLinks.DecrementSteps | flexcore/3rdparty/adobe/forest.hpp:448-457 | decrement steps back to the position before |
| ForestLinks.StepsInverse | flexcore/3rdparty/adobe/forest.hpp:437-457 | stepping forward and back are inverse on every well-formed forest |
| ForestLinks.SetNext | flexcore/3rdparty/adobe/forest.hpp:546-555 | the second position follows the first, and no other link changes |
| Forests.Forest.EmptyIff | flexcore/3rdparty/adobe/forest.hpp:616-617 | the forest reports empty exactly when it has no trees |
| Forests.Forest.SizeValidIff | flexcore/3rdparty/adobe/forest.hpp:616-616 | the cached size is known exactly when it is not zero or the forest has no trees |
| Forests.Forest.Insert | flexcore/3rdparty/adobe/forest.hpp:659-669 | one new leaf in front of the position, nothing else moves, the links stay well formed, and the cached size stays known and exact if it was known |
| Forests.Forest.Erase | flexcore/3rdparty/adobe/forest.hpp:814-839 | exactly one node goes, its children take its place in order; what is returned for either edge; the cached size stays known and exact if it was known |
| Forests.Forest.Splice | flexcore/3rdparty/adobe/forest.hpp:873-898 | the siblings of the range leave one forest and stand in front of the position in the other, shape and order kept, all nodes conserved; each size stays exact if it was known and the count is given, and is unknown otherwise |
| Forests.Forest.SpliceWithin | flexcore/3rdparty/adobe/forest.hpp:873-898 | the same within one forest, which keeps its size |
| Forests.Forest.SpliceCounts | flexcore/3rdparty/adobe/forest.hpp:878-888 | each cached size is exact if it was known and the count is given, and unknown otherwise |
| ForestOperations.InsertParent | flexcore/3rdparty/adobe/forest.hpp:911-918 | the siblings of the range become the children of one new node in their place |
| ForestOperations.EraseRange | flexcore/3rdparty/adobe/forest.hpp:792-809 | terminates and removes exactly the nodes with both edges in the range |
| ForestOperations.KeepMembers | flexcore/3rdparty/adobe/forest.hpp:797-807 | a position of the range survives exactly when the other edge of its node is outside |
| ForestReverse.Reverse | flexcore/3rdparty/adobe/forest.hpp:923-928 | the siblings of a range that ends at a trailing edge or has at most one sibling stand in reverse order, each subtree intact, the forest well formed |
| ForestReverse.ReverseAppend | flexcore/3rdparty/adobe/reverse.hpp:45-53 | the loop terminates with all siblings relinked |
| ForestReverseDamage.ReverseDamages | flexcore/3rdparty/adobe/forest.hpp:923-928 | for all other ranges the call ends and leaves the siblings in their old order; the ring is the old one without the leading edge behind the range and the descendants of its node, so it is neither the ring of the old forest nor that of the reversed one |
| ForestReverseDamage.ReverseAppendPast | flexcore/3rdparty/adobe/reverse.hpp:45-53 | on such a range the loop walks past its end, through the children of the sibling there and back over the siblings, and terminates |
| ForestReverseDamage.ReverseThree | flexcore/3rdparty/adobe/forest.hpp:923-928 | three leaves, of which the first two are to be reversed: five of their six positions are left in the ring, and the leading edge of the third is not among them |
| ForestReverseDamage.BuildThree | flexcore/3rdparty/adobe/forest.hpp:659-669 | three insertions at the end of an empty forest give the forest of that example |
| ForestValues.Size | flexcore/3rdparty/adobe/forest.hpp:778-787 | the exact number of nodes, cached or counted |
| ForestValues.Recount | flexcore/3rdparty/adobe/forest.hpp:130-146 | the distance between preorder iterators, counted round through the sentinel, is the number of nodes |
| ForestValues.FindLeading | flexcore/3rdparty/adobe/forest.hpp:113-118 | terminates at the next leading edge, wrapping at the end of the ring |
| ForestValues.Equal | flexcore/3rdparty/adobe/forest.hpp:711-724 | true if and only if the two forests hold the same values in the same shape |
| ForestValues.MarksDetermine | flexcore/3rdparty/adobe/forest.hpp:716-721 | edges and the values on leading edges determine the forest |
| ForestCopies.InsertRange | flexcore/3rdparty/adobe/forest.hpp:860-868 | a copy of the siblings of another forest, equal in values and shape and made of new nodes, stands in front of the position |
| ForestCopies.InsertRangeWithin | flexcore/3rdparty/adobe/forest.hpp:860-868 | the same with a range of the same forest and a position outside it |
| ForestCopies.InsertRangeEndless | flexcore/3rdparty/adobe/forest.hpp:860-868 | for every other position, inside the range or at its end: after any number of rounds the loop has not ended, and the forest has grown by at least that many positions |
| ForestCopies.AppendToItself | flexcore/3rdparty/adobe/forest.hpp:860-868 | a forest of one leaf whose trees are to be appended to themselves: the loop does not end |
| ForestCopies.CopyForest | flexcore/3rdparty/adobe/forest.hpp:752-756 | the copy constructor gives a new forest with the same values in the same shape |
| ForestCopies.CopyIsEqual | flexcore/3rdparty/adobe/forest.hpp:711-724 | a copy compares equal to its original |
| ForestCopies.PrefixDepth | flexcore/3rdparty/adobe/forest.hpp:437-457 | a traversal is a balanced word: no prefix closes more nodes than it opens |
| RosePaths.AfterSubtree | flexcore/3rdparty/adobe/forest.hpp:71-78 | behind a subtree stands the next sibling or the trailing edge of the parent |
| BaseNodes.FindParent | flexcore/3rdparty/adobe/forest.hpp:71-78 | terminates at the trailing edge of the parent, or of the sentinel for a root |
| BaseNodes.FindSelf | flexcore/extended/base_node.cpp:11-18 | the trailing edge of the node with the id |
| BaseNodes.SomeHasId | flexcore/extended/base_node.cpp:14-17 | if the id occurs at all, the first position that has it is a leading edge |
| BaseNodes.FullName | flexcore/extended/base_node.cpp:20-38 | the dotted names on the path from the root to the node |
| BaseNodes.AddChild | flexcore/extended/base_node.cpp:66-74 | the new node is the last child, and find_parent leads from it to its parent |
| BaseNodes.EraseWithSubtree | flexcore/extended/base_node.hpp:276-284 | exactly one subtree goes; the result is the position behind it, which is the trailing edge of the parent if and only if the position behind the node was a trailing edge before the call |
| BaseNodes.EraseFirstOfTwo | flexcore/extended/base_node.hpp:272-284 | the first of two children is erased: the result is the second child, not the parent |
| BaseNodes.BuildFamily | flexcore/extended/base_node.cpp:66-74 | a root with two children made by add_child, the forest of that example |
| PortRegistry.EventPorts.DestroySink | flexcore/pure/event_sinks.hpp:81-90 | every source loses exactly its entries for the sink, each breaker finds its key, the order of the rest is kept |
| PortRegistry.EventPorts.RemoveHandler | flexcore/pure/detail/port_utils.hpp:86-96 | one entry for the key goes from both vectors at the same index |
| PortRegistry.EventPorts.Connect | flexcore/pure/detail/port_utils.hpp:137-148 | one more connection at the end, and the vectors, keys and breakers stay in step |
| PortRegistry.EventPorts.MoveSource | flexcore/pure/detail/port_utils.hpp:124-129 | all connections and the callback go to the new port, none stays behind |
| PortRegistry.EventPorts.DestroySource | flexcore/pure/detail/port_utils.hpp:150-153 | source and callback are gone, and all other ports are as before and stay in step |
| PortRegistry.EventPorts.Fire | flexcore/pure/event_sources.hpp:46-61 | calls exactly the connections to sinks that live, in the order they were made, entry by entry |
| PortRegistry.AliveAt | flexcore/pure/event_sources.hpp:56-60 | the connections that are alive are those at ascending places of all that were made, and these places are exactly those of sinks that have not been destroyed |
| PortRegistry.EventPorts.NrConnectedHandlers | flexcore/pure/event_sources.hpp:64-67 | the number of connections to sinks that live |
| PortRegistry.FindKey | flexcore/pure/detail/port_utils.hpp:91-93 | the first place of the key, if there is one |
| PortRegistry.DroppingFinds | flexcore/pure/detail/port_utils.hpp:88-92 | a breaker whose source lives always finds its key there |
| PortRegistry.ConnectOk | flexcore/pure/detail/port_utils.hpp:138-142 | connecting keeps the invariant of all ports |
| PortRegistry.MoveOk | flexcore/pure/detail/port_utils.hpp:124-129 | moving a source keeps the invariant of all ports |
| StatePorts.StatePorts.Get | flexcore/pure/state_sink.hpp:40-47 | there is a handler if and only if a source was connected and the one connected last lives, and it is the handler of that connection |
| StatePorts.StatePorts.Connect | flexcore/pure/detail/port_utils.hpp:50-54 | the new connection replaces the old one |
| StatePorts.StatePorts.DestroySource | flexcore/pure/state_sources.hpp:65-74 | cuts off the sinks that pull from it and no other |
| StatePorts.StatePorts.MoveSink | flexcore/pure/detail/port_utils.hpp:42-48 | the moved sink pulls from the same source |
| StatePorts.DroppedSink | flexcore/pure/detail/port_utils.hpp:55-69 | the destruction of a superseded source leaves a sink as it is |
| ConnectionChains.AnyGrouping | flexcore/pure/detail/active_connection_proxy.hpp:105-138 | every grouping completes a legal chain: one whose far end is passive (returns void for a pushing port, takes void for a pulling one) and in which nothing nearer the port completes it; the first connectable of a pushing port may take void |
| ConnectionChains.AsWritten | flexcore/core/connection.hpp:176-199 | for every expression, whatever its grouping and whether the chain is complete or not: the port and the connectables that the value of >> holds are the operands in the order in which they were written |
| ConnectionChains.SameConnection | flexcore/pure/detail/active_connection_proxy.hpp:105-138 | any two groupings of the same operands that complete give the same port the same connectables in the same order |
| ConnectionChains.CompletesIff | flexcore/pure/detail/active_connection_proxy.hpp:105-219 | all groupings complete a chain if and only if it is legal |
| ConnectionChains.SomeGroupingFails | flexcore/pure/detail/active_connection_proxy.hpp:105-219 | for every chain that is not legal, a grouping that does not complete it |
| ConnectionChains.TooEarly | flexcore/pure/detail/active_connection_proxy.hpp:105-116 | a connectable that takes void in the middle of a pushing chain: in one piece the chain completes, added from the left it is completed there and the rest is refused |
| ConnectionChains.OneConnectable | flexcore/pure/detail/active_connection_proxy.hpp:170-219 | one connectable at a port: complete exactly if it returns void (pushing) or takes void (pulling), and refused on the wrong side |
| ConnectionChains.SameMeaning | flexcore/core/connection.hpp:39-58 | any two groupings of the same operands that complete do the same when called, namely the connectables of the operands one after the other |
| ConnectionChains.ConnectablesAt | flexcore/pure/detail/active_connection_proxy.hpp:105-138 | the connectables of an expression are exactly its operands that are no port, in their order |
| ConnectionChains.CallMeaning | flexcore/core/connection.hpp:50-58 | a nested connection means its connectables called one after the other |
| ConnectionChains.CallsInOrder | flexcore/core/connection.hpp:39-58 | calling a list of connectables: each gets what the one before it returned, the first the argument |
| ConnectionChains.LeftThenRight | flexcore/core/connection.hpp:96-118 | what stands on the left of >> is called first, and what stands on the right gets its result |
| ConnectionChains.Apply | flexcore/core/detail/connection_utils.hpp:18-43 | the visit of a connection appends its graph-aware members in order |
| ConnectionChains.AwareAt | flexcore/extended/graph/graph_connectable.hpp:26-41 | the nodes that a visit enters are the entries of exactly the graph-aware connectables, in their order; others leave none |
| ConnectionChains.AddConnection | flexcore/extended/graph/graph_connectable.hpp:170-202 | the ports are the graph-aware members with the active port at its end, and edge i joins the i-th and the next of them |
| ConnectionChains.SameEdges | flexcore/extended/graph/graph_connectable.hpp:187-202 | whatever grouping completes a chain, the edges recorded are those between neighbouring graph-aware operands as they were written |
| ConnectionChains.EnteredAt | flexcore/extended/graph/graph_connectable.hpp:26-41 | the graph-aware operands of an expression are exactly those with an entry, in their order |

## Left out

- ForestReverse.Reverse: covers the ranges on which reversing works; what becomes of all others is `ForestReverseDamage.ReverseDamages`.
- ForestCopies.InsertRangeWithin: covers the positions for which the loop ends; that it does not end for all others is `ForestCopies.InsertRangeEndless`.
- ConnectionChains.CompletesIff: leaves it to the compiler whether the payload types of neighbours fit; only whether a connectable takes or returns void decides what `>>` returns.
- BaseNodes.FindParent: is not stated for the sentinel itself, whose parent does not exist.
- PortRegistry.EventPorts.Connect: asks for an address that has not belonged to a destroyed port, because keys are addresses.
- CycleControls.CycleControl.Work: asks that the groups that are due have empty done_tasks, as the assertion of the source does; `SchedulerCalls` says when they have.
- Wall-clock time, sleeping, warp factors and thread creation: a timed wait is reduced to whether the task is done at its end.
- A data race is modelled as interleaved atomic steps; what C++ leaves undefined in one is not modelled beyond the lost event.
- Adding tasks, start() and stop() of cycle_control: the list of tasks is fixed before the run.
- Custom timeout handlers that change a task's flag.
- ParallelSchedulers.ParallelScheduler.Stop: returns false when the environment has not let all threads return yet, where the source blocks in join.
- Payloads of tokens and samples are integers, because no buffer looks at them.
- event_no_buffer and state_no_buffer, which only forward.
- Exceptions and effects inside handlers, and handlers that connect or destroy ports while they are called.
- Move assignment of ports and moves of connected passive ports, which the source forbids.
- filter and reverse full-order iterators, push and pop at the ends of a forest, whole-forest splice and clear, which only call what is proved here.
- forest_owner, the replacement of proxies by nodes in make_child, and the connection graph's own storage.
- Type traits, mux ports, simple connectables, settings, logging, serialization and visualization: compile-time selection, input and output, or easy members.
