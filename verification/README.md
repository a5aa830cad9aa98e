# Verification of the generic audio controller

The generic controller plug-in of the AudioManager turns requests (connect, set volume,
mute, limit, suspend) into trees of actions that talk to a routing side asynchronously.
This project models its logic in Dafny and proves what the code promises. Every loop and
every object that changes in place is a Dafny method or class, proved against a function
of its inputs or old state; the theorems are lemmas about those functions.

Run `dafny verify dfyconfig.toml`.

## What is modelled

**The action engine.** `ActionTree` gives one call of `execute()`, `undo()` or `update()`
as a function of a whole tree; what the environment decides (the value a virtual
`_execute()` or `_undo()` returns, how long it takes, which children it appends) is part
of a node. `ActionInvariant` and `ActionRollback` say what every call keeps, `ActionRuns`
is about all interleavings of calls, acknowledgements and timers, `ActionDriver` about the
root and the controller's loop, `ActionCleanup` about the rollback of an action under this
loop, `ActionBudget` about time limits and late children, `ActionTime` about where time goes,
`ActionPatience` about plans whose rollback is always complete, `ActionClock` about
measured time. `ActionObjects` has the real objects: a result climbs through observers
into containers that are in the middle of their own loops, and every method is proved to
do what the functions say, for its own tree and for all containers above it.

**Volumes.** `VolumeBalance` is the greedy loop over columns, `ConnectionTable` the limits,
`VolumeMatrix` the set-up of the tables, `VolumeOutcome` what a request comes to for the
connections it addresses and for all others, `VolumeOrder` the order of the columns,
`VolumePromises` what each of the three actions aims at and has reached once its requests
have been carried out, `VolumeCore` the class with the loops.
`ElementVolume` is the leaf that sends a volume, with the store of handles,
`VolumeEffects` what such a leaf does to the cached states, and `VolumeTransaction` shows
that a container of such leaves does all or nothing.

**Limits** keyed by bit patterns and the undo of mute and limit actions (`LimitMap`),
**routes** from topology strings (`Topology`, `TopologySearch`, `TopologyRoutes`),
**selection of connections** per class (`ClassExclusivity`, `ClassRuns`, `ClassEscapes`,
`ConnectActions`), the **observer graph** of elements (`ElementGraph`) and the **rundown** (`Rundown`). `KeyOrder` and `Sequences` hold
what several modules need; keys of ordered maps are numbers in the order of the map.

## What turned out

Some promises do not hold of the code as it is; the code was kept and the exact condition
proved.

- A container checks its time limit before it looks at the state of its child
  (CAmActionContainer.cpp:204-214), so that it can give up on a child container that is
  still executing. The timer of a leaf normally comes first, but a timer above ten
  seconds is refused (CAmTimerEvent.cpp:106-111) and an acknowledgement may be late. The
  rollback then passes over that child, and leaves that had completed below it stay as
  they are. `RollbackCompleteIff` has the exact condition, `PatientRollback` a condition on
  the plan that excludes it.
- The driver cleans up after every pass, also while the root waits in the middle of a
  rollback (CAmControllerPlugin.cpp:2495). A root with several actions could lose leaves
  to that (`DrivenRollbackIff`). It never has more than one, since a trigger is taken
  only for an empty root (CAmControllerPlugin.cpp:2496-2505) and brings one action
  (CAmPolicyEngine.cpp:206): `LifeFrees`. So every action is rolled back as
  `ActionConcludes` says.
- A leaf that gets a second parent goes on reporting to the first
  (CAmActionCommand.cpp:79): `SetParent`.
- The undo of a limit does not pass on the pattern (CAmActionLimit.cpp:79):
  `LimitUndoRestores`. The undo of a mute loses stored patterns that are a proper part of
  its own: `UndoRestores`.
- A closing bracket takes off all open gateways (CAmClassElement.cpp:430-436), so that
  the route to a source behind an inner group lacks a gateway: `NestedGroupsMislead`. If
  no gateway is missing, the scan is the tree search if and only if no group is closed
  before the source it finds, within the top-level group of that source: `KnownIff`. A
  missing gateway also hides what follows in the groups around it
  (CAmClassElement.cpp:383-415): `MissingGatewayHides`. `DirectIsSearch` has a condition
  for all topologies, which `OneOfferIff` shows to be exact for a single wanted source.
- An empty list of routes that comes without an error is taken for success, with an
  empty route (CAmClassElement.cpp:143-175).
- Of two connections with relative limits the earlier one's is broken in the end:
  `RelativeLimitHolds`.
- A column that an earlier connection has entered keeps its ordinal and sets the count back
  (CAmActionSetVolumeCore.cpp:284-297), so that the columns of one connection can be
  balanced out of order: `SharedElementTurnsBack`. `OrdinalsAlong` gives the ordinals: an
  element follows in order the last one that is shared with an earlier connection.
- A limit that changes together with the main volume is counted twice:
  `CompensationKeepsTotal`.
- Two connections of a class and main sink can be active at once. `RunsAreExclusiveIff`
  says when two can come to hold the class and sink, and `UnfairRunEnds` that they then
  can become active. In runs of the controller a rival escapes by a class name that is not
  that of the created connection (`ConnectUnderOtherName`), by the name of a sink that a
  listed connection only passes (`ConnectAtPassedSink`), and, for a suspend action, when a
  failed action has left it connecting (`SuspendAfterAbort`). In all other runs there is
  none: `UnabortedRunsAreExclusive`.
- The comment at CAmActionRundown.cpp:125 speaks of domains that are early; the code
  drops those. The model follows the code.
- The test for a borrow compares the start time with itself (CAmActionContainer.cpp:510);
  `MeasuredIsClose` says what that costs.

## Model

| member | source | states |
|---|---|---|
| `ActionInvariant.ExecRan` | PluginControlInterfaceGeneric/src/CAmActionContainer.cpp:170-251 | execute() of any well-formed tree keeps the execution invariant (children before the index completed with error 0, later ones not started), logs exactly the leaves that newly succeeded, and returns only when one leaf waits or the action is at rest |
| `ActionInvariant.AtMostOneWaits` | PluginControlInterfaceGeneric/src/CAmActionContainer.cpp:193-239 | in a whole tree at most one leaf waits for an acknowledgement |
| `ActionInvariant.ExecIdleWhileWaiting` | PluginControlInterfaceGeneric/src/CAmActionContainer.cpp:193-239 | execute() called again while a leaf waits changes nothing, tells nobody and completes nothing |
| `ActionInvariant.GivesUp` | PluginControlInterfaceGeneric/src/CAmActionContainer.cpp:203-214 | a container whose time is spent stops with E_ABORTED, and no leaf below it is left waiting |
| `ActionInvariant.LoopTurns` | PluginControlInterfaceGeneric/src/CAmActionContainer.cpp:196-239 | one turn of the loop moves the index by exactly one or ends the loop; the loop is the repetition of its turns |
| `ActionRollback.UndoUnwinds` | PluginControlInterfaceGeneric/src/CAmActionContainer.cpp:253-316 | undo() visits the next leaves in line, from the last that succeeded back to the first, loses none on the way and stops only when a leaf waits or all is undone |
| `ActionRollback.DeliverRan` | PluginControlInterfaceGeneric/src/CAmActionCommand.cpp:210-236 | an acknowledgement while executing completes the one waiting leaf and climbs to its containers; nobody waits afterwards and the invariant holds |
| `ActionRollback.DeliverAcks` | PluginControlInterfaceGeneric/src/CAmActionCommand.cpp:210-236 | an acknowledgement while undoing, whatever its result, ends the undo of the one waiting leaf and leaves what is still to be undone unchanged |
| `ActionRollback.DeliverNobody` | PluginControlInterfaceGeneric/src/CAmActionCommand.cpp:210-236 | where nobody waits an acknowledgement changes nothing |
| `ActionRollback.StoppedSplits` | PluginControlInterfaceGeneric/src/CAmActionContainer.cpp:279-303 | when a tree has stopped, its completed leaves are those a rollback will visit, in reverse, followed by those below a container that was abandoned while executing |
| `ActionRuns.Reachable` | PluginControlInterfaceGeneric/src/CAmActionContainer.cpp:170-356 | for every fresh tree and every interleaving of execute, undo, acknowledgements and timeouts: the invariant holds, at most one leaf waits and the index of an executing or undoing container is in bounds |
| `ActionRuns.RunSound` | PluginControlInterfaceGeneric/src/CAmActionContainer.cpp:170-356 | over whole runs, what has completed and what was undone is at any time what the tree shows, in order |
| `ActionRuns.RollbackIsReverse` | PluginControlInterfaceGeneric/src/CAmActionContainer.cpp:253-316 | a finished rollback has undone the completed leaves in exactly the reverse of the order of completion, except for those still standing, which completed last |
| `ActionRuns.RollbackCompleteIff` | PluginControlInterfaceGeneric/src/CAmActionContainer.cpp:253-316 | the rollback of a stopped tree is complete and exactly reversed if and only if, when it stopped, no leaf had completed below a container that was abandoned while executing |
| `ActionRuns.RollbackCanMissLeaves` | PluginControlInterfaceGeneric/src/CAmActionContainer.cpp:203-214 | a concrete run, with a limit of 20 seconds for which no timer is set, in which a container gives up on an executing child, and the rollback misses a completed leaf |
| `ActionPatience.PatientRollback` | PluginControlInterfaceGeneric/src/CAmActionContainer.cpp:253-316 | if only containers of leaves have a time limit in the plan, every finished rollback is complete: the undone leaves are the reverse of the completed ones and none is left standing |
| `ActionPatience.RunPatient` | PluginControlInterfaceGeneric/src/CAmActionContainer.cpp:195-228 | that condition is kept by every run, although time limits are handed down |
| `ActionInvariant.ErrorHasCause` | PluginControlInterfaceGeneric/src/CAmActionContainer.cpp:318-356 | the error of an action that has stopped is that of a failed leaf below it, of a container whose own _execute() answered it, or E_ABORTED of one with a time limit |
| `ActionRuns.StoppedForCause` | PluginControlInterfaceGeneric/src/CAmActionContainer.cpp:318-356 | over any run, that is what a tree that has stopped reports |
| `ActionBudget.BudgetTelescopes` | PluginControlInterfaceGeneric/src/CAmActionContainer.cpp:195-228 | in one tree: the time limit of a waiting leaf is what a container above it, at any distance, has left of its own finite limit by its count of elapsed time, without underflow |
| `ActionBudget.EveryAncestorsBudget` | PluginControlInterfaceGeneric/src/CAmActionContainer.cpp:195-228 | the same holds for every container between the leaf and the top |
| `ActionTime.ElapsedIsTaken` | PluginControlInterfaceGeneric/src/CAmActionContainer.cpp:476-487 | getExecutionTime() of a tree whose parts have noted their time is the sum of the times spent: of every container that has started, every leaf that completed at once, and every leaf that was acknowledged |
| `ActionTime.ExecTimely` | PluginControlInterfaceGeneric/src/CAmActionCommand.cpp:125-162 | execute() of any tree notes the time of every part that starts or completes in it |
| `ActionTime.DeliverTimely` | PluginControlInterfaceGeneric/src/CAmActionCommand.cpp:210-236 | an acknowledgement notes the time of the leaf that it completes, and no other |
| `ActionTime.TimeIsAccounted` | PluginControlInterfaceGeneric/src/CAmActionContainer.cpp:476-487 | after any run, what the root and each container on the way to the current leaf count as elapsed is the time that their started parts have taken, acknowledged leaves that of their acknowledgement |
| `ActionTime.BudgetIsTimeLeft` | PluginControlInterfaceGeneric/src/CAmActionContainer.cpp:203-221 | in any run, a waiting leaf was given the limit of each container above it less the time that the started parts of that container have taken |
| `ActionBudget.AddKeepsRunning` | PluginControlInterfaceGeneric/src/CAmActionContainer.cpp:91-121 | a fresh child added to a running container at the insertion point or behind it keeps the invariant, the waiting leaf, the completed leaves and the time used |
| `ActionBudget.AppendKeepsRunning` | PluginControlInterfaceGeneric/src/CAmActionContainer.cpp:76-89 | append() keeps the shape of a running container |
| `ActionBudget.InsertKeepsRunning` | PluginControlInterfaceGeneric/src/CAmActionContainer.cpp:91-121 | insert() keeps the shape, and the insertion point is the current child or the one after it |
| `ActionClock.CalculateTimeDifference` | PluginControlInterfaceGeneric/src/CAmActionContainer.cpp:502-522 | the method with its condition that is never true computes the unborrowed difference |
| `ActionClock.MeasuredIsClose` | PluginControlInterfaceGeneric/src/CAmActionCommand.cpp:304-323 | for a monotonic clock the unborrowed, truncated difference is not negative and less than 1 ms off; it is the time rounded down exactly when the nanoseconds have not run over or nothing is cut off |
| `ActionDriver.CleanupExecuting` | PluginControlInterfaceGeneric/src/CAmActionContainer.cpp:358-397 | cleanup() of an executing root removes exactly the finished prefix and still points at the same current child |
| `ActionDriver.CleanupDrains` | PluginControlInterfaceGeneric/src/CAmRootAction.cpp:47-55 | cleanup() after a completed run or a complete rollback removes every child and resets the root to a fresh one |
| `ActionCleanup.CleanupUndoingIff` | PluginControlInterfaceGeneric/src/CAmActionContainer.cpp:366-386 | of the container class: cleanup() while it waits in the middle of a rollback takes nothing from it if and only if no leaf stands completed in a child before the current one |
| `ActionDriver.DrivePass` | PluginControlInterfaceGeneric/src/CAmControllerPlugin.cpp:2486-2495 | one pass of the driver (execute, undo if stopped, clean up) leaves the root waiting for one leaf or as good as new, and accounts for every leaf |
| `ActionDriver.LifeAccounts` | PluginControlInterfaceGeneric/src/CAmControllerPlugin.cpp:2475-2520 | over the whole life of the root every leaf that ever completed is at any time still standing, or was told to undo, or was removed, exactly once; what is removed is the subject of LifeFrees |
| `ActionCleanup.LifeFrees` | PluginControlInterfaceGeneric/src/CAmControllerPlugin.cpp:2475-2520 | over the whole life of the driver the root never holds more than one action, and a pass removes, of the completed leaves, exactly those of an action that has completed and those that are lost when a rollback ends |
| `ActionCleanup.DrivenRollback` | PluginControlInterfaceGeneric/src/CAmActionContainer.cpp:366-386 | for a root with any number of actions: from the pass in which it has stopped to the one that gives it back, the pending leaves are told to undo in order, except for those that stand before the first undo that waits; these are removed instead |
| `ActionCleanup.DrivenRollbackIff` | PluginControlInterfaceGeneric/src/CAmActionContainer.cpp:366-386 | such a root has everything undone that was pending if and only if no leaf stands completed in a child before the one whose undo is the first to wait |
| `ActionCleanup.LifeRollsBack` | PluginControlInterfaceGeneric/src/CAmControllerPlugin.cpp:2475-2520 | in every life of the driver a finished rollback has undone everything that was pending when the action had failed, and has removed only the lost leaves |
| `ActionCleanup.ActionConcludes` | PluginControlInterfaceGeneric/src/CAmControllerPlugin.cpp:2475-2520 | from the submission of an action to the pass that gives back the empty root, whatever comes between: if the action does not fail, nothing is undone; if it fails, all its leaves that had completed are undone, last to first, but for the lost ones |
| `ActionCleanup.PatientActionConcludes` | PluginControlInterfaceGeneric/src/CAmControllerPlugin.cpp:2475-2520 | an action in which only containers of leaves have a time limit is all or nothing under the driver |
| `ActionObjects.Notify` | PluginControlInterfaceGeneric/src/CAmEventSubject.cpp:61-71 | a result reaches the first observer only, however many there are, and climbs from there along the chain of containers |
| `ActionObjects.ActionCommand.SetParent` | PluginControlInterfaceGeneric/src/CAmActionCommand.cpp:75-86 | a leaf without a parent reports to the new one; as written, one that has a parent goes on reporting to that one, and the new parent does not hear of it |
| `ActionObjects.ActionCommand.Execute` | PluginControlInterfaceGeneric/src/CAmActionCommand.cpp:125-162 | the object does what the specified leaf does, time included (ActionTime.ExecTimely), and its containers make of the result what they should |
| `ActionObjects.ActionCommand.Undo` | PluginControlInterfaceGeneric/src/CAmActionCommand.cpp:179-208 | the same for undo() |
| `ActionObjects.ActionCommand.Update` | PluginControlInterfaceGeneric/src/CAmActionCommand.cpp:210-236 | the same for an acknowledgement or an expired timer |
| `ActionObjects.ActionContainer.Update` | PluginControlInterfaceGeneric/src/CAmActionContainer.cpp:318-356 | an update changes status, error and index of this container and of those above exactly as specified |
| `ActionObjects.ActionContainer.Append` | PluginControlInterfaceGeneric/src/CAmActionContainer.cpp:76-89 | append() puts the child last and becomes its observer |
| `ActionObjects.ActionContainer.Insert` | PluginControlInterfaceGeneric/src/CAmActionContainer.cpp:91-121 | insert() puts the child in front of the first child that has not started |
| `ActionObjects.ActionContainer.GetExecutionTime` | PluginControlInterfaceGeneric/src/CAmActionContainer.cpp:476-487 | the time used by a container and all its children |
| `ActionObjects.ActionContainer.Execute` | PluginControlInterfaceGeneric/src/CAmActionContainer.cpp:170-251 | execute() on the heap, with results climbing into loops that are still running, equals the specified outcome for this tree and for all containers above |
| `ActionObjects.ActionContainer.Undo` | PluginControlInterfaceGeneric/src/CAmActionContainer.cpp:253-316 | the same for undo() |
| `ActionObjects.ActionContainer.Acknowledge` | PluginControlInterfaceGeneric/src/CAmActionContainer.cpp:318-356 | the same for an acknowledgement that reaches the waiting leaf |
| `ActionObjects.ActionContainer.Cleanup` | PluginControlInterfaceGeneric/src/CAmActionContainer.cpp:358-397 | cleanup() deletes each finished child once and resets an empty root |
| `ActionObjects.ActionContainer.DrivePass` | PluginControlInterfaceGeneric/src/CAmControllerPlugin.cpp:2486-2495 | one pass of the driver on the heap equals the specified pass |
| `VolumeBalance.GreedyClosedForm` | PluginControlInterfaceGeneric/src/CAmActionSetVolumeCore.cpp:214-259 | what the greedy loop leaves of a difference is what one column with the summed room of the exclusive columns would leave: difference minus clamp(difference, sum(min-actual), sum(max-actual)), for volume and for offset |
| `VolumeBalance.ReachedExactlyWhenPossible` | PluginControlInterfaceGeneric/src/CAmActionSetVolumeCore.cpp:214-259 | the remaining difference is zero if and only if the exclusive columns have room for it |
| `VolumeBalance.GreedyIsBest` | PluginControlInterfaceGeneric/src/CAmActionSetVolumeCore.cpp:214-259 | no other choice of volumes for the exclusive columns within their ranges brings a connection closer to its target |
| `VolumeBalance.BalanceOrderFree` | PluginControlInterfaceGeneric/src/CAmActionSetVolumeCore.cpp:181-192 | the order (direction) of the columns and the early exit do not change what a connection ends up with |
| `VolumeBalance.EarlierColumnsFirst` | PluginControlInterfaceGeneric/src/CAmActionSetVolumeCore.cpp:181-259 | what the direction does: a later exclusive column of a connection moves only in the direction of the difference, and only if every earlier one is at its bound there |
| `VolumeBalance.MutedEndsMuted` | PluginControlInterfaceGeneric/src/CAmActionSetVolumeCore.cpp:238-251 | a connection that shall be muted ends muted if and only if it was or has an exclusive column |
| `VolumeBalance.UnmutedFreesColumns` | PluginControlInterfaceGeneric/src/CAmActionSetVolumeCore.cpp:238-251 | a connection that shall be audible keeps no exclusive column muted |
| `VolumeBalance.UnmutedEndsAudible` | PluginControlInterfaceGeneric/src/CAmActionSetVolumeCore.cpp:357-391 | it ends audible if and only if all its muted columns are exclusive |
| `VolumeBalance.Untouchable` | PluginControlInterfaceGeneric/src/CAmActionSetVolumeCore.cpp:93-121 | a column that is shared, or used by a connection that is not adjustable, keeps its target |
| `VolumeBalance.NonInterference` | PluginControlInterfaceGeneric/src/CAmActionSetVolumeCore.cpp:93-121 | the sums and the mute state of a connection that is not adjustable are unchanged |
| `ConnectionTable.HighestRestrictionWins` | PluginControlInterfaceGeneric/src/CAmActionSetVolumeCore.cpp:411-435 | the effective mute state, offset and relative limit are the strongest in the list, each a lower bound that is attained |
| `ConnectionTable.LimitsInAnyOrder` | PluginControlInterfaceGeneric/src/CAmActionSetVolumeCore.cpp:411-435 | they do not depend on the order of the list |
| `ConnectionTable.ResolveAllResolves` | PluginControlInterfaceGeneric/src/CAmActionSetVolumeCore.cpp:438-466 | each row is lowered exactly as far as its relative limit against the other rows, as they are when it has its turn, asks for |
| `ConnectionTable.ResolveLowers` | PluginControlInterfaceGeneric/src/CAmActionSetVolumeCore.cpp:438-466 | only offsets change, only downwards, and no relative limit is left |
| `ConnectionTable.RelativeLimitHolds` | PluginControlInterfaceGeneric/src/CAmActionSetVolumeCore.cpp:438-466 | with limits below zero, the total of i is in the end at most the total of j plus the limit if and only if j comes earlier or has no relative limit |
| `ConnectionTable.ResolveTwice` | PluginControlInterfaceGeneric/src/CAmActionSetVolumeCore.cpp:462-463 | a second resolution is the identity |
| `VolumeMatrix.MatrixIsComplete` | PluginControlInterfaceGeneric/src/CAmActionSetVolumeCore.cpp:271-332 | although it inserts into the map it iterates over, the set-up ends, with a resting column for every element of an addressed connection, columns that list only rows passing the element and all connections in use among them, addressed rows untouched and linked rows not adjustable |
| `VolumeOutcome.BystandersAreUnchanged` | PluginControlInterfaceGeneric/include/CAmActionSetVolumeCore.h:48-52 | a connection in use that is not addressed keeps every element, and so its audible volume, as it was |
| `VolumeOutcome.RequestsAreAims` | PluginControlInterfaceGeneric/src/CAmActionSetVolumeCore.cpp:438-466 | what the relative limits and a mute request do to the rows leaves the connections and their adjustable flags alone, so that the results below are about all three actions |
| `VolumeOutcome.AddressedReachesTarget` | PluginControlInterfaceGeneric/include/CAmActionSetVolumeCore.h:54-60 | the summed volume (or limit) of an addressed connection changes by the wanted difference, clamped to what its own elements have left |
| `VolumeOutcome.AddressedIsMuted` | PluginControlInterfaceGeneric/src/CAmActionSetVolumeCore.cpp:214-259 | an addressed connection that shall be muted is silent afterwards if and only if it was or has an element of its own |
| `VolumeOutcome.AddressedIsUnmuted` | PluginControlInterfaceGeneric/src/CAmActionSetVolumeCore.cpp:214-259 | one that shall be audible is audible afterwards if and only if every muted element on its way is its own |
| `VolumeOrder.SortedSorts` | PluginControlInterfaceGeneric/src/CAmActionSetVolumeCore.cpp:173-192 | the columns are visited in the order of their ordinals, each once |
| `VolumePromises.CompensationKeepsTotal` | PluginControlInterfaceGeneric/src/CAmActionSetVolume.cpp:244-257 | with the limit in force and unchanged, the audible total becomes the lower of the new volume and the old total; a change of the limit that comes along is counted twice |
| `VolumeOrder.OrdinalsAlong` | PluginControlInterfaceGeneric/src/CAmActionSetVolumeCore.cpp:271-297 | along an addressed connection the ordinals go up by one wherever no connection with an earlier turn passes, so that one direction takes the element nearer the main sink first and the other the one nearer the main source |
| `VolumeOrder.SharedElementTurnsBack` | PluginControlInterfaceGeneric/src/CAmActionSetVolumeCore.cpp:284-297 | an element shared with an earlier connection sets the ordinals back, and an element nearer the main source is then balanced first by an action that should start at the main sink |
| `VolumePromises.FetchedRow` | PluginControlInterfaceGeneric/src/CAmActionSetVolumeCore.cpp:393-436 | the row of a connection has the sums over its elements, aims at its volume, at its lowest limit and at silence if a limit mutes, and has its lowest relative limit |
| `VolumePromises.ActionDelivers` | PluginControlInterfaceGeneric/src/CAmActionSetVolumeCore.cpp:161-269 | whatever the rows aim at, once the requests have been carried out: each addressed connection is as close to its aim as its own elements allow and silent as aimed, others in use are as they were, of two elements of its own the one that comes later in the direction has moved only if the other is at its bound, and no request is idle or doubled |
| `VolumePromises.SetVolumeDelivers` | PluginControlInterfaceGeneric/src/CAmActionSetVolume.cpp:78-98 | a connection comes as close as it can to the volume that was asked for if it is the only one or that volume is below its limit, and keeps its volume otherwise; its offset goes to its limit or, for a main volume, to what leaves the lower one of the new volume and the old total |
| `VolumePromises.LimitDelivers` | PluginControlInterfaceGeneric/src/CAmActionLimit.cpp:41-66 | volumes stay and offsets go to the lowest limits, as close as can be |
| `VolumePromises.MuteDelivers` | PluginControlInterfaceGeneric/src/CAmActionMute.cpp:91-119 | volumes stay, limits are in force, and a connection is silent as requested as far as its own elements allow |
| `VolumePromises.RequestsAre` | PluginControlInterfaceGeneric/src/CAmActionSetVolumeCore.cpp:468-485 | a sub-action is created for exactly the columns whose target differs from what they have |
| `VolumeCore.SetVolumeCore.GetConnectionVolumes` | PluginControlInterfaceGeneric/src/CAmActionSetVolumeCore.cpp:393-436 | a row has the summed volumes of its connection and its resolved limits |
| `VolumeCore.SetVolumeCore.SetupConnectionMap` | PluginControlInterfaceGeneric/src/CAmActionSetVolumeCore.cpp:80-90 | every selected connection gets an adjustable row; other rows are kept |
| `VolumeCore.SetVolumeCore.SetupVolumeMatrix` | PluginControlInterfaceGeneric/src/CAmActionSetVolumeCore.cpp:271-332 | the nested loops over the growing map compute the specified tables |
| `VolumeCore.SetVolumeCore.ResolveRelativeLimits` | PluginControlInterfaceGeneric/src/CAmActionSetVolumeCore.cpp:438-466 | the nested loops compute the specified resolution |
| `VolumeCore.SetVolumeCore.GetVolumeDiff` | PluginControlInterfaceGeneric/src/CAmActionSetVolumeCore.cpp:357-391 | the loop over the matrix computes the difference of a connection |
| `VolumeCore.SetVolumeCore.QualifiesForChanges` | PluginControlInterfaceGeneric/src/CAmActionSetVolumeCore.cpp:93-121 | true exactly for columns that one adjustable connection uses alone |
| `VolumeCore.SetVolumeCore.CalculateElementVolumes` | PluginControlInterfaceGeneric/src/CAmActionSetVolumeCore.cpp:161-269 | the loop with its table of differences and its early exit computes the specified balance |
| `VolumeCore.SetVolumeCore.CompensateMainVolumeChange` | PluginControlInterfaceGeneric/src/CAmActionSetVolume.cpp:244-257 | the row is compensated as specified |
| `VolumeCore.SetVolumeCore.CreateActions` | PluginControlInterfaceGeneric/src/CAmActionSetVolumeCore.cpp:468-485 | the list of sub-actions is the specified one |
| `VolumeCore.SetVolumeCore.ExecuteSetVolume` | PluginControlInterfaceGeneric/src/CAmActionSetVolume.cpp:78-98 | once its requests have been carried out, a balanced request for volumes has done what SetVolumeDelivers says for the requested volumes, in the direction from the main sink |
| `VolumeCore.SetVolumeCore.ExecuteMute` | PluginControlInterfaceGeneric/src/CAmActionMute.cpp:91-119 | a balanced mute request has done what MuteDelivers says for the requested state |
| `VolumeCore.SetVolumeCore.ExecuteLimit` | PluginControlInterfaceGeneric/src/CAmActionLimit.cpp:41-66 | a limit request has done what LimitDelivers says, in the direction from the main source |
| `ElementVolume.PackRoundTrip` | PluginControlInterfaceGeneric/src/CAmHandleStore.cpp:45-68 | a 16-bit key reads back as its handle if and only if the type is below 64 and the number below 1024 |
| `ElementVolume.PackInjective` | PluginControlInterfaceGeneric/src/CAmHandleStore.cpp:64-68 | such handles have different keys |
| `ElementVolume.SentIsInRange` | PluginControlInterfaceGeneric/src/CAmActionSetVolumeCore.cpp:606-616 | a muted element is sent the mute volume; any other volume plus offset, or the bound of its range that it is beyond |
| `ElementVolume.HandleStore.NotifyAsyncResult` | PluginControlInterfaceGeneric/src/CAmHandleStore.cpp:91-112 | an acknowledgement wakes exactly the action its handle leads to, once; an unknown, late or repeated one changes no action and no element; waiting and being in the store stay the same thing |
| `ElementVolume.SetElementVolume.Execute` | PluginControlInterfaceGeneric/src/CAmActionSetVolumeCore.cpp:520-541 | the object does what the leaf of the action tree does that returns what the element and the routing side answer; the state before is memorized, success at once means that the request is in force already, and the action waits only after an accepted request, under a handle of its own |
| `ElementVolume.SetElementVolume.Undo` | PluginControlInterfaceGeneric/src/CAmActionSetVolumeCore.cpp:581-587 | the same for undo(): the undo waits if and only if the request for the memorized state is accepted, and a refused one leaves all elements as they are |
| `ElementVolume.SetElementVolume.Update` | PluginControlInterfaceGeneric/src/CAmActionSetVolumeCore.cpp:543-579 | an acknowledgement does to all elements exactly what the transaction assumes of a leaf: success commits, the end of an undo restores, failure changes nothing; the handle is gone |
| `ElementVolume.SetElementVolume.Timeout` | PluginControlInterfaceGeneric/src/CAmActionCommand.cpp:164-177 | after a timeout no acknowledgement for the handle finds the action |
| `VolumeTransaction.CompletedMeansAll` | PluginControlInterfaceGeneric/src/CAmActionSetVolumeCore.cpp:552-560 | when the container has completed, every element has the state that the last leaf for it requested, whatever the run, if leaves succeed at once only where their target is in force when they run |
| `VolumeTransaction.UndoneMeansNothing` | PluginControlInterfaceGeneric/src/CAmActionSetVolumeCore.cpp:561-569 | when the rollback is complete and the leaves of the tree get their undo requests accepted, all elements are as they were, whichever leaf failed or timed out |
| `VolumeTransaction.RestoreUndoesCommit` | PluginControlInterfaceGeneric/src/CAmActionSetVolumeCore.cpp:527-587 | undoing last to first restores every element, even if leaves share elements |
| `VolumeTransaction.RolledBackTo` | PluginControlInterfaceGeneric/src/CAmActionSetVolumeCore.cpp:561-569 | in every run whose rollback is complete, an element ends with the state that it had before the first completed leaf for it whose undo was accepted, shared or not, whatever was refused |
| `VolumeTransaction.RefusedUndo` | PluginControlInterfaceGeneric/src/CAmActionCommand.cpp:187-200 | in every run whose rollback is complete, an element that one completed leaf alone was for is back in its old state if and only if that leaf had its undo accepted, or nothing to do, or the old state as its target |
| `LimitMap.UndoRestoresOne` | PluginControlInterfaceGeneric/src/CAmElement.cpp:355-402 | setting or releasing a limit and undoing it with the same pattern restores the map if and only if a limit was changed in place or no smaller pattern was stored |
| `LimitMap.UndoRestores` | PluginControlInterfaceGeneric/src/CAmActionMute.cpp:77-89 | a mute or unmute over any list of elements, repeated or not, undone from the front of its list, restores an element if and only if the condition held for it before or it was not addressed |
| `LimitMap.LimitUndoRestores` | PluginControlInterfaceGeneric/src/CAmActionLimit.cpp:68-84 | the undo of a limit under another than the default pattern restores the map only if it was empty, or if the new limit was in force under both patterns already |
| `LimitMap.MuteStores` | PluginControlInterfaceGeneric/src/CAmActionMute.cpp:141-163 | after a mute action over any list, repeated or not, each element listed has the absolute mute limit under the pattern and its other limits as they were, or after unmuting just the limits whose patterns have a bit outside of it; the others keep theirs |
| `LimitMap.MuteTakesEffect` | PluginControlInterfaceGeneric/src/CAmElement.cpp:413-424 | so it has a stored limit that mutes if it was to be muted, and after unmuting if and only if one was stored under a pattern with a bit outside |
| `LimitMap.WithinAddsNothing` | PluginControlInterfaceGeneric/src/CAmElement.cpp:355-388 | a pattern is taken to be part of another exactly when it adds no bit to it |
| `LimitMap.LimitableElement.SetLimitState` | PluginControlInterfaceGeneric/src/CAmElement.cpp:355-388 | the erasing loop, in any order, removes exactly the patterns that have only bits of the given one |
| `LimitMap.LimitableElement.GetLimit` | PluginControlInterfaceGeneric/src/CAmElement.cpp:390-402 | the limit stored for a pattern, or none |
| `LimitMap.LimitableElement.GetLimits` | PluginControlInterfaceGeneric/src/CAmElement.cpp:404-411 | all stored limits and no other |
| `LimitMap.LimitableElement.GetMuteState` | PluginControlInterfaceGeneric/src/CAmElement.cpp:413-424 | muted if and only if an absolute mute limit is stored |
| `LimitMap.MuteAction.UpdateLimitState` | PluginControlInterfaceGeneric/src/CAmActionMute.cpp:141-163 | the element has the mute limit stored, or loses the limits within the pattern; the former state is put in front of the undo list; a missing element is skipped |
| `LimitMap.MuteAction.UpdateAll` | PluginControlInterfaceGeneric/src/CAmActionMute.cpp:104-109 | every element listed is muted or unmuted as MuteStores says, the others keep their limits, and the undo list is that of UndoRestores |
| `LimitMap.MuteAction.Undo` | PluginControlInterfaceGeneric/src/CAmActionMute.cpp:77-89 | the undo list is replayed from its front with the same pattern and emptied |
| `LimitMap.LimitAction.ApplyLimit` | PluginControlInterfaceGeneric/src/CAmActionLimit.cpp:86-150 | the first that is found of the class, the class of the connection, the source and the sink stores the given volume as an absolute limit, or else the given step as a relative one, or loses the limits within the pattern; its former state goes in front of the undo list; all others keep their limits |
| `LimitMap.LimitAction.Undo` | PluginControlInterfaceGeneric/src/CAmActionLimit.cpp:68-84 | the undo list is replayed with the default pattern |
| `Topology.ScanIsWalk` | PluginControlInterfaceGeneric/src/CAmClassElement.cpp:345-438 | at every nesting, with known and missing gateways, the scan of the tokens with its stack is a walk over the tree that takes off all open gateways at every closing bracket |
| `Topology.ScanOfItems` | PluginControlInterfaceGeneric/src/CAmClassElement.cpp:345-438 | for any nesting of groups the scan never passes the end, and a scan without result leaves the route as it was |
| `Topology.FoundIsChain` | PluginControlInterfaceGeneric/src/CAmClassElement.cpp:345-438 | whatever the tokens, a route that is found leads from the main sink through existing gateways to the main source |
| `TopologySearch.KnownIff` | PluginControlInterfaceGeneric/src/CAmClassElement.cpp:345-438 | if no gateway is missing, the scan is the tree search for the first wanted source if and only if no group is closed before that source within the top-level group that holds it |
| `TopologySearch.DirectIsSearch` | PluginControlInterfaceGeneric/src/CAmClassElement.cpp:345-438 | whatever is missing: if no group is closed, or lacks its gateway, before the first wanted source within its top-level group, the scan is the tree search of the whole topology |
| `TopologySearch.OneOfferIff` | PluginControlInterfaceGeneric/src/CAmClassElement.cpp:345-438 | this is exact where a single wanted source is not behind a missing gateway |
| `TopologySearch.ScanIsSearchIff` | PluginControlInterfaceGeneric/src/CAmClassElement.cpp:345-438 | for any topology the scan is the search of what missing gateways leave visible if and only if the condition holds there, and it finds anything if and only if a wanted source is visible |
| `TopologySearch.ScanOfVisible` | PluginControlInterfaceGeneric/src/CAmClassElement.cpp:383-415 | a missing gateway hides its group and the rest of the groups that count as open: the scan is that of what is left |
| `TopologySearch.VisibleOffers` | PluginControlInterfaceGeneric/src/CAmClassElement.cpp:383-415 | the scan finds nothing where the search finds nothing |
| `TopologySearch.FlatSearch` | PluginControlInterfaceGeneric/src/CAmClassElement.cpp:345-382 | in a topology without groups a route is found if and only if the source is listed by its name or by an asterisk that stands for it |
| `TopologySearch.ScanIsSearch` | PluginControlInterfaceGeneric/src/CAmClassElement.cpp:345-438 | for linearly nested groups, whatever is asked for and whatever is missing, the scan is the tree search for the first wanted source that is not behind a missing gateway, with the gateways it is behind |
| `TopologyRoutes.ScanOfLinear` | PluginControlInterfaceGeneric/src/CAmClassElement.cpp:302-442 | the same for a whole topology with its sinks |
| `TopologyRoutes.ScanOfWrittenIff` | PluginControlInterfaceGeneric/src/CAmClassElement.cpp:302-442 | these conditions, for a whole topology with its sinks |
| `TopologyRoutes.ScanOfWellFormed` | PluginControlInterfaceGeneric/src/CAmClassElement.cpp:302-442 | a well-formed topology is scanned to a chain or to nothing |
| `TopologySearch.NestedGroupsMislead` | PluginControlInterfaceGeneric/src/CAmClassElement.cpp:426-437 | behind an inner group without a wanted source the scan forgets the outer gateway: a family of inputs where it is not the tree search |
| `TopologySearch.MissingGatewayHides` | PluginControlInterfaceGeneric/src/CAmClassElement.cpp:383-415 | behind an inner group whose gateway is missing it finds nothing, though there is a route |
| `TopologyRoutes.CheckElementPresentInTopology` | PluginControlInterfaceGeneric/src/CAmClassElement.cpp:273-300 | whether a sink of that name, or an asterisk that stands for it, is listed |
| `TopologyRoutes.RemoveGateways` | PluginControlInterfaceGeneric/src/CAmClassElement.cpp:430-434 | the pops take off all open gateways and bring back the sink the first one started from |
| `TopologyRoutes.SkipBrackets` | PluginControlInterfaceGeneric/src/CAmClassElement.cpp:386-411 | the nested loops stop at the bracket that closes the missing group and the groups counted as open, without passing the end |
| `TopologyRoutes.GetRouteFromTopology` | PluginControlInterfaceGeneric/src/CAmClassElement.cpp:302-442 | errors and route are those of the checks and of the scan |
| `TopologyRoutes.GetPreferredRoute` | PluginControlInterfaceGeneric/src/CAmClassElement.cpp:444-464 | success if and only if some topology serves the request, and then the route is that of the first such topology; otherwise it is empty |
| `TopologyRoutes.PreferredIsChain` | PluginControlInterfaceGeneric/src/CAmClassElement.cpp:444-464 | the route of the first topology that serves is a chain of gateways |
| `TopologyRoutes.ValidateRouteFromTopology` | PluginControlInterfaceGeneric/src/CAmClassElement.cpp:232-271 | success if and only if some daemon route is the mirror image in sinks and sources, and then the first such route |
| `TopologyRoutes.SelectRoute` | PluginControlInterfaceGeneric/src/CAmClassElement.cpp:135-169 | the route of a new connection: if some topology serves, the first offer that mirrors the route of the first such topology; if none does, the first offer where that is allowed, an offer without hops otherwise; an empty list without error is taken for success |
| `ClassExclusivity.RunsAreExclusive` | PluginControlInterfaceGeneric/src/CAmActionConnect.cpp:169-316 | over any sequence of create, connect, execute, complete, fail, undo, dispose and suspend steps that observe the stated conditions, at most one connection of a class and main sink is connecting, connected or suspended |
| `ClassRuns.UnabortedRunsAreExclusive` | PluginControlInterfaceGeneric/src/CAmActionConnect.cpp:169-316 | over whole runs of the controller from its start, with actions one after another and connections created under names of their own, at most one connection of a class and main sink is active, if class and sink names of requests are apt and no action is given up; nothing is asked of the states that an action finds |
| `ClassRuns.DrivenRunsAreExclusive` | PluginControlInterfaceGeneric/src/CAmActionConnect.cpp:169-316 | the same with actions given up, if a suspend action meets no connection that one of them has left connecting |
| `ClassRuns.UnabortedRunsExplain` | PluginControlInterfaceGeneric/src/CAmMainConnectionActionConnect.cpp:41-61 | a connection is connecting only while an action for it is not over, unless one was given up |
| `ClassExclusivity.RunsAreExclusiveIff` | PluginControlInterfaceGeneric/src/CAmActionConnect.cpp:169-316 | no two rivals ever hold their class and sink in a run if and only if none of its actions selects a connection whose rival does |
| `ClassExclusivity.UnfairRunEnds` | PluginControlInterfaceGeneric/src/CAmActionConnect.cpp:169-316 | a run in which one does leads, by nothing but the progress of actions at work, to two rivals that are active |
| `ClassExclusivity.ConnectKeepsIff` | PluginControlInterfaceGeneric/src/CAmActionConnect.cpp:169-233 | selecting and starting to connect keeps exclusivity if and only if no rival of the selected connection is active or may become so |
| `ClassExclusivity.ConnectKeeps` | PluginControlInterfaceGeneric/src/CAmActionConnect.cpp:169-233 | it does so wherever the conditions hold that can be looked at before |
| `ClassExclusivity.RivalEscapes` | PluginControlInterfaceGeneric/src/CAmActionConnect.cpp:176-219 | the ways in which such a rival escapes: it is not listed, its class is filtered out, no hop of it ends at the sink of the filter, or it does not yet show in its state |
| `ClassExclusivity.OneActionIsOrderly` | PluginControlInterfaceGeneric/src/CAmActionConnect.cpp:169-233 | for an action over several classes the conditions can be looked at before it begins, for all classes at once, also where it chooses connections that are still disconnecting |
| `ClassExclusivity.RivalIsSeen` | PluginControlInterfaceGeneric/src/CAmActionConnect.cpp:176-219 | the filter lets no rival of a candidate escape, if the class name is empty or that of the created connection |
| `ClassExclusivity.SelectedHasNoRival` | PluginControlInterfaceGeneric/src/CAmActionConnect.cpp:235-316 | the selected connection has no rival that is active or may become so |
| `ClassExclusivity.SuspendKeepsIff` | PluginControlInterfaceGeneric/src/CAmActionSuspend.cpp:96-189 | selecting for suspension keeps exclusivity if and only if no rival of the selected connection is active or may become so |
| `ClassExclusivity.SuspendKeeps` | PluginControlInterfaceGeneric/src/CAmActionSuspend.cpp:96-189 | it does so while no connection of the class is connecting and all transitions of the class show |
| `ClassExclusivity.RivalEscapesSuspend` | PluginControlInterfaceGeneric/src/CAmActionSuspend.cpp:143-177 | a rival that escapes it is connecting, not listed, or does not yet show in its state |
| `ClassExclusivity.ProgressShrinks` | PluginControlInterfaceGeneric/src/CAmMainConnectionActionConnect.cpp:67-157 | executing, completing, failing and undoing a connect action make nobody active who was not entitled to be |
| `ClassEscapes.SuspendAfterAbort` | PluginControlInterfaceGeneric/src/CAmActionSuspend.cpp:143-177 | a run of the controller with apt requests in which an action over two classes fails, its second connection stays connecting, and a suspend action selects another one |
| `ClassEscapes.ConnectUnderOtherName` | PluginControlInterfaceGeneric/src/CAmActionConnect.cpp:178-212 | a run of the controller in which the class name of a request is not that of the connection it creates |
| `ClassEscapes.ConnectAtPassedSink` | PluginControlInterfaceGeneric/src/CAmActionConnect.cpp:178-212 | one in which the sink of a request is one that a listed connection only passes |
| `ClassExclusivity.SelectIff` | PluginControlInterfaceGeneric/src/CAmActionConnect.cpp:235-316 | a connection of the class is selected if and only if none is connected or connecting, it is the first that starts at the source, and no other one is the last suspended |
| `ClassExclusivity.DropIff` | PluginControlInterfaceGeneric/src/CAmActionConnect.cpp:235-316 | a connection gives way if and only if it is the last new one and one of the class is connected, connecting or suspended |
| `ClassExclusivity.SuspendIff` | PluginControlInterfaceGeneric/src/CAmActionSuspend.cpp:131-189 | a connection is selected for suspension if and only if none is suspended, it is the first that is connected, disconnected or new from the source to the sink, and no other one is the last connected |
| `ClassExclusivity.ConnectEffect` | PluginControlInterfaceGeneric/src/CAmActionConnect.cpp:169-233 | what a connect action makes of the class: the selected connection connects unless it is disconnecting, the one that gives way disconnects, all others keep their states |
| `ClassExclusivity.SuspendedIsResumed` | PluginControlInterfaceGeneric/src/CAmActionConnect.cpp:287-303 | a suspended connection that is requested, first of its source, the last suspended one, with none connected or connecting, is connecting afterwards |
| `ClassExclusivity.SuspendEffect` | PluginControlInterfaceGeneric/src/CAmActionSuspend.cpp:96-129 | a suspend action sets a selected connection that is new or disconnected connecting and leaves all others alone |
| `ClassExclusivity.StepsOfChosen` | PluginControlInterfaceGeneric/src/CAmMainConnectionActionConnect.cpp:67-157 | executing without a route changes no connection and fails unless it is connected already; with one it connects; a failure changes no connection, an undo disconnects, and no other connection is touched |
| `ClassExclusivity.ChosenEnds` | PluginControlInterfaceGeneric/src/CAmMainConnectionActionConnect.cpp:67-157 | a selected connection ends connected or suspended as its source is on or off, or disconnected if the action fails or is undone |
| `ConnectActions.SelectConnection` | PluginControlInterfaceGeneric/src/CAmActionConnect.cpp:235-316 | the loops select the connection of SelectIff and drop the one of DropIff |
| `ConnectActions.SelectToSuspend` | PluginControlInterfaceGeneric/src/CAmActionSuspend.cpp:131-189 | the loop selects the connection of SuspendIff |
| `ConnectActions.MainConnectionActionConnect.Execute` | PluginControlInterfaceGeneric/src/CAmMainConnectionActionConnect.cpp:67-115 | the connection is as the step of the run leaves it, the result says whether the transition runs or has failed, and exclusivity is kept |
| `ConnectActions.MainConnectionActionConnect.Undo` | PluginControlInterfaceGeneric/src/CAmMainConnectionActionConnect.cpp:117-124 | the same for the step that begins the undo |
| `ConnectActions.MainConnectionActionConnect.Update` | PluginControlInterfaceGeneric/src/CAmMainConnectionActionConnect.cpp:126-157 | the same for the step that the result and the status stand for: completion, failure or the end of the undo |
| `ElementGraph.Element.Attach` | PluginControlInterfaceGeneric/src/CAmElement.cpp:138-178 | both lists know each other afterwards, no observer is listed twice, and whoever observes has its subject listed |
| `ElementGraph.Element.Detach` | PluginControlInterfaceGeneric/src/CAmElement.cpp:180-206 | the same, and the observer is gone |
| `ElementGraph.Element.DetachAll` | PluginControlInterfaceGeneric/src/CAmElement.cpp:208-218 | nobody lists the element as an observer afterwards, others are untouched |
| `ElementGraph.Element.RemoveObservers` | PluginControlInterfaceGeneric/src/CAmElement.cpp:254-268 | no observers are left, and the graph stays consistent |
| `ElementGraph.GetListElements` | PluginControlInterfaceGeneric/include/CAmElement.h:132-155 | on an acyclic graph the search ends and adds exactly the matching elements that can be reached through subjects, each once |
| `ElementGraph.PathLeadsBelow` | PluginControlInterfaceGeneric/include/CAmElement.h:132-155 | whatever a chain of subjects leads to is among the elements that the search visits |
| `ElementGraph.BelowHasPath` | PluginControlInterfaceGeneric/include/CAmElement.h:132-155 | and it visits nothing else |
| `Rundown.TransferEnds` | PluginControlInterfaceGeneric/src/CAmActionRundown.cpp:58-105 | whatever the domains answer, each is offered the connection at most once and in order, one answer for each is enough, the transfer ends with success, and it stops short of the end exactly when a domain has accepted |
| `Rundown.SelectDomains` | PluginControlInterfaceGeneric/src/CAmActionRundown.cpp:127-140 | the erasing loop keeps exactly the domains in independent rundown that are not early |
| `Rundown.ActionTransfer.Execute` | PluginControlInterfaceGeneric/src/CAmActionRundown.cpp:58-81 | the loop offers from the domain iterator on until a request goes out, and never passes the end |
| `Rundown.ActionTransfer.Update` | PluginControlInterfaceGeneric/src/CAmActionRundown.cpp:90-105 | a refusal makes the action start over with the next domain |
| `Rundown.FinalizesOnce` | PluginControlInterfaceGeneric/src/CAmActionRundown.cpp:179-184 | a container runs its final update exactly once, when it comes to rest, however often it is executed again or acknowledged late |

## Left out

- VolumeBalance.GreedyClosedForm: volumes are unbounded integers; the 16-bit type of volumes and its wrap-around are not modelled.
- VolumeBalance.MutedEndsMuted: like the closed form it starts from columns that aim at what they have and are in range, as the set-up leaves them for elements within their range.
- ActionRuns.RollbackIsReverse: counters and times are unbounded; 32-bit wrap-around of indices and of summed execution times is not modelled, only that a time limit fits its type.
- VolumeTransaction.UndoneMeansNothing: is about containers whose children are leaves, which is what the volume actions create, over elements that support volume.
- Rundown.FinalizesOnce: a transfer counts as one leaf of its container; that it waits several times is the subject of TransferEnds, without time limits and with a fresh handle for each offer.
- ClassExclusivity.RunsAreExclusive: top-level disconnect actions are not among the steps; the disconnect transition that a connect action adds for a new connection is, and is taken not to end in an active state.
- ElementGraph.GetListElements: filters are arbitrary conditions on elements; the overloads for type, name, priority and identifiers are not spelled out. getElement() is taken to return the element itself; the base class returns nothing.
- TopologyRoutes.GetRouteFromTopology: is called with an empty route and with topologies of the form the configuration reader produces; the reader itself is not modelled.
- VolumeCore.SetVolumeCore.SetupConnectionMap: the selection of connections from the parameters is an input, and so are names, priorities and user-scale conversion.
- Requests to a single source or sink that bypass the tables (the low-level branches of set volume, mute and limit) change one column and are left out.
- The action parameters, the policy engine, the trigger queue, persistence, sound properties, notifications, crossfading and the sender base are left out: lookups and linear flows.
- D-Bus, Common-API and serializer plug-ins are not part of this model.
- Real clocks, timers and threads: time is what the environment says it is, and an expired timer is an acknowledgement with E_ABORTED.
- Logging and deletion of objects: a deleted child is one that is no longer in any list.
