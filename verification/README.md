# Block-STM, deltas and change sets: a Dafny model

This project models the parallel block executor of Aptos and the code around it, and proves that
it does what executing the transactions one by one does.

**The machine.** `Machine.dfy` is the collaborative scheduler and the executor as a transition
system. Any number of threads, each with a program counter, interleave arbitrarily; one step is one
atomic operation, one critical section or one call into the multi-version map. Transactions are
deterministic strategies from the values read so far to the next action, so that an output depends
on nothing but the values read. Assertions, expectations and unreachable arms of the code lead to a
`Panicked` thread. `Invariant.dfy` states what holds in all reachable states, in groups: guards,
ownership of transactions, versions, suspended transactions, condition variables, map entries, read
sets and outputs, execution and validation coverage, completion. `Threads`, `Roles`, `Suspension`,
`Condvars`, `Columns`, `Logs`, `NoPanic`, `Coverage` and `Completion` keep one group each;
`Reachable` puts them together for runs.

**Results about runs.** `Theorems` and `Versions` (no panic, coverage, wake-ups, versions, the done
marker), `Progress` (no deadlock), `Stable`, `Drive` and `Eventually` (every run can be finished),
`Witness` (a run with an abort, a suspension and a wake-up), `Serializable` (serializability), `Determinism` (all finished
runs of a block agree), `EndToEnd` (from the first step to the returned outputs).

**Around it.** `MVHashMap` and `Replay` (reading down the versions against replaying them upwards),
`Delta` and `Aggregator` (bounded partial functions with a recorded history), `ChangeSet`
(squashing), `Sequential` and `SequentialLoop` (the reference semantics and the loop that computes
it), `Resolver` and `Finish` (collecting outputs and turning deltas into writes), `ModuleRace` (the
flag that makes the executor fall back), `TopoSort` (module order of a package), `TxnArgs`
(signatures and arguments of entry functions).

`dafny verify dfyconfig.toml` checks everything.

## How the model relates to the code

- All atomics are sequentially consistent. A thread waiting on a condition variable is blocked until
  its flag is set.
- `owner`, `place` and `written` in the shared state and `seen` in read descriptors are history
  variables: no step's choice depends on them.
- Marking an entry takes only a shared lock on its key, so a read that overlaps with marking may
  report any estimate below the reader; all other reads take effect when their lock is taken.
- The updates of a transaction are applied in any order of keys. An output has one update per key:
  write keys and delta keys are disjoint by construction of change sets. Discarded outputs carry no
  updates.
- Values are 128-bit integers, where the code has bytes that encode them; a key that is used as an
  aggregator always holds such a value. Indices and counters are unbounded.
- The code and its comments disagree in one place: the comment at
  `move-tut005/deps/aptos-move/parallel-executor/src/scheduler.rs:353-355` says that incarnating
  succeeds at most once per version, but resuming a suspended transaction keeps its incarnation.
  What holds is stated by `Versions.BeginsOnce`, `Versions.RewakesOnce` and
  `Versions.RewakeIsSecondIncarnation`; `Witness.RewakeHappens` has a run in which it happens.
- Two properties one might expect do not hold. Deltas of transactions behind a reconfiguration can
  make the resolver panic although the sequential loop is fine; `EndToEnd` has the block and a run,
  and `EndToEnd.ParallelIsSequential` and `Determinism.DonePanicsExactly` have the exact condition on
  the block. A squash can hide a delta that fails; `ChangeSet.SquashHides` says exactly
  when.

## Model

| member | source | states |
|---|---|---|
| `EndToEnd.ParallelIsSequential` | move-tut005/deps/aptos-move/parallel-executor/src/executor.rs:359-435 | for every block whose deltas apply sequentially with one limit per key, every run of any number of threads that is done finishes with the result of the sequential loop (outputs, retries after a reconfiguration, first error); resolving panics exactly when going through the block in order, past the end of the sequential execution, meets a failing delta on a key of a kept delta |
| `EndToEnd.ExecuteBlockTail` | move-tut005/deps/aptos-move/aptos-vm/src/parallel_executor/mod.rs:97-145 | the code after the threads have joined, the sequential fallback after a possible module race included, panics exactly without that race and under that condition, and otherwise returns the sequential result |
| `EndToEnd.SequentialPanicIsParallel` | move-tut005/deps/aptos-move/aptos-vm/src/adapter_common.rs:161-180 | if the sequential loop panics at a delta, every finished run panics in resolving or returns the first error behind that delta |
| `Determinism.DoneIsInOrder` | move-tut005/deps/aptos-move/parallel-executor/src/executor.rs:394-417 | at done every outcome is recorded, the map holds exactly their updates, none of them an estimate, and they are the outcomes of going through the block in order, each transaction reading what those below have left |
| `Determinism.InOrderIsUnique` | move-tut005/deps/aptos-move/parallel-executor/src/executor.rs:176-252 | there is one way of going through a block in order |
| `Determinism.FinishedRunsAgree` | move-tut005/deps/aptos-move/parallel-executor/src/executor.rs:359-435 | any two finished runs of a block, of any numbers of threads, record the same outcomes, return the same result and panic alike, with no assumption on deltas or limits |
| `Determinism.DonePanicsExactly` | move-tut005/deps/aptos-move/parallel-executor/src/output_delta_resolver.rs:26-74 | for every block, a finished run panics exactly when no kept transaction aborts and going through the block in order meets a failing delta on the key of a kept delta |
| `EndToEnd.TailAppliesNoPanic` | move-tut005/deps/aptos-move/parallel-executor/src/output_delta_resolver.rs:44-69 | resolving does not panic if going on past the reconfiguration would meet no failing delta |
| `EndToEnd.TailFailurePanics` | move-tut005/deps/aptos-move/parallel-executor/src/output_delta_resolver.rs:44-69 | resolving panics if the first failing delta past the reconfiguration is on a key of a kept delta |
| `EndToEnd.OverdrawnTailPanics` | move-tut005/deps/aptos-move/aptos-vm/src/parallel_executor/mod.rs:103-117 | a two-transaction block that has a sequential execution, so that the sequential loop does not panic, and on which every finished parallel run panics |
| `EndToEnd.OverdrawnTailRun` | move-tut005/deps/aptos-move/aptos-vm/src/parallel_executor/mod.rs:103-117 | such a run exists |
| `EndToEnd.ResolvedIsRead` | move-tut005/deps/aptos-move/parallel-executor/src/output_delta_resolver.rs:44-69 | the value emitted for a delta is what the next transaction reads at that key |
| `Serializable.Serializability` | move-tut005/deps/aptos-move/parallel-executor/src/executor.rs:176-306 | at done the recorded outcomes are those of executing the transactions one after the other, and what the map says below any transaction is the state it runs on |
| `Serializable.CompleteIsValid` | move-tut005/deps/aptos-move/parallel-executor/src/executor.rs:275-291 | when no task is left, every recorded read re-reads to the same descriptor |
| `Eventually.EveryRunCanFinish` | move-tut005/deps/aptos-move/parallel-executor/src/executor.rs:308-357 | from every reachable state of a block whose transactions end, whatever any number of threads have done so far, some continuation reaches the done marker |
| `Eventually.EveryBlockCanFinish` | move-tut005/deps/aptos-move/parallel-executor/src/executor.rs:359-392 | for every such block and any positive number of threads there is a run that reaches the done marker |
| `Stable.StaysStable` | move-tut005/deps/aptos-move/parallel-executor/src/scheduler.rs:163-179 | transactions that are executed with valid reads, with nobody about to abort them, and with only such transactions below them stay so under every step of every thread |
| `Stable.DebtShrinks` | move-tut005/deps/aptos-move/parallel-executor/src/scheduler.rs:107-138 | above those, no step of any thread takes the next transaction further away from being stable, and every change of its status takes it closer |
| `Drive.DriveOn` | move-tut005/deps/aptos-move/parallel-executor/src/executor.rs:308-357 | a thread on its own, with the lock holders it waits for, comes to the end of its task or falls asleep on a condition variable, and in the latter case wakes nobody |
| `Eventually.AtRestWaits` | move-tut005/deps/aptos-move/parallel-executor/src/scheduler.rs:182-208 | with all threads between two tasks or asleep, the lowest transaction that is not stable is ready at or above the execution index, or executed with a stale read at or above the validation index |
| `Progress.NoDeadlock` | move-tut005/deps/aptos-move/parallel-executor/src/executor.rs:104-130 | in every reachable state a thread that has not left can move or waits for one that can: behind a lock its holder, and behind a condition variable a thread with a live guard that works on the waiting transaction or a lower one, is about to have one executed or holds the lock of its list, unless such a transaction is ready and an uncommitted thread is free to fetch it |
| `Progress.CanStep` | move-tut005/deps/aptos-move/parallel-executor/src/executor.rs:308-357 | a thread that has not left and waits neither for a lock nor for a condition variable can take a step |
| `Progress.WaitIsAttended` | move-tut005/deps/aptos-move/parallel-executor/src/scheduler.rs:210-280 | following waits downwards from any transaction in progress ends at an unblocked thread with a live guard that works for it or a lower one, or at a ready transaction that the execution index has yet to reach |
| `Progress.SomeoneIsFree` | move-tut005/deps/aptos-move/parallel-executor/src/scheduler.rs:423-446 | some thread is never committed to a transaction at or above the execution index |
| `Reachable.RunInv` | move-tut005/deps/aptos-move/parallel-executor/src/scheduler.rs:107-138 | the invariant of all components holds in every state of every run |
| `Reachable.StepKeepsInv` | move-tut005/deps/aptos-move/parallel-executor/src/executor.rs:308-357 | every step of every thread keeps that invariant |
| `Theorems.RunNeverPanics` | move-tut005/deps/aptos-move/parallel-executor/src/scheduler.rs:450-491 | no assertion, expectation or unreachable arm of scheduler, map or executor is ever hit |
| `Theorems.ExecutionCoverage` | move-tut005/deps/aptos-move/parallel-executor/src/scheduler.rs:259-280 | a ready transaction is at or above the execution index, or a thread with a live guard is about to incarnate it or to lower the index to it or below |
| `Theorems.ValidationCoverage` | move-tut005/deps/aptos-move/parallel-executor/src/scheduler.rs:282-332 | no recorded read of an executed transaction is stale unnoticed: the validation index is at or below it, a thread will validate it, abort something below it or lower the index, or the read is valid |
| `Theorems.DoneIsValid` | move-tut005/deps/aptos-move/parallel-executor/src/executor.rs:275-291 | at done every recorded read is valid against the final map |
| `Theorems.MapAgreesWithOutputs` | move-tut005/deps/aptos-move/parallel-executor/src/executor.rs:202-251 | the entries of a transaction are those of its last recorded output: done when it is executed, estimates of lower incarnations when it is ready again |
| `Theorems.DoneHasNoEstimate` | move-tut005/deps/aptos-move/mvhashmap/src/lib.rs:155-160 | at done no estimate is left in the map |
| `Theorems.NoLostWakeup` | move-tut005/deps/aptos-move/parallel-executor/src/scheduler.rs:210-280 | a transaction is suspended exactly when one list, one finisher or its own pushing thread keeps it; that holder waits for a lower transaction which has yet to finish or has a finisher about to drain its list |
| `Theorems.ListsHaveNoDuplicates` | move-tut005/deps/aptos-move/parallel-executor/src/scheduler.rs:259-280 | no dependency list or taken list holds a transaction twice |
| `Theorems.DoneIsSound` | move-tut005/deps/aptos-move/parallel-executor/src/scheduler.rs:493-523 | if the done marker is set, some thread has set it, and when that thread read the number of active tasks in the same call of check_done, no guard was live, both indices were past the end and every transaction was executed |
| `Theorems.DoneIsFinal` | move-tut005/deps/aptos-move/parallel-executor/src/scheduler.rs:493-529 | once the marker is set, statuses, dependency lists, map, inputs and outputs never change again |
| `Theorems.DoneIsComplete` | move-tut005/deps/aptos-move/parallel-executor/src/scheduler.rs:505-523 | once the marker is set, every transaction is executed and no thread works on any |
| `Theorems.ExitedMeansDone` | move-tut005/deps/aptos-move/parallel-executor/src/scheduler.rs:182-208 | threads leave the loop only once the marker is set |
| `Versions.IncarnationsNeverDecrease` | move-tut005/deps/aptos-move/parallel-executor/src/scheduler.rs:350-369 | the incarnation of a transaction never decreases in a run |
| `Versions.BeginsOnce` | move-tut005/deps/aptos-move/parallel-executor/src/scheduler.rs:356-369 | a version is given out for execution without condition variable at most once in a run |
| `Versions.AbortsOnce` | move-tut005/deps/aptos-move/parallel-executor/src/scheduler.rs:163-179 | try_abort succeeds at most once per version in a run |
| `Versions.RewakesOnce` | move-tut005/deps/aptos-move/parallel-executor/src/scheduler.rs:463-470 | a version is given out again at most once per suspension |
| `Versions.RewakeIsSecondIncarnation` | move-tut005/deps/aptos-move/parallel-executor/src/scheduler.rs:350-369 | a version that is given out to wake its waiter has been given out before |
| `Witness.RewakeHappens` | move-tut005/deps/aptos-move/parallel-executor/src/scheduler.rs:350-369 | a run of four threads in which a validation fails, a transaction reads an estimate and is suspended, and its version is incarnated a second time |
| `NoPanic.NeverPanics` | move-tut005/deps/aptos-move/mvhashmap/src/lib.rs:125-168 | no step from a state with the invariant fails an assertion or an expectation: the incarnation assertion of writes, the lookups of marking and deletion, the status checks |
| `Roles.RankGrows` | move-tut005/deps/aptos-move/parallel-executor/src/scheduler.rs:473-491 | each status change moves the transaction forward through incarnations and their stages |
| `Roles.KeepRoles` | move-tut005/deps/aptos-move/parallel-executor/src/scheduler.rs:356-369 | each transaction that is executing, suspended or aborting has exactly one thread in charge |
| `Suspension.KeepSuspension` | move-tut005/deps/aptos-move/parallel-executor/src/scheduler.rs:210-280 | steps keep dependency lists, their locks and the suspended transactions in agreement |
| `Condvars.KeepCondvars` | move-tut005/deps/aptos-move/parallel-executor/src/scheduler.rs:450-470 | a waiting thread is woken exactly when its transaction is executing again, by a single waker |
| `Columns.KeepColumns` | move-tut005/deps/aptos-move/parallel-executor/src/executor.rs:202-251 | steps keep the entries of every transaction in step with the progress of its execution or abort |
| `Logs.KeepLogs` | move-tut005/deps/aptos-move/parallel-executor/src/executor.rs:63-143 | recorded reads carry values that a version wrote or storage holds, and outputs follow from them |
| `Coverage.KeepExecution` | move-tut005/deps/aptos-move/parallel-executor/src/scheduler.rs:302-332 | who was to see to a ready transaction has done so or still is |
| `Coverage.KeepValidation` | move-tut005/deps/aptos-move/parallel-executor/src/scheduler.rs:282-332 | who was to validate an executed transaction has done so or still is |
| `Coverage.InvalidatingIsCovered` | move-tut005/deps/aptos-move/parallel-executor/src/executor.rs:202-251 | a step that makes a read of a higher transaction stale is one of a thread that will have it validated |
| `Completion.NotLoweredStays` | move-tut005/deps/aptos-move/parallel-executor/src/scheduler.rs:337-349 | an index that was seen past the end still is, unless a decrease has been counted or its guard is still live |
| `Completion.ActiveTasksChecked` | move-tut005/deps/aptos-move/parallel-executor/src/scheduler.rs:505-523 | the read of zero active tasks in check_done finds everything complete, or a decrease was counted since |
| `MVHashMap.ReadDownLocal` | move-tut005/deps/aptos-move/mvhashmap/src/lib.rs:171-190 | a read depends only on the entries below the reader |
| `MVHashMap.ReadDownPastEstimate` | move-tut005/deps/aptos-move/mvhashmap/src/lib.rs:180-186 | a read that meets no estimate does not depend on what an estimate stands for |
| `MVHashMap.DependencyIsEstimate` | move-tut005/deps/aptos-move/mvhashmap/src/lib.rs:180-186 | a dependency is an estimate of a lower transaction |
| `MVHashMap.NearestWriteIsRead` | move-tut005/deps/aptos-move/mvhashmap/src/lib.rs:191-195 | a nearest entry that is a write is read with its version |
| `MVHashMap.DeltaOverWrite` | move-tut005/deps/aptos-move/mvhashmap/src/lib.rs:196-216 | a delta over a created or modified value d resolves to d plus its net effect exactly if its history and the result fit, and is a failure otherwise; over a deletion the deletion is read |
| `MVHashMap.WalkOverDelta` | move-tut005/deps/aptos-move/mvhashmap/src/lib.rs:217-236 | the walk fails at a delta exactly if what it has accumulated cannot be merged onto it, and otherwise goes on with the merge |
| `MVHashMap.TwoDeltas` | move-tut005/deps/aptos-move/mvhashmap/src/lib.rs:217-247 | two deltas without a write are a failure exactly if they cannot be merged, and otherwise an unresolved merge |
| `MVHashMap.MVHashMap.AddWrite` | move-tut005/deps/aptos-move/mvhashmap/src/lib.rs:125-142 | inserts the write and asserts a strictly higher incarnation |
| `MVHashMap.MVHashMap.AddDelta` | move-tut005/deps/aptos-move/mvhashmap/src/lib.rs:145-151 | inserts the delta |
| `MVHashMap.MVHashMap.MarkEstimate` | move-tut005/deps/aptos-move/mvhashmap/src/lib.rs:155-160 | turns the flag of an existing entry |
| `MVHashMap.MVHashMap.Delete` | move-tut005/deps/aptos-move/mvhashmap/src/lib.rs:164-168 | removes the entry |
| `MVHashMap.MVHashMap.ReadAt` | move-tut005/deps/aptos-move/mvhashmap/src/lib.rs:171-248 | the traversal loop with its accumulator computes the read function |
| `Replay.ReadReplays` | move-tut005/deps/aptos-move/mvhashmap/src/lib.rs:171-248 | without estimates and with one limit, a read agrees on every base with replaying the entries bottom-up; where the replay fails, the read is a failure, an error at the base or the deletion below |
| `Replay.ReadIsReplay` | move-tut005/deps/aptos-move/mvhashmap/src/lib.rs:171-248 | the same against a replay that is stated entry by entry on plain numbers: created and modified values, deletions, and net effects of deltas that fit |
| `Replay.ReplayExists` | move-tut005/deps/aptos-move/mvhashmap/src/lib.rs:171-248 | every column has one such replay on every stored value |
| `Replay.ViewMeaning` | move-tut005/deps/aptos-move/aptos-vm/src/parallel_executor/storage_wrapper.rs:38-63 | what the virtual machine sees of each kind of read, errors included |
| `Replay.WriteIsSeen` | move-tut005/deps/aptos-move/aptos-vm/src/parallel_executor/storage_wrapper.rs:42-45 | a transaction above a write sees the created or modified value, and nothing after a deletion |
| `Replay.ReadOfDeltas` | move-tut005/deps/aptos-move/mvhashmap/src/lib.rs:196-236 | with deltas above a written value, the read resolves to x exactly when the replay gives x, and fails exactly when the replay fails |
| `Replay.ReadWithoutWrite` | move-tut005/deps/aptos-move/mvhashmap/src/lib.rs:238-247 | with deltas and no write, an unresolved delta replays the column on any stored value, and a failure fails on every one |
| `Replay.ReplayMerged` | move-tut005/deps/aptos-move/mvhashmap/src/lib.rs:218-230 | replaying a merged delta is replaying the two |
| `Sequential.RunsAgree` | move-tut005/deps/aptos-move/aptos-vm/src/adapter_common.rs:161-175 | a transaction has one run on a given view |
| `Sequential.SequentialIsUnique` | move-tut005/deps/aptos-move/aptos-vm/src/adapter_common.rs:161-202 | a block has one sequential execution |
| `Sequential.ResultMeaning` | move-tut005/deps/aptos-move/aptos-vm/src/adapter_common.rs:161-202 | the reference result in plain terms: the first error, or for each executed transaction its writes, its deltas as modifications of the value it runs on and the rest of its output, and retries after a reconfiguration |
| `Sequential.ReadAfterPush` | move-tut005/deps/aptos-move/aptos-vm/src/data_cache.rs:64-106 | a read after a push sees Some(d) for a creation or modification to d, None for a deletion, and otherwise what it saw before |
| `Sequential.WriteOfMeaning` | move-tut005/deps/aptos-move/aptos-aggregator/src/delta_change_set.rs:168-194 | a delta becomes a modification by its net effect exactly if there is a value and its history and the result fit |
| `Sequential.CacheAfterMeaning` | move-tut005/deps/aptos-move/aptos-vm/src/data_cache.rs:64-106 | a transaction leaves at each key its written value, none after a deletion, the value shifted by its delta, or what was there |
| `SequentialLoop.ExecuteBlock` | move-tut005/deps/aptos-move/aptos-vm/src/adapter_common.rs:137-202 | the sequential loop returns the reference result exactly for the blocks that have one, and panics only at a delta that does not apply after successes |
| `SequentialLoop.StateViewCache.ExecuteSingle` | move-tut005/deps/aptos-move/aptos-vm/src/adapter_common.rs:170-175 | runs a transaction on the cached view |
| `SequentialLoop.StateViewCache.ApplyDeltas` | move-tut005/deps/aptos-move/aptos-aggregator/src/delta_change_set.rs:319-333 | the write set with deltas applied to the view, or a failure exactly when one does not apply |
| `SequentialLoop.StateViewCache.PushWriteSet` | move-tut005/deps/aptos-move/aptos-vm/src/data_cache.rs:64-76 | the overlay after the writes, deletions included |
| `Resolver.Collect` | move-tut005/deps/aptos-move/parallel-executor/src/executor.rs:397-431 | outputs up to the first reconfiguration and skip outputs after it, or the first error |
| `Resolver.Resolve` | move-tut005/deps/aptos-move/parallel-executor/src/output_delta_resolver.rs:26-74 | one write per delta with the bottom-up value, and a panic exactly for a missing or repeated key or a failing delta |
| `Resolver.DeltaMeaning` | move-tut005/deps/aptos-move/parallel-executor/src/output_delta_resolver.rs:52-66 | in the replay of a column a delta fails exactly if there is no value or one that it does not fit, and otherwise becomes a modification to the value shifted by it |
| `Finish.AggregatorKeys` | move-tut005/deps/aptos-move/aptos-vm/src/parallel_executor/mod.rs:104-115 | lists every key with a kept delta once, with its stored value |
| `Finish.WithDeltaWrites` | move-tut005/deps/aptos-move/aptos-aggregator/src/transaction.rs:219-247 | the output with its delta writes, or the failed assertion on their number |
| `Finish.RowIsComplete` | move-tut005/deps/aptos-move/aptos-aggregator/src/transaction.rs:219-233 | for a kept output the number of resolved writes is the number of its deltas, and adding them gives its final writes |
| `Finish.FinalOutputMeaning` | move-tut005/deps/aptos-move/aptos-aggregator/src/transaction.rs:219-247 | what a kept transaction returns: its writes, its deltas as modifications of the value that the replay has below it, and the rest of its output |
| `Finish.FinishBlock` | move-tut005/deps/aptos-move/aptos-vm/src/parallel_executor/mod.rs:102-130 | collecting, resolving and attaching, and exactly when it panics |
| `Delta.ApplyToMeaning` | move-tut005/deps/aptos-move/aptos-aggregator/src/delta_change_set.rs:64-77 | applying succeeds exactly when the history and the result fit, and shifts by the net effect |
| `Delta.ApplyToError` | move-tut005/deps/aptos-move/aptos-aggregator/src/delta_change_set.rs:64-77 | which abort code a failing application gives: overflow where history or result pass the limit, underflow where they go below zero |
| `Delta.MergeMeaning` | move-tut005/deps/aptos-move/aptos-aggregator/src/delta_change_set.rs:80-163 | a merge adds net effects and joins the histories, the later one shifted |
| `Delta.MergeFailure` | move-tut005/deps/aptos-move/aptos-aggregator/src/delta_change_set.rs:80-143 | merging fails, with an overflow, exactly if the shifted history of the later delta or the sum of two updates of one sign passes the limit |
| `Delta.ExactComposition` | move-tut005/deps/aptos-move/aptos-aggregator/src/delta_change_set.rs:64-163 | for equal limits the merged delta is the composition of the two partial functions on every base, and a failed merge is a composition defined nowhere |
| `Delta.MergeThreeMeaning` | move-tut005/deps/aptos-move/aptos-aggregator/src/delta_change_set.rs:112-163 | both ways of merging three deltas apply exactly as the three one after the other, and a failure of either is a composition defined nowhere |
| `Delta.MergeAssociative` | move-tut005/deps/aptos-move/aptos-aggregator/src/delta_change_set.rs:112-163 | successful merges are associative, in update and in both history bounds |
| `Aggregator.DeltaModeIsKnownMode` | move-tut005/deps/aptos-move/aptos-aggregator/src/aggregator_extension.rs:86-266 | for every list of operations and every base within the limit, working on a delta and reading it agrees with working on the base |
| `Aggregator.DeltaModeAboveLimit` | move-tut005/deps/aptos-move/aptos-aggregator/src/aggregator_extension.rs:206-266 | above the limit the delta always fails, while working on the base need not |
| `Aggregator.SplitIsMerge` | move-tut005/deps/aptos-move/framework/src/natives/aggregator_natives/context.rs:70-93 | the delta of a concatenation is the second delta merged onto the first, in update and both history bounds |
| `Aggregator.SplitPreservesMeaning` | move-tut005/deps/aptos-move/aptos-aggregator/src/aggregator_extension.rs:115-201 | on every base a concatenation has the result of its two parts, even where a delta cannot be recorded |
| `Aggregator.DeltaResultIsApplication` | move-tut005/deps/aptos-move/framework/src/natives/aggregator_natives/context.rs:70-93 | reading a delta aggregator against a base is applying the delta that it is turned into |
| `Aggregator.PerformOnDelta` | move-tut005/deps/aptos-move/aptos-aggregator/src/aggregator_extension.rs:130-201 | an operation on a delta shifts it and extends the recorded range to where it gets; it fails exactly if it is out of reach of the limit, and with which abort code |
| `Aggregator.PerformOnKnown` | move-tut005/deps/aptos-move/aptos-aggregator/src/aggregator_extension.rs:130-201 | an operation on a known value adds or takes, and fails exactly above the limit or below zero, with which abort code |
| `Aggregator.MaterializeMeaning` | move-tut005/deps/aptos-move/aptos-aggregator/src/aggregator_extension.rs:220-266 | a read of a delta succeeds exactly if its history fits the stored value, gives the shifted value, and otherwise an overflow or an underflow |
| `Aggregator.ReadAgain` | move-tut005/deps/aptos-move/aptos-aggregator/src/aggregator_extension.rs:206-214 | a read of a known value gives it and changes nothing, whatever is stored; a second read gives what the first one gave |
| `Aggregator.CreatedReadsSum` | move-tut005/deps/aptos-move/aptos-aggregator/src/aggregator_extension.rs:315-325 | a new aggregator reads as the sum of its operations exactly if all partial sums are in range |
| `Aggregator.DeltaReadsSum` | move-tut005/deps/aptos-move/aptos-aggregator/src/aggregator_extension.rs:291-300 | one that starts as a delta reads as the stored value plus the sum, under the same condition |
| `Aggregator.InterleavedReads` | move-tut005/deps/aptos-move/aptos-aggregator/src/aggregator_extension.rs:130-266 | with reads anywhere between operations, a delta over a stored value and the value itself succeed alike and read the same: the value plus what was added and taken before |
| `Aggregator.MisfitStays` | move-tut005/deps/aptos-move/aptos-aggregator/src/aggregator_extension.rs:230-244 | an excursion out of range is never forgotten |
| `Aggregator.Aggregator.Add` | move-tut005/deps/aptos-move/aptos-aggregator/src/aggregator_extension.rs:130-161 | addition in all three states; nothing changes on error |
| `Aggregator.Aggregator.Sub` | move-tut005/deps/aptos-move/aptos-aggregator/src/aggregator_extension.rs:164-201 | subtraction in all three states; nothing changes on error |
| `Aggregator.Aggregator.ReadAndMaterialize` | move-tut005/deps/aptos-move/aptos-aggregator/src/aggregator_extension.rs:206-266 | the known value, or the delta applied to the stored value after checking the history |
| `ChangeSet.Squash` | move-tut005/deps/aptos-move/aptos-aggregator/src/transaction.rs:156-160 | squashing works exactly when it does for every key, that is unless something there is created again, something deleted modified or deleted again, or a delta does not fit or merge; it keeps writes and deltas apart |
| `ChangeSet.SlotFailure` | move-tut005/deps/aptos-move/aptos-aggregator/src/transaction.rs:62-138 | which two changes of a key cannot be squashed |
| `ChangeSet.SlotResult` | move-tut005/deps/aptos-move/aptos-aggregator/src/transaction.rs:62-146 | what any other two changes of a key come to |
| `ChangeSet.SquashChangeSet` | move-tut005/deps/aptos-move/aptos-aggregator/src/transaction.rs:109-154 | the loop over the other writes |
| `ChangeSet.SquashDeltaChangeSet` | move-tut005/deps/aptos-move/aptos-aggregator/src/transaction.rs:62-107 | the loop over the other deltas |
| `ChangeSet.SquashPreservesMeaning` | move-tut005/deps/aptos-move/aptos-aggregator/src/transaction.rs:62-161 | wherever the two change sets apply one after the other, their squash applies and leads to the same store |
| `ChangeSet.SquashHides` | move-tut005/deps/aptos-move/aptos-aggregator/src/transaction.rs:62-161 | the squash applies elsewhere exactly when an overwritten delta would fail or a created and deleted key is present |
| `ChangeSet.SquashFailure` | move-tut005/deps/aptos-move/aptos-aggregator/src/transaction.rs:124-138 | if modifications and deletions need their key, a failed squash is a sequence that applies on no store; if they do not, it may apply, and then every key at fault is deleted, and deleted again or modified |
| `ChangeSet.SquashHidesFailure` | move-tut005/deps/aptos-move/aptos-aggregator/src/transaction.rs:139-143 | a delta that fails everywhere is squashed away by an overwrite |
| `ModuleRace.FlagIsExact` | move-tut005/deps/aptos-move/parallel-executor/src/txn_last_input_output.rs:150-211 | after any interleaving, once all calls have returned the flag is set exactly when some module path was read in one recorded execution and written in one |
| `ModuleRace.FlagIsSound` | move-tut005/deps/aptos-move/parallel-executor/src/txn_last_input_output.rs:198-205 | the flag is never set without such a path |
| `TopoSort.SortedCodeAndModules` | move-tut005/deps/aptos-move/framework/src/release_bundle.rs:149-169 | for a package without dependency cycles: every id of the list once, with its last module, after those of its dependencies that are in the list; with distinct ids a permutation of the list |
| `TopoSort.SortIds` | move-tut005/deps/aptos-move/framework/src/release_bundle.rs:158-161 | the order is that of the recursion over the ids in ascending order |
| `TopoSort.SameModules` | move-tut005/deps/aptos-move/framework/src/release_bundle.rs:149-169 | lists of modules with distinct ids and the same members are permutations of each other |
| `TopoSort.Order.SortByDeps` | move-tut005/deps/aptos-move/framework/src/release_bundle.rs:171-189 | the recursion terminates, keeps the order sorted, adds the module, and computes what the depth-bounded recursion does |
| `TopoSort.EndsExactlyWhenAcyclic` | move-tut005/deps/aptos-move/framework/src/release_bundle.rs:171-189 | the recursion over all modules ends at some depth exactly when no module depends on itself, directly or indirectly |
| `TopoSort.CyclicNeverEnds` | move-tut005/deps/aptos-move/framework/src/release_bundle.rs:171-189 | on a cyclic package it does not end, however deep it may go |
| `TopoSort.TakeInOrder` | move-tut005/deps/aptos-move/framework/src/release_bundle.rs:163-168 | removing modules in that order never misses one |
| `TxnArgs.ValidateAndCombine` | move-tut005/deps/aptos-move/aptos-vm/src/transaction_arg_validation.rs:41-99 | accepts exactly the calls with a prefix of signers followed by allowed types, one argument per other parameter, one sender per signer if there is any, and well-formed strings; the senders come first, then the given arguments; otherwise the status is that of the first failing check |
| `TxnArgs.SendersMatter` | move-tut005/deps/aptos-move/aptos-vm/src/transaction_arg_validation.rs:79-96 | a function without signers is called alike by any number of senders, one with signers only by as many |
| `TxnArgs.SignersAreCounted` | move-tut005/deps/aptos-move/aptos-vm/src/transaction_arg_validation.rs:50-62 | the count is the number of parameters that are a signer or a reference to one |
| `TxnArgs.CountedPrefix` | move-tut005/deps/aptos-move/aptos-vm/src/transaction_arg_validation.rs:50-77 | counting signers anywhere and checking only the suffix is asking for a prefix of signers |
| `TxnArgs.ValidArgMeaning` | move-tut005/deps/aptos-move/aptos-vm/src/transaction_arg_validation.rs:103-124 | allowed are plain values and strings under vectors, validated are the strings |
| `TxnArgs.ValidateArgs` | move-tut005/deps/aptos-move/aptos-vm/src/transaction_arg_validation.rs:132-148 | walks exactly the arguments with strings and never reaches the impossible arm |
| `TxnArgs.ValidateArg` | move-tut005/deps/aptos-move/aptos-vm/src/transaction_arg_validation.rs:152-207 | accepts exactly the nested vectors of valid strings |
| `TxnArgs.SerializedIsAccepted` | move-tut005/deps/aptos-move/aptos-vm/src/transaction_arg_validation.rs:152-215 | round trip: the serialization of nested vectors of texts is accepted exactly if all texts are UTF-8 |

## Left out

- Fairness and termination under every schedule: what is proved is that no reachable state is stuck and that every run can be continued to the done marker.
- Weak memory orderings, the spin loops, thread pools and asynchronous drops.
- The scheduler and the executor are a transition system on values instead of a class, because their methods interleave step by step; update in place is modelled for the map, the aggregator, the state view cache, the change-set loops and the module order, and merging a delta returns the merged delta.
- The virtual machine, sessions, prologue, epilogue and signature verification: a transaction is any deterministic strategy over reads, including a bound on the number of reads where termination matters.
- The Move-VM loader cache: `ModuleRace` is about the flag alone, and serializability is about executions whose reads all go through the view, so it needs no assumption on the flag; `EndToEnd.ExecuteBlockTail` covers the fallback that the flag causes.
- Encodings: the bytes of values, the reading of lengths and the check for UTF-8 are parameters or left out.
- Aggregator creation, removal and limits in `AggregatorData`, and the external checks when change sets are built and frozen, events, gas, metrics, logging and fail points.
- Gas schedules, release and proposal generation, genesis and test harnesses.
- TxnArgs.ValidateArg: like the code, does not ask for the whole argument to be consumed.
