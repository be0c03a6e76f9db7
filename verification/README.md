# Typocop in Dafny

Typocop indexes source trees into a code graph. Most of it talks to parsers, databases and editors; between
them sit state machines and algorithms that carry real guarantees. This project models those and proves
the guarantees for all inputs, all runs and all interleavings. `dafny verify dfyconfig.toml` checks it.

**Incremental indexing** (`incremental`, `accessed_keys`, `symbols`, `delta_store`, `incremental_index`,
`extracted_rows`, `crash_recovery`, `histories`, `indexing_run`). A run classifies the walked files against a parse
cache, parses only what changed, merges, and writes a delta to a store that may die at any write. The reference is the
simple program: parse everything and write it into an empty store. The proofs say what that gives in terms of what the
extractor finds, and exactly when the two agree: over any sequence of edits, runs, parser upgrades, crashes and reruns
of the same tree, and after a crash followed by a run over any other tree. Reading, hashing, extracting and resolving
are function parameters; the assumptions are that the hash is injective, that a path read twice at one mtime gives the
same content or fails both times, and that a walk has no path twice.

**Worker pool** (`worker_pool`, `pool_runs`, `worker_pool_class`) and **request scheduler** (`scheduler`,
`scheduler_runs`, `scheduler_class`). Each is a machine whose steps are the handlers and timers of the program, driven
by an adversarial environment, with an invariant and theorems over all runs; and a class with the program's fields
and loops whose methods are proved to make the steps of the machine. The `_runs` modules say what each step does and
what whole runs come to, told from the events. The pool does not assume that a replaced worker stays silent. The
scheduler assumes unique request ids, and a request's reaction and its `finally` are two steps with others in between.

**Watch mode** (`watch`, `watch_runs`, `watch_class`). The debounced watcher composed with the single-flight runner.

**Algorithms.** Bounded shortest paths and the verdicts built on them (`trace_path`, `verify_claim`), edit
distance (`levenshtein`), chunking and adaptive writes (`chunking`, `adaptive_write`, `persist_rows`), complexity
metrics (`complexity`), the embedding cache (`embedding_cache`), adaptive paging (`graph_reader`).
`prelude` holds optional values and facts about sequences and sets.

## What the proofs found

- A changed file that the parser now skips keeps its cached slice, although the comment at
  `src/application/indexing/pipeline.ts:681-682` says it contributes nothing. `IncrementalEqualsFull` gives the exact
  condition and `AFileThatFallsBack` a concrete case.
- A run over a tree with no files, or with no symbols, returns before it persists and leaves the old table in place
  (`TheTableIsFullIff`, `AnEmptyTreeKeepsTheTable`).
- A crash is harmless if the next run sees the same tree (`TheTableIsAlwaysFull`, `SameTreeIsHarmless`). Over another
  tree the table is full if and only if no key is harmed (`CrashThenOtherTreeIff`, and `CrashesThenOtherTreeIff` for
  any number of crashes), and the comment at `src/application/indexing/pipeline.ts:516-522` claims more. Before a run
  that persists there are four ways to do harm (`FourWaysToHarm`): a file edited and edited back, or removed and
  restored, counts as unchanged, and what the died run left of it stays; a file added and then removed, or added and
  then edited, leaves rows that the next run does not delete. The last is the plain case of a first index that dies,
  an edit and a rerun. Such a key stays wrong until a run that saves its cache takes the file as changed or removed, or
  defines the key anew in a file unknown to the cache (`SpoiledStaysIff`). A failed save of the cache is a crash after
  the last write. `ARenameAfterACrashLeavesTheOldName` and `AnUndoneEditAfterACrashLosesTheRow` are concrete histories.
- Edges of a delta write are not those of a full rebuild, contrary to `src/application/indexing/pipeline.ts:370-371`:
  stale edges between unchanged files stay (`EpisodeEdges`, `EdgesOfAFullRebuildIff`), and two runs from the empty store
  reach one (`AStaleEdgeIsReached`).
- A rejected run with paths queued strands the paths and the idle waiters (`StepQuiet`, `RejectionStrandsWaiters`).
- `DEPENDS_ON` is never reported as an edge type on a path, because its label is cut at the underscore first.
- Languages without full complexity support get nesting costs and loop depths, contrary to the header of
  `src/infrastructure/parsing/complexity.ts`; the model follows the code.

## Model

| member | source | states |
|---|---|---|
| `WorkerPool.StartInv` | `src/platform/utils/worker-pool.ts:122-134` | The pool invariant holds once the fleet is spawned and primed, for every size, budget and task order that is a permutation of 0..n-1 |
| `WorkerPool.StepInv` | `src/platform/utils/worker-pool.ts:136-254` | Every timeout, message or exit, on any slot at any time, keeps the invariant, and either changes nothing or decreases unsettled tasks plus remaining respawns |
| `WorkerPool.SortSorts` | `src/platform/utils/worker-pool.ts:156-160` | Sorting the failed indices gives an ascending rearrangement of them |
| `WorkerPool.EveryTaskIsInOnePlace` | `src/platform/utils/worker-pool.ts:184-254` | After any sequence of events each task is pending, or in flight on exactly one slot, or settled, and only one of these |
| `WorkerPool.RunResolvesOnceWithAPartition` | `src/platform/utils/worker-pool.ts:136-162` | onSettled fires at most once per task and once for all by the end; the promise resolves at most once, exactly when the run is finished; results and ascending failedIndices partition all indices |
| `WorkerPool.NeverStuck` | `src/platform/utils/worker-pool.ts:164-254` | An unresolved run has a slot with a task and an armed watchdog; pending tasks mean every slot is busy; a tripped breaker means resolved; respawns stay in budget, and failures without a trip are at most the respawns |
| `WorkerPool.SomeWatchdogIsArmed` | `src/platform/utils/worker-pool.ts:194-208` | No deadlock: in an open run there is a watchdog whose firing makes progress |
| `WorkerPool.EffectiveEventsAreBounded` | `src/platform/utils/worker-pool.ts:194-254` | At most n + maxRespawns events have an effect in any run, and none after it resolved |
| `WorkerPool.WatchdogsFinishTheRun` | `src/platform/utils/worker-pool.ts:194-208` | From every state of every run the watchdogs alone bring the run to its end, within the measure, each firing while it is armed on a slot with a task |
| `WorkerPool.ResultsWereReported` | `src/platform/utils/worker-pool.ts:210-227` | Every result in the outcome is the value of a result frame that some worker posted for that very task |
| `PoolRuns.FleetIsPrimed` | `src/platform/utils/worker-pool.ts:122-134` | The run begins with max(1, min(size, n)) workers, each on the next task in order and under a watchdog |
| `PoolRuns.MessageDelivers` | `src/platform/utils/worker-pool.ts:210-227` | A result frame for the task its slot owns stores the value, fails nothing, costs no respawn and no time, and the slot goes on with the next task |
| `PoolRuns.LossIsReplaced` | `src/platform/utils/worker-pool.ts:194-254` | A timeout or an exit that does not trip the breaker fails exactly the task of that slot, costs one respawn, and the slot goes on |
| `PoolRuns.LossTrips` | `src/platform/utils/worker-pool.ts:164-182` | A timeout or an exit that trips it ends the run: results are kept, and every task without one has failed |
| `PoolRuns.IgnoredIff` | `src/platform/utils/worker-pool.ts:210-241` | An event changes nothing if and only if it neither takes a worker nor delivers a result: mismatched frames, watchdogs of idle slots, anything after the end |
| `PoolRuns.ResultsAreTheDelivered` | `src/platform/utils/worker-pool.ts:210-227` | Over all runs a task has a result if and only if some event was a result frame with it for the task its slot owned at that moment |
| `PoolRuns.DeliveredResultsStay` | `src/platform/utils/worker-pool.ts:136-146` | A delivered result is in the outcome whatever happens afterwards, its task is not among the failed, and storing it cost no respawn |
| `PoolRuns.BreakerTripsIff` | `src/platform/utils/worker-pool.ts:194-254` | Over all runs the breaker trips if and only if the timeouts add up to the limit or more workers are lost than may be respawned; until then every loss is a respawn |
| `WorkerPoolClass.Pool.Settle` | `src/platform/utils/worker-pool.ts:136-146` | Settling a settled index changes nothing; otherwise the new state is that of the machine, one notification longer |
| `WorkerPoolClass.Pool.MaybeFinish` | `src/platform/utils/worker-pool.ts:148-162` | Resolves when, and only when, every task is settled and the run is not finished, disarming all watchdogs |
| `WorkerPoolClass.Pool.TripBreaker` | `src/platform/utils/worker-pool.ts:164-182` | The loops over slots and over pending tasks abandon exactly what the machine abandons |
| `WorkerPoolClass.Pool.DispatchTo` | `src/platform/utils/worker-pool.ts:184-192` | Hands over the next pending task and arms the watchdog, unless tripped or exhausted |
| `WorkerPoolClass.Pool.OnTaskTimeout` | `src/platform/utils/worker-pool.ts:194-208` | The object after a watchdog fired is the machine after that event |
| `WorkerPoolClass.Pool.OnMessage` | `src/platform/utils/worker-pool.ts:210-227` | The object after any frame is the machine after that frame; mismatched frames change nothing |
| `WorkerPoolClass.Pool.OnExit` | `src/platform/utils/worker-pool.ts:229-241` | The object after an exit, late exits of replaced workers included, is the machine after that event |
| `WorkerPoolClass.Pool.Recycle` | `src/platform/utils/worker-pool.ts:243-254` | Respawns within the budget and trips the breaker beyond it |
| `WorkerPoolClass.Pool.Spawn` | `src/platform/utils/worker-pool.ts:257-261` | A new idle slot is appended and no other slot is touched |
| `WorkerPoolClass.Pool.PrimeFleet` | `src/platform/utils/worker-pool.ts:122-134` | Spawning and priming in a loop gives the primed fleet of the machine |
| `WorkerPoolClass.Pool.constructor` | `src/platform/utils/worker-pool.ts:122-134` | The primed fleet is the start state of the machine; no tasks means resolved at once |
| `WorkerPoolClass.Pool.Deliver` | `src/platform/utils/worker-pool.ts:210-254` | Whatever event the environment delivers, the object makes the step of the machine, keeps its invariant, and makes progress unless the event is ignored |
| `Scheduler.StartInv` | `src/apps/ladybug-server/scheduler.ts:38-48` | The scheduler invariant holds for every positive bound |
| `Scheduler.StepInv` | `src/apps/ladybug-server/scheduler.ts:50-258` | Every enqueue, timer, reaction, finally, drain call and drain deadline keeps the invariant, in any order |
| `Scheduler.InsertKeepsOrder` | `src/apps/ladybug-server/scheduler.ts:194-204` | Inserting keeps the queue in order of (priority, arrival) and adds exactly the new request |
| `Scheduler.SettledAtMostOnce` | `src/apps/ladybug-server/scheduler.ts:78-96` | Over all runs: each accepted request is settled at most once, each running one is settled or still tracked for drain, and each unsettled one is queued or running with its timer armed |
| `Scheduler.DrainsReturnWhenAllIsSettled` | `src/apps/ladybug-server/scheduler.ts:113-134` | No lost wakeup: a waiting drain has work in flight or queued; a drain that returned found the scheduler draining and everything accepted settled; every drain call is waiting or returned, in order |
| `Scheduler.DeadlineReleasesEveryDrain` | `src/apps/ladybug-server/scheduler.ts:143-177` | A drain deadline settles everything, empties the queue and releases every drain, whatever operations still run |
| `Scheduler.BoundsAndAccounts` | `src/apps/ladybug-server/scheduler.ts:179-258` | In flight equals started but unfinished and is at most maxConcurrency; the queue is at most maxQueue and non-empty only at full concurrency; accepted = queued + processed + timed out in queue + drained from queue; the two other counters equal their outcomes |
| `Scheduler.ServedInTurn` | `src/apps/ladybug-server/scheduler.ts:194-223` | Whenever a request was started, nobody waiting had higher priority, or equal priority and an earlier arrival; the queue stays in that order |
| `Scheduler.StartsTheHeadOfTheQueue` | `src/apps/ladybug-server/scheduler.ts:213-247` | Free places go to the first requests of the queue, as many as there are places or requests |
| `Scheduler.QueueIsStartable` | `src/apps/ladybug-server/scheduler.ts:213-218` | No timed-out request is ever found in the queue, so the skip in the loop is never taken |
| `Scheduler.EverySettlementHasItsCause` | `src/apps/ladybug-server/scheduler.ts:78-96` | A result is settled only by its operation, a timeout only by its timer, a shutdown only by a drain deadline |
| `Scheduler.LogGrows` | `src/apps/ladybug-server/scheduler.ts:113-177` | What was settled stays settled the same way |
| `SchedulerRuns.EnqueueDoes` | `src/apps/ladybug-server/scheduler.ts:50-102` | A request is refused if and only if the scheduler drains or the queue is full, and then nothing else happens; else it starts at once if a place is free, and waits if not |
| `SchedulerRuns.TimerDoes` | `src/apps/ladybug-server/scheduler.ts:78-96` | A timer that fires settles its request as timed out, takes it out of the queue, and leaves a running operation alone |
| `SchedulerRuns.ReactionDoes` | `src/apps/ladybug-server/scheduler.ts:225-239` | The end of an operation settles its request with that result unless it is settled; the place stays taken |
| `SchedulerRuns.FinallyDoes` | `src/apps/ladybug-server/scheduler.ts:240-245` | Then the place goes to the head of the queue, or is free |
| `SchedulerRuns.DrainDoes` | `src/apps/ladybug-server/scheduler.ts:113-134` | A drain returns at once exactly when nothing runs or waits; only a bounded one that waits arms a deadline |
| `SchedulerRuns.DeadlineDoes` | `src/apps/ladybug-server/scheduler.ts:143-177` | A deadline settles everything, empties the queue and returns every drain, and leaves the operations alone |
| `SchedulerRuns.ReleasedAtIdle` | `src/apps/ladybug-server/scheduler.ts:249-258` | No other step returns a drain unless nothing runs or waits after it |
| `SchedulerRuns.EveryBoundedWaitHasADeadline` | `src/apps/ladybug-server/scheduler.ts:113-134` | Over all runs armed and fired deadlines are together the bounded drains that had to wait |
| `SchedulerRuns.BoundedDrainReturns` | `src/apps/ladybug-server/scheduler.ts:113-177` | No bounded drain hangs: whatever happens after the call, it has returned, or its deadline is armed and returns it with everything accepted settled |
| `SchedulerRuns.DrainingAcceptsNobody` | `src/apps/ladybug-server/scheduler.ts:50-58` | Once draining, always draining, and no request is ever accepted again |
| `SchedulerRuns.ServedByPriority` | `src/apps/ladybug-server/scheduler.ts:194-223` | By name: whenever a request was started, each one left waiting was made with a priority that goes after it (Admin, InteractiveRead, BackgroundWrite), or with the same and accepted later |
| `SchedulerClass.PriorityRequestScheduler.constructor` | `src/apps/ladybug-server/scheduler.ts:38-48` | A new scheduler is the start state of the machine |
| `SchedulerClass.PriorityRequestScheduler.Enqueue` | `src/apps/ladybug-server/scheduler.ts:50-102` | Refuses exactly when draining or full; else the object is the machine after the same call |
| `SchedulerClass.PriorityRequestScheduler.InsertByPriority` | `src/apps/ladybug-server/scheduler.ts:194-204` | The search and splice give the sorted insertion |
| `SchedulerClass.PriorityRequestScheduler.RemoveFromQueue` | `src/apps/ladybug-server/scheduler.ts:206-211` | Removes the first request with the id and nothing else |
| `SchedulerClass.PriorityRequestScheduler.SettleRequest` | `src/apps/ladybug-server/scheduler.ts:79-94` | Marks one request and logs its outcome, touching no other |
| `SchedulerClass.PriorityRequestScheduler.TryExecuteNext` | `src/apps/ladybug-server/scheduler.ts:213-247` | The loop starts what the machine starts |
| `SchedulerClass.PriorityRequestScheduler.OnTimer` | `src/apps/ladybug-server/scheduler.ts:78-96` | The object after a timer fired is the machine after that event; a settled request is left alone |
| `SchedulerClass.PriorityRequestScheduler.OnReaction` | `src/apps/ladybug-server/scheduler.ts:225-239` | A then or catch settles the request only if nothing settled it before |
| `SchedulerClass.PriorityRequestScheduler.OnFinally` | `src/apps/ladybug-server/scheduler.ts:240-245` | The finally frees the place, starts waiting requests and wakes drains, as the machine does |
| `SchedulerClass.PriorityRequestScheduler.FlushDrainWaiters` | `src/apps/ladybug-server/scheduler.ts:249-258` | Wakes all drains if and only if nothing is in flight or queued |
| `SchedulerClass.PriorityRequestScheduler.MarkDraining` | `src/apps/ladybug-server/scheduler.ts:109-111` | Only flips the flag |
| `SchedulerClass.PriorityRequestScheduler.Drain` | `src/apps/ladybug-server/scheduler.ts:113-134` | Returns at once when idle, else waits, with a deadline if bounded |
| `SchedulerClass.PriorityRequestScheduler.SettlePendingForDrain` | `src/apps/ladybug-server/scheduler.ts:143-177` | Both loops settle what the machine settles, and every drain is released |
| `SchedulerClass.PriorityRequestScheduler.OnDrainDeadline` | `src/apps/ladybug-server/scheduler.ts:128-130` | The object after the deadline is the machine after that event |
| `SchedulerClass.PriorityRequestScheduler.Deliver` | `src/apps/ladybug-server/scheduler.ts:50-258` | Whatever event the environment delivers, the object makes the step of the machine and keeps its invariant |
| `Incremental.ClassifyFiles` | `src/application/indexing/cache/classify.ts:46-78` | Each walked file lands in its one bucket, in walk order; removed is what the cache has and the walk has not |
| `Incremental.InBucketHolds` | `src/application/indexing/cache/classify.ts:56-71` | A bucket holds exactly the walked files that its condition selects |
| `Incremental.InBucketGrows` | `src/application/indexing/cache/classify.ts:46-78` | Buckets are in walk order |
| `Incremental.UnchangedIffSameContent` | `src/application/indexing/pipeline.ts:632-640` | The two tiers of the check agree with the contents: a cached file is unchanged if and only if its entry is of this version and it reads as the content that was parsed |
| `Incremental.UnchangedIsCurrent` | `src/application/indexing/cache/classify.ts:87-91` | A file classified as unchanged has the very parse the cache holds |
| `Incremental.ParseOfFile` | `src/infrastructure/parsing/extract-symbols.ts:417-435` | A parse names only its own file, with ids and keys that are unique in it |
| `Incremental.RunPhase2` | `src/application/indexing/pipeline.ts:594-714` | The loops over the walk give the merged symbols and hints, the next cache and the delta plan of the specification |
| `Incremental.NextCacheHolds` | `src/application/indexing/pipeline.ts:660-690` | The next cache holds, for the walked files and no others, exactly the entries the merge used |
| `Incremental.CacheIsAlwaysOk` | `src/application/indexing/pipeline.ts:668-690` | Over any sequence of runs, edits, failed saves and parser upgrades, every cache entry is the parse, at its version, of the content its mtime stands for, with that content's hash |
| `Incremental.MergedIdsAreDistinct` | `src/application/indexing/pipeline.ts:692-694` | Ids do not repeat across files, so the final dedup of the merged list drops nothing |
| `Incremental.IncrementalEqualsFull` | `src/application/indexing/pipeline.ts:594-728` | Against any sound cache, merged symbols and hints equal those of a full parse, in order, if and only if no changed file that the parser now skips has a non-empty cached slice of the current version |
| `Incremental.EveryRunEqualsFull` | `src/application/indexing/pipeline.ts:594-728` | The same for every run of every sequence of runs from an empty cache |
| `Incremental.NoSkipsMeansFull` | `src/application/indexing/pipeline.ts:681-690` | In particular, every run whose walked files all parse gives exactly the full parse |
| `Incremental.FullParseIsOneDedup` | `src/application/indexing/pipeline.ts:692-694` | Dropping repeats file by file before numbering keeps the very ids that one dedup over everything extracted from the tree keeps, in that order |
| `Incremental.AFileThatFallsBack` | `src/application/indexing/pipeline.ts:681-690` | A concrete edit after which the run keeps the symbol of a text that is gone, where a full parse has none |
| `Symbols.DedupeByIdLoop` | `src/application/indexing/pipeline.ts:718-728` | The loop keeps the first symbol of each id |
| `Symbols.DedupeKeepsIds` | `src/application/indexing/pipeline.ts:718-728` | No id is lost by deduplication |
| `Symbols.DedupeIsDistinct` | `src/application/indexing/pipeline.ts:718-728` | No id is kept twice |
| `Symbols.DedupeKeepsTheFirst` | `src/application/indexing/pipeline.ts:718-728` | Of each id the first symbol is kept, and the kept ones stay in order |
| `Symbols.DedupeOfConcat` | `src/application/indexing/pipeline.ts:692-694` | Deduplicating two parts first makes no difference to deduplicating the whole |
| `Symbols.DedupeOfFlat` | `src/application/indexing/pipeline.ts:692-694` | Deduplicating file by file and then the flattened list gives what one pass over the list gives |
| `Symbols.OrdinalAllocator.Next` | `src/infrastructure/parsing/logical-key.ts:69-78` | Returns the number of earlier calls with this (name, kind) |
| `Symbols.AssignLogicalKeysLoop` | `src/infrastructure/parsing/extract-symbols.ts:417-435` | The loop gives each surviving symbol the key of the specification |
| `Symbols.KeysAreUniqueOrdinals` | `src/infrastructure/parsing/extract-symbols.ts:408-435` | Keys in a file are unique, and each ordinal is the number of earlier survivors with the same name and kind |
| `Symbols.KeysOfNameAndKind` | `src/infrastructure/parsing/logical-key.ts:61-68` | The symbols of one name and kind get the ordinals 0, 1, 2, ... in file order, wherever they stand |
| `Symbols.KeysSurviveEdits` | `src/infrastructure/parsing/logical-key.ts:61-68` | Moving symbols, or editing symbols of other names, never changes the keys of a name and kind |
| `Symbols.AppendingKeepsKeys` | `src/infrastructure/parsing/logical-key.ts:61-68` | Symbols added at the end of a file leave all earlier keys as they were |
| `AccessedKeys.AttachAccessedKeys` | `src/application/indexing/pipeline.ts:810-838` | Each symbol comes back with nothing but its keys changed: exactly the names read in it, each once, in first-seen order; or as it was, if none |
| `AccessedKeys.AttachedCarries` | `src/application/indexing/pipeline.ts:834-837` | The keys collected for an id reach the symbol with that id |
| `AccessedKeys.KeysReadAre` | `src/application/indexing/pipeline.ts:814-832` | A symbol gets each property name read inside it, once, and no other |
| `AccessedKeys.KeysReadGrow` | `src/application/indexing/pipeline.ts:818-831` | Names come in the order first seen: more hints only add at the end |
| `AccessedKeys.ReadsAreLocal` | `src/application/indexing/pipeline.ts:814-832` | What a symbol reads over all hints of a tree is what it reads over the hints of its own file |
| `DeltaStore.DeleteKeeps` | `src/infrastructure/persistence/ladybug-graph-adapter.ts:362-376` | In a sound store the detaching delete leaves exactly the rows of other files and the edges between them |
| `DeltaStore.PrefixIsPartial` | `src/application/indexing/pipeline.ts:434-501` | After any number of writes of a delta write the store is the kept rows, the first rows of the plan and the first edges that found both ends |
| `DeltaStore.CrashThenRerun` | `src/application/indexing/pipeline.ts:516-531` | From any sound store, a write that died after any of its steps, run again whole, leaves exactly the rows and edges the first run would have left |
| `DeltaStore.AnyCrashesThenRerun` | `src/application/indexing/pipeline.ts:516-531` | The same after any number of crashes |
| `DeltaStore.DeltaIsExactIff` | `src/application/indexing/pipeline.ts:372-389` | A delta write gives the rows of a full write into an empty store if and only if the rows it finds fit: right for untouched files, and none that is not rewritten for added files |
| `DeltaStore.DeltaEdges` | `src/application/indexing/pipeline.ts:434-438` | The edges after a delta write are those of a full write and the earlier ones that no deleted file had an end of; so every dropped edge that is still resolved is back |
| `DeltaStore.EdgesAreFullIff` | `src/application/indexing/pipeline.ts:363-389` | The edges are those of a full write if and only if every earlier edge away from the deleted files is still resolved |
| `IncrementalIndex.RowsAreLocal` | `src/application/indexing/pipeline.ts:906-934` | The row a run writes under a key depends on the parse of the key's file alone, folded property reads included |
| `IncrementalIndex.FullRowsAre` | `src/application/indexing/pipeline.ts:906-934` | A full index has one row per symbol, under its own key, and no others |
| `IncrementalIndex.FullEdgesAre` | `src/application/indexing/pipeline.ts:977-990` | A full index has exactly the resolved relationships from symbol to symbol, by the persisted keys of their ends |
| `IncrementalIndex.DeltaHolds` | `src/application/indexing/pipeline.ts:696-699` | A walked file is in the delete scope if and only if it changed, and in the insert scope if and only if it is not unchanged |
| `IncrementalIndex.DeltaElsewhere` | `src/application/indexing/pipeline.ts:696-699` | A file not walked is in the delete scope if and only if it was cached, and never in the insert scope |
| `IncrementalIndex.TableFits` | `src/application/indexing/pipeline.ts:372-389` | The table of the cached parses is always what the next delta write needs of the rows it finds |
| `IncrementalIndex.EpisodeGivesFullTable` | `src/application/indexing/pipeline.ts:516-531` | However often a run died, at whatever step, the attempt that completes ends in the table a full write into an empty store gives |
| `IncrementalIndex.EpisodeKeepsInv` | `src/application/indexing/pipeline.ts:516-531` | Between runs the cache is sound, the store is sound, and the table is that of the cached parses |
| `IncrementalIndex.TableOfFullParseIff` | `src/application/indexing/pipeline.ts:681-690` | The table of an incremental run is that of a full parse if and only if no walked file falls back to cached symbols |
| `IncrementalIndex.TheTableIsAlwaysFull` | `src/application/indexing/pipeline.ts:372-389` | Over any sequence of edits, upgrades, crashes and reruns from an empty store and cache, every run that persists ends in the table a full write of its symbols gives, accessedKeys included, and in that of a full parse if and only if no walked file falls back to symbols |
| `IncrementalIndex.TheTableIsFullIff` | `src/application/indexing/pipeline.ts:164-174` | The same with the runs over a tree without files or symbols, which leave the table as it was: full if and only if the run persists or the table was empty, and that of a full parse if and only if, besides, no walked file falls back |
| `ExtractedRows.FullTableTells` | `src/application/indexing/pipeline.ts:906-934` | The table of a full parse in terms of the extractor: every row has the name, kind, file and details of a finding in its file and exactly the property names read in it, and every finding has a row |
| `ExtractedRows.TheTableTells` | `src/application/indexing/pipeline.ts:372-389` | The same of the table after every persisting run of every history in which no walked file falls back |
| `ExtractedRows.HintsAreFound` | `src/application/indexing/pipeline.ts:692-714` | The hints handed to resolution are those found in the walked files, all of them and no others |
| `IncrementalIndex.EpisodeEdges` | `src/application/indexing/pipeline.ts:434-438` | After a run, crashes or not, the symbol-to-symbol edges are exactly those of a full write of its symbols and the earlier ones between two unchanged files |
| `IncrementalIndex.EdgesAreFullAndUnchanged` | `src/application/indexing/pipeline.ts:434-438` | The same at the end of every history |
| `IncrementalIndex.EdgesOfAFullRebuildIff` | `src/application/indexing/pipeline.ts:363-389` | If no walked file falls back, those are the edges of a full parse and the earlier ones between unchanged files, and nothing is stale if and only if each of the latter is still resolved |
| `CrashRecovery.RunIsFullIff` | `src/application/indexing/pipeline.ts:164-236` | From any sound store, a completing run ends in the full table if and only if the store serves it: for a run that persists, with the cached rows of every file taken as unchanged and no row of a file unknown to the cache that the run does not define; for a run over a tree without files or symbols, with no row at all |
| `CrashRecovery.SpoiledStaysIff` | `src/application/indexing/pipeline.ts:372-389` | A key whose row is not that of the cached parse is healed by a run that persists and saves its cache, unless its file was taken as unchanged, or is unknown to the cache with no such key in the tree |
| `CrashRecovery.InvIsBackIff` | `src/application/indexing/pipeline.ts:372-389` | After such a run everything is as if nothing had ever died if and only if its table is the full one |
| `CrashRecovery.CrashesThenOtherTreeIff` | `src/application/indexing/pipeline.ts:516-531` | Any number of runs over any trees, versions and resolutions that died anywhere, then a completing run over any other: the table is full if and only if what the last of them to reach each key left there, told from the trees alone, is what that run needs |
| `CrashRecovery.CrashThenOtherTreeIff` | `src/application/indexing/pipeline.ts:516-531` | For one crash after at least one write: before a run that persists, full if and only if each row the crash deleted, of a file now taken as unchanged, had been written back as cached, and each row it wrote for a file new to the cache is still defined; before any other run, if and only if no row is left |
| `CrashRecovery.SameTreeIsHarmless` | `src/application/indexing/pipeline.ts:516-522` | The same tree again meets that condition wherever the run died |
| `CrashRecovery.DiedAfterDeleteIff` | `src/application/indexing/pipeline.ts:434-438` | Died right after the delete: full if and only if no file that the next run takes to be unchanged lost a row, or, before a run that does not persist, every row was lost |
| `CrashRecovery.FourWaysToHarm` | `src/application/indexing/pipeline.ts:516-531` | Before a run that persists, a crash does harm in exactly four ways: a file restored, edited and edited back, new and taken away, or new and edited |
| `CrashRecovery.RevertAfterCrashKeepsTheEdit` | `src/application/indexing/pipeline.ts:516-531` | Of a changed file that is edited back, the table keeps exactly what the died run had written |
| `CrashRecovery.RevertAfterCrashLosesRows` | `src/application/indexing/pipeline.ts:516-531` | A changed file whose row was deleted and not yet written again, edited back before the next run, has lost that row when the next run completes |
| `CrashRecovery.RestoreAfterCrashLosesRows` | `src/application/indexing/pipeline.ts:696-699` | A file taken away before a run that died after it began to write, and put back before the next run, loses its rows, however far the died run had got |
| `CrashRecovery.RemovalAfterCrashLeavesRows` | `src/application/indexing/pipeline.ts:523-531` | A row written for a file new to the cache stays if the file is gone at the next run; a failed save of the cache is one such crash |
| `CrashRecovery.EditAfterCrashLeavesRows` | `src/application/indexing/pipeline.ts:696-699` | The same if the file is still there and no longer defines the key: added files are never in the delete scope |
| `Histories.AStaleEdgeIsReached` | `src/application/indexing/resolution/scope-resolver.ts:65-76` | Two completed runs from the empty store, with resolution by the first symbol of the name: the store ends with an edge that a full rebuild of the second tree does not have |
| `Histories.ARenameAfterACrashLeavesTheOldName` | `src/application/indexing/pipeline.ts:516-531` | A concrete first index that dies after one row, a rename, and a rerun that completes with the old name still in the table |
| `Histories.AnUndoneEditAfterACrashLosesTheRow` | `src/application/indexing/pipeline.ts:516-531` | A concrete index, an edit whose run dies after the delete, the edit undone, and a rerun that completes without the row |
| `Histories.AnEmptyTreeKeepsTheTable` | `src/application/indexing/pipeline.ts:164-174` | A concrete index, then a run over a tree with no files: the table keeps its row, where a full write has none |
| `IndexingRun.GraphStore.DeleteSymbolsByFilePaths` | `src/infrastructure/persistence/ladybug-graph-adapter.ts:362-376` | Removes exactly the rows of the files and the edges at them, and reports how many rows that were |
| `IndexingRun.GraphStore.CreateNode` | `src/infrastructure/persistence/ladybug-graph-adapter.ts:184-206` | Replaces or adds one whole row |
| `IndexingRun.GraphStore.CreateRelationship` | `src/infrastructure/persistence/ladybug-graph-adapter.ts:254-295` | Adds the edge if both ends are there, and is silent if not |
| `IndexingRun.MapIdsToKeys` | `src/application/indexing/pipeline.ts:363-365` | The map translates each id to the key of the symbol with that id and leaves every other endpoint alone |
| `IndexingRun.Persist` | `src/application/indexing/pipeline.ts:434-441` | The symbol rows and edges: succeeds if and only if every write does, and otherwise leaves exactly what the writes before the failing one did |
| `IndexingRun.RunIndexingPipeline` | `src/application/indexing/pipeline.ts:146-242` | A whole incremental run: nothing on an empty tree or no symbols; on a failing write a prefix of the writes and the old cache; else all writes and the next cache, or the old cache if its save fails, which is no error |
| `IndexingRun.RunAgainAfterCrash` | `src/application/indexing/pipeline.ts:516-531` | A run that threw and a second one over the same tree that completes and saves its cache leave together what one run would have left |
| `IndexingRun.RunElsewhereAfterCrash` | `src/application/indexing/pipeline.ts:516-531` | A run that threw and a second one over any tree that did not: the store is that of the crash theorems, and full exactly when they say so |
| `IndexingRun.IndexCache.Save` | `src/infrastructure/cache/file-index-cache.ts:60-83` | All of the next cache or nothing of it |
| `TracePath.ExpandNeighbours` | `src/application/querying/trace-path.ts:68-79` | Keeps exactly the neighbour rows that have an id |
| `TracePath.PrefixIsIgnored` | `src/application/querying/trace-path.ts:43-45` | Whatever the table prefix, an edge label is read from the part after its last underscore |
| `TracePath.DependsOnIsNeverReported` | `src/application/querying/trace-path.ts:53` | The DEPENDS_ON branch is never taken |
| `TracePath.LabelsAreReportedAs` | `src/application/querying/trace-path.ts:42-56` | Behind any prefix the seven labels are reported as their own types; a missing label is a call |
| `TracePath.OtherLabelsAreCalls` | `src/application/querying/trace-path.ts:42-56` | Every other label is reported as a call |
| `TracePath.Reconstruct` | `src/application/querying/trace-path.ts:141-157` | Following predecessors from the goal gives a real path of the goal's depth, and never takes the exit for a broken chain |
| `TracePath.BfsShortestPath` | `src/application/querying/trace-path.ts:118-165` | Returns a path of the graph within the bound that no walk from start to goal undercuts; returns null if and only if every walk is longer than the bound |
| `VerifyClaim.ClampTraceDepth` | `src/application/querying/trace-path.ts:100-105` | 20 for an absent, non-finite, below-1 or too large depth, and the floor of any other |
| `VerifyClaim.ExecuteTracePath` | `src/application/querying/trace-path.ts:179-217` | Resolution failures give nothing found; otherwise the result is a shortest path or proof that none is within the depth |
| `VerifyClaim.VerdictsFollowReachability` | `src/application/querying/verify-reach.ts:44-87` | After grading, a reachable claim is confirmed if and only if a path exists within the depth and refuted if and only if not; an independent claim is never confirmed |
| `VerifyClaim.VerifyClaim` | `src/application/querying/verify-reach.ts:33-88` | From resolution to graded verdict: the verdict is the one the graph decides, the confidence the one of its basis, and the evidence a shortest path, if there is one |
| `Levenshtein.LevenshteinDistance` | `src/application/querying/levenshtein.ts:17-39` | The two swapped rows compute the recurrence |
| `Levenshtein.DistanceIsShortestScript` | `src/application/querying/levenshtein.ts:28-33` | The number is the length of a shortest insert/delete/substitute script between the strings |
| `Levenshtein.ScriptOfDistance` | `src/application/querying/levenshtein.ts:28-33` | A script of that length exists, and is built |
| `Levenshtein.NoShorterScript` | `src/application/querying/levenshtein.ts:28-33` | No script between the strings is shorter |
| `Levenshtein.Symmetric` | `src/application/querying/levenshtein.ts:11` | The distance is symmetric |
| `Levenshtein.ZeroIffEqual` | `src/application/querying/levenshtein.ts:12` | The distance is zero exactly on equal strings |
| `Levenshtein.TriangleInequality` | `src/application/querying/levenshtein.ts:7-16` | The distance obeys the triangle inequality |
| `Chunking.ChunkByBudget` | `src/application/indexing/persistence-helpers.ts:89-139` | Throws exactly on the three bad inputs; else gives the greedy split, which obeys the rule, and reports each row that exceeds the budget by itself |
| `Chunking.GreedySplits` | `src/application/indexing/persistence-helpers.ts:111-138` | The greedy split obeys the rule on every input |
| `Chunking.GreedyUsesFewestChunks` | `src/application/indexing/persistence-helpers.ts:111-138` | No order-preserving split that obeys the same rule uses fewer chunks |
| `Chunking.GreedyLeavesNoRoom` | `src/application/indexing/persistence-helpers.ts:111-138` | No batch has room for the row that opens the next |
| `Chunking.TheOnlySplitWithNoRoom` | `src/application/indexing/persistence-helpers.ts:111-138` | The greedy split is the only one that obeys the rule and leaves no room |
| `Chunking.PayloadIsJsonLength` | `src/application/indexing/persistence-helpers.ts:85-88` | With the lengths of the serialized rows as sizes, the payload of a batch is the length of its JSON array |
| `Chunking.BytesRoundUp` | `src/application/indexing/persistence-helpers.ts:111-112` | A size is rounded up to the next whole byte |
| `AdaptiveWrite.WriteSplitting` | `src/application/indexing/persistence-helpers.ts:256-283` | The recursion over a stateful server has the specified effect, attempts and splits |
| `AdaptiveWrite.WritesAllOrAPrefix` | `src/application/indexing/persistence-helpers.ts:256-283` | Whatever the server answers: on success every row written once in order with 2*splits + 1 and at most 2n - 1 attempts; on failure a proper prefix written |
| `AdaptiveWrite.FailureIsTheLastTry` | `src/application/indexing/persistence-helpers.ts:256-283` | The write fails exactly as its last try did, and no try before was one to fail on: an error that is not about size is thrown at once, without a split |
| `AdaptiveWrite.HalvesAreEven` | `src/application/indexing/persistence-helpers.ts:274-282` | A rejected batch is split at the middle |
| `AdaptiveWrite.LimitServerExact` | `src/application/indexing/persistence-helpers.ts:268-282` | Against a server that rejects batches over a limit: success if and only if every row alone fits, else exactly the rows before the first unfit one were written |
| `AdaptiveWrite.LimitServerExactForGroups` | `src/application/indexing/persistence-helpers.ts:147-166` | A whole group against such a server: the rows before the first unfit one are written, all of them if and only if every row alone fits |
| `AdaptiveWrite.WriteGroup` | `src/application/indexing/persistence-helpers.ts:147-172` | Batched, the effect is that of the greedy chunks one after the other; either way each row is written and reported once on success, and on failure a proper prefix is written and no more reported |
| `AdaptiveWrite.WriteRows` | `src/application/indexing/persistence-helpers.ts:168-171` | The per-row path writes in order and reports what it wrote |
| `PersistRows.GroupEdges` | `src/application/indexing/pipeline.ts:981-987` | Relationships grouped by mapped type, types in order of first appearance, rows in order |
| `PersistRows.GroupsHoldEveryEdge` | `src/application/indexing/pipeline.ts:981-990` | The groups together hold the very rows of the relationships, as a multiset: none is lost or doubled |
| `PersistRows.PlanHolds` | `src/application/indexing/pipeline.ts:870-1015` | The plan holds exactly the rows that the results call for, each edge from its own source to its own target |
| `PersistRows.GroupsGrow` | `src/application/indexing/pipeline.ts:981-987` | Types come in the order first seen, and rows in the order of the relationships |
| `PersistRows.PlanMatchesCount` | `src/application/indexing/pipeline.ts:840-852` | The announced row count is the number of rows of all groups |
| `PersistRows.WriteGroups` | `src/application/indexing/pipeline.ts:906-1014` | All groups in order: on success every row written and reported; on failure a proper prefix of the rows written, and no more reported |
| `PersistRows.PersistAll` | `src/application/indexing/pipeline.ts:870-1015` | On success the rows reported equal countPersistRows, and each was written once, in plan order; on failure a proper prefix of the plan was written, and no more reported |
| `Complexity.ComputeComplexity` | `src/infrastructure/parsing/complexity.ts:189-239` | The explicit-stack walk computes the recursive definition on every tree |
| `Complexity.PushChildren` | `src/infrastructure/parsing/complexity.ts:232-235` | Pushing the children adds to the stack exactly what they contribute |
| `Complexity.SpecFor` | `src/infrastructure/parsing/complexity.ts:160-174` | For every language the loop types are decision types |
| `Complexity.MetricsAreBounded` | `src/infrastructure/parsing/complexity.ts:205-238` | With d decisions: d <= cognitive <= d(d+1)/2 and maxLoopDepth <= d |
| `Complexity.MetricsNodeByNode` | `src/infrastructure/parsing/complexity.ts:205-238` | The three numbers read off the descendants of the definition: one path for each point of decision, its cost by the branches around it, its depth by the loops around it |
| `Complexity.OperatorsThatCount` | `src/infrastructure/parsing/complexity.ts:18-150` | Which operators add a path, language by language |
| `Complexity.FallbackIsNotCyclomaticOnly` | `src/infrastructure/parsing/complexity.ts:18-20` | A language without full support still gets nesting costs and loop depth |
| `Watch.SingleFlight` | `src/apps/cli/executor.ts:294-308` | Over all histories at most one run is active, and a debounce timer is armed exactly while paths are pending |
| `Watch.RunsDoNotInterleave` | `src/apps/cli/executor.ts:311-320` | While a run is active, no event but its own end starts another |
| `Watch.StepQuiet` | `src/apps/cli/executor.ts:288-308` | Exactly one kind of step leaves work or waiters behind with no run in flight: a rejection that finds paths queued |
| `Watch.IdleWaitersAreNeverStranded` | `src/apps/cli/executor.ts:288-292` | If no run rejects, paths are queued and idle waiters wait only while a run is in flight |
| `Watch.RejectionStrandsWaiters` | `src/apps/cli/executor.ts:304-307` | A concrete history in which a rejected run strands a queued path and a waiter |
| `Watch.EveryChangeIsServed` | `src/infrastructure/watch/file-watcher.ts:91-116` | With the callback attached and the watcher open, every surviving change is pending, queued, or in a batch whose run started after it |
| `WatchRuns.RawDoes` | `src/infrastructure/watch/file-watcher.ts:106-116` | A change that is not ignored becomes pending and starts the timer, unless the watcher is closed |
| `WatchRuns.DebounceDoes` | `src/infrastructure/watch/file-watcher.ts:91-104` | The timer hands over all that is pending as one batch, run at once or queued behind the active run |
| `WatchRuns.RunEndsDoes` | `src/apps/cli/executor.ts:294-308` | The end of a run starts one more with all that was queued, or none |
| `WatchRuns.ChangesAreTheSurvivors` | `src/infrastructure/watch/file-watcher.ts:106-116` | The changes accounted for are exactly the events that are not ignored, up to the close, in order |
| `WatchRuns.OnlyChangesAreRun` | `src/infrastructure/watch/file-watcher.ts:91-116` | Nothing is ever run but paths that changed |
| `WatchRuns.AtRestAllIsServed` | `src/apps/cli/executor.ts:294-320` | Once nothing is pending or queued, every change has been in a run that started after it |
| `WatchRuns.WaitersAfter` | `src/apps/cli/executor.ts:288-324` | A step wakes waiters only if nothing is in flight or queued after it, and then all of them |
| `WatchRuns.WaitersAreSinceIdle` | `src/apps/cli/executor.ts:288-324` | Over all runs the open waiters are exactly the calls of whenIdle since all was last idle |
| `WatchClass.SingleFlightScheduler.Schedule` | `src/apps/cli/executor.ts:311-320` | Queues while a run is in flight, ignores nothing-to-do, else starts a run with the batch |
| `WatchClass.SingleFlightScheduler.OnRunEnds` | `src/apps/cli/executor.ts:298-307` | Drains the queue into one more run, or goes idle and wakes the waiters |
| `WatchClass.SingleFlightScheduler.OnRunRejects` | `src/apps/cli/executor.ts:304-307` | Leaves the loop through finally |
| `WatchClass.SingleFlightScheduler.WhenIdle` | `src/apps/cli/executor.ts:321-324` | Resolved at once exactly when idle, else one more waiter |
| `WatchClass.FileWatcher.OnRaw` | `src/infrastructure/watch/file-watcher.ts:106-116` | Drops events when closed, empty or ignored; else coalesces and arms the timer |
| `WatchClass.FileWatcher.Flush` | `src/infrastructure/watch/file-watcher.ts:91-104` | Hands over the pending paths as one batch |
| `WatchClass.FileWatcher.Close` | `src/infrastructure/watch/file-watcher.ts:122-131` | Idempotent; disarms and forgets |
| `WatchClass.FileWatcher.Deliver` | `src/infrastructure/watch/file-watcher.ts:91-132` | Any event on the two objects is the step of the machine and keeps its invariant |
| `EmbeddingCache.FileEmbeddingCache.GetEmbedding` | `src/infrastructure/cache/embedding-cache.ts:70-78` | A hit needs the hash and the dimension |
| `EmbeddingCache.FileEmbeddingCache.SetManyEntries` | `src/infrastructure/cache/embedding-cache.ts:80-93` | The loop and the eviction give the specified entries in the specified order |
| `EmbeddingCache.FileEmbeddingCache.PruneTo` | `src/infrastructure/cache/embedding-cache.ts:95-99` | Exactly the live entries stay, in order |
| `EmbeddingCache.FileEmbeddingCache.EvictToCap` | `src/infrastructure/cache/embedding-cache.ts:126-135` | The newest entries up to the cap stay, in order |
| `EmbeddingCache.SetManyKeepsTheMostRecent` | `src/infrastructure/cache/embedding-cache.ts:80-93` | After a setMany the cache holds the most recently written keys, up to the cap, in order of their last write |
| `EmbeddingCache.EvictingOncePerBatch` | `src/infrastructure/cache/embedding-cache.ts:83-92` | Evicting once per batch leaves the same entries in the same order as evicting after every write |
| `EmbeddingCache.BatchesCompose` | `src/infrastructure/cache/embedding-cache.ts:80-93` | Two batches in a row leave what one joint batch leaves |
| `EmbeddingCache.HitsAreTheLastStored` | `src/infrastructure/cache/embedding-cache.ts:70-99` | Over any history of writes and prunes of a loaded cache, a hit is the last embedding stored for the hash, in the history or else in the file, with the requested dimension |
| `EmbeddingCache.GetIff` | `src/infrastructure/cache/embedding-cache.ts:70-78` | A get answers with an embedding if and only if it is the entry's under the hash and has the requested dimension |
| `EmbeddingCache.NewestKeepsIff` | `src/infrastructure/cache/embedding-cache.ts:126-135` | Evicting keeps an entry if and only if fewer than the cap come after it |
| `EmbeddingCache.RecentWritesAreHits` | `src/infrastructure/cache/embedding-cache.ts:70-99` | Over any history, a hash with fewer than cap other keys written since its own last write, and live in every prune since, is a hit for its own dimension with the last embedding stored |
| `GraphReader.FetchPagedRows` | `src/application/export-render/graph-reader.ts:268-298` | Against any server: returns the whole table in order, or throws the error of its last query; a bad page size throws at once |
| `GraphReader.QueriesEnd` | `src/application/export-render/graph-reader.ts:281-297` | The read ends, within rows left plus page size queries, and only the last can be fatal |
| `GraphReader.QueriesFollow` | `src/application/export-render/graph-reader.ts:281-297` | Each query follows from the reply before it: another error ends the read at once at any page size, a page too large is halved or ends it at one row, a full page leads to the next |
| `GraphReader.SingleRowsSuffice` | `src/application/export-render/graph-reader.ts:291-296` | A server that serves single rows and raises no other error never stops the read |

## Left out

- Tree-sitter queries and symbol extraction, among them the structural fallback that numbers symbols before any dedup: extraction is a parameter.
- Reference resolution, clustering, process tracing and search: resolution is a parameter, the others produce rows that are only counted and written.
- Symbol ids, logical keys and content hashes as strings: ids and keys are tuples of their parts, so joining with `:` or NUL and SHA-1 are taken as injective, and so is the content hash.
- Vectors, cluster, process and external-dependency rows under a delta write: they are upserted or filtered by file like symbol rows but not deleted with them, so equality with a full rebuild is not what the code gives.
- `--full` runs on an existing store: they neither delete rows nor save the cache, so the theorems speak of incremental runs.
- Edits to the tree while a run is reading it, and the order in which the parse cache lists removed files.
- The order of edge writes by type in a delta write: the results hold for every order; the grouping itself is in PersistRows.
- IndexingRun.GraphStore.DeleteSymbolsByFilePaths: does not model the short cut for an empty list, which matches nothing either way.
- IndexingRun.Persist: does not model the vector, cluster, process and external-dependency writes between those of symbols and edges.
- Wall-clock values, log lines, metrics and progress: timers are events that may come while armed.
- Worker pool: `destroy`, a `postMessage` that throws, and `outstanding`, which the program never reads; result frames whose value is null, which the type rules out.
- Scheduler: the constructor's two argument errors (its bounds are required to be positive), an `execute` that throws before it returns a promise, and repeated request ids.
- Watch mode: the file system backend, the ignore rules and path normalisation are the parameters `ignored` and `path` of an event.
- Trace paths: symbol resolution, the display fields of hops and the texts of reasons and counterexamples.
- VerifyClaim.ClampTraceDepth: NaN and the infinities are one case, as the code sends them to the same branch.
- Chunking.ChunkByBudget: sizes are reals, so a `sizeOf` that returns NaN or an infinity is not modelled; negative sizes are.
- AdaptiveWrite.WriteGroup: the messages and causes of rethrown errors are not modelled.
- Embedding cache: loading and flushing the file.
- Graph reader: the text of the queries; the table does not change during a read.
- `ConnectionPool`, MCP tools, exports, configuration, impact analysis, dead-code search and regex heuristics: no hard guarantee that holds of the code, or work done inside query text.
