# Verified model of gpbackup and gprestore

A Dafny 4.11 model of the algorithms and protocols in gpbackup, gprestore and their segment helper
`gpbackup_helper`, with proofs about every input, every run and every interleaving. `dafny verify dfyconfig.toml`
verifies all of it.

The program is mostly catalog queries and SQL text; what is modelled is where it computes, orders or synchronizes:

- **Dependency sort** (`DependencyGraph`, `Cohorts`, `DependencySort`, `CircularDependencies`): the layered sort of
  metadata objects, its depth tiers, and the cohorts that `mergeCohorts` relabels in place. The sort succeeds exactly
  on closed, acyclic dependencies; tiers are longest dependency chains; cohorts are connected components.
- **Parallel pre-data restore** (`StatementSchedule`, `PredataRestore`, `TierGaps`): batching by tier, pinning cohorts to
  connections, a transition system for all interleavings of the connections, and which restores the tier loop completes.
- **Restore pipes** (`OidLists`, `CopyPipes`, `PipeReadiness`): COPY workers, segment processes and one restore helper
  per segment, which meet on named pipes, with COPYs that fail at any time and the skip files they leave. No run
  deadlocks, every run ends, every other table is copied, and a worker none of whose COPYs fails finds its pipes.
- **The restore helper's loop** (`RestoreWindow`, `SegmentToc`, `BackupHelper`, `RestoreHelper`, `BackupRestore`): the
  window of pipes under skipped tables, the position of every reader and the bytes written to every pipe under skips and
  failed copies, and the byte round trip from the backup helper's file to each pipe.
- **Parallel backup** (`BackupData`, `BackupPipes`): workers, lock deferral to worker 0, and the pipes of a single data
  file.
- **Incremental backups** (`Incremental`): restore plans over chains of backups.
- **Cluster resize** (`Resize`): which segment loads which content in which batch, and row counts.
- **Smaller loops**: index order (`IndexOrder`), table dependencies (`TableDepend`), rows of coordinator-only tables
  (`QdOnlyRows`), the savepoints around migration checks (`Savepoints`). `Collections` holds shared facts.

Go maps are iterated in an arbitrary order, so every loop over a map picks its next element by an assign-such-that
statement, and the result is proved for any choice. Channels, goroutines and pipes are states of transition systems: a
run is a sequence of states, each reached from the one before by one move of some participant. Catalog query results,
lock conflicts, and which COPYs and statements fail, are inputs.

## Where a promise holds only under a condition

Each of these is proved in both directions, or with the condition and an input that breaks it.

- The tier loop counts from 1 to the number of tiers (restore/restore.go:342-344), so it runs every statement if and
  only if no tier number is skipped (`EveryStatementPlannedIffGapFree`, `GapLosesStatement`). Constraints are sorted and
  get a tier (backup/wrappers.go:293), but their statements are post-data (backup/queries_shared.go:87-88), so even a
  restore of everything can have a gap: it has none if and only if no tier below another object's holds only constraints
  (`UnfilteredGapFreeIffCovered`), in particular if nothing but constraints depends on one
  (`NothingOnConstraintsIsGapFree`). With a table, its primary key and a view that depends on the key, the view is
  never created (`RestoreViewOnPrimaryKey`).
- A comment at restore/restore.go:347 says that connection 0 is reserved during parallel restores, but
  `findLeastBusyConn` may choose it (restore/parallel.go:80-90, counts seeded from 0 at 97-99). The first cohort of a
  tier always goes to connection 1 (`FirstCohortOnOne`). Connection 0 is left alone in every schedule if and only if
  there is at most one cohort, and gets statements in every schedule if and only if there are at least as many cohorts
  as connections (`ConnZeroIff`). The model follows the code.
- When a restore helper skips a table it deletes as many pipes as its window is wide (helper/restore_helper.go:401-406),
  so a pipe is left behind if and only if the table has an item just beyond that (`NothingLeftIff`). This happens with a
  window of one pipe and several batches (`NarrowWindowLeavesPipe`), never with a single data file
  (`WideWindowLeavesNothing`).
- Skipping a table drops its bytes from the subset streams of all later batches (helper/restore_helper.go:390-398). A
  reader stays in place if and only if the table is listed for that batch or has no bytes there (`SkipStaysInPlace`), and
  a later item finds its own bytes if and only if no skip before it went wrong in that way (`OwnBytesIff`). A skipped
  replicated table, listed for the first batch only, does so wherever it has bytes: in the second batch the next table
  gets its data without as many of the first bytes, and its copy fails (`ServeSkippedReplicated`, and
  `ServeOneByteEach` for a concrete input).
- Where COPYs fail, every COPY finds its pipe at once in all runs if and only if every table starts among the pipes
  created before the helpers start (`PipeReadiness.AlwaysReadyIff`); otherwise a worker can get ahead of the helpers by
  failing, and its next COPY waits for its pipe (restore/data.go:45). No run gets stuck by that.
- With a snapshot but no worker besides worker 0 the backup would wait forever (`UnstaffedHangs`); otherwise it always
  completes. backup/wrappers.go:57-66 always opens a second connection.
- Every COPY of a single-data-file backup finds its pipe in every run if and only if there is no snapshot, in which case
  a worker that defers a table exits, or there are no more tables than connections (`BackupPipes.AlwaysReadyIff`).
  Otherwise it still does as long as at most one deferred table waits for worker 0 (`PipeReady`), and a worker that
  defers two tables can get ahead of the pipes (`DeferralOutrunsPipes`).
- A new append-optimized table whose modcount and timestamp are zero looks unchanged (backup/incremental.go:24-28) and
  enters no restore plan (`ZeroEntryIsLost`). A backup keeps the plan complete if and only if it has no such table
  (`CoversIff`).
- The row check of a replicated table on a smaller cluster compares quotients, so it also accepts more rows than a full
  copy per segment, by less than one row per segment (`ReplicatedTableAgrees`).
- RESET sets track_counts to the session's default, which is its earlier value if and only if the two are equal
  (`ResetIsNotRestore`).

## Model

| member | source | states |
|---|---|---|
| DependencySort.TopologicalSort | backup/dependencies.go:82-145 | The sort succeeds if and only if every dependency is in the slice and there is no cycle; the result is then a permutation with dependencies first, depth tiers are the longest dependency chains and use exactly 1..k, and cohorts are the connected components, numbered exactly 1..m |
| DependencySort.CountDependencies | backup/dependencies.go:93-107 | The counting loop leaves each object's number of dependencies, its position, the reverse of the dependency map and the objects without dependencies, for any map order |
| DependencySort.SortTier | backup/dependencies.go:108-121 | One tier of the sort appends the whole queue, gives it the current tier, and makes the next tier exactly the objects whose last open dependency was in it |
| DependencySort.LayersAreDepths | backup/dependencies.go:108-128 | In a finished sort the tier of an object is the number of objects in the longest dependency chain from it |
| DependencySort.StuckMeansUnsortable | backup/dependencies.go:129-142 | When objects remain and none is ready, the dependencies are not closed or not acyclic |
| DependencyGraph.LayeredIsDepth | backup/dependencies.go:108-128 | An assignment one above the highest dependency is the longest-chain depth, and exists only for closed acyclic relations |
| Cohorts.CohortTable.MergeCohorts | backup/dependencies.go:147-171 | Merging moves exactly the objects of the higher number to the lower one, removes the higher number, and keeps the two maps mutual inverses with no empty cohort |
| Cohorts.RelabelKeepsInverse | backup/dependencies.go:147-171 | Relabelling one number in the object map and uniting its set with another's keeps the maps mutual inverses |
| Cohorts.JoinAll | backup/dependencies.go:196-217 | Joining an object with all of its dependencies, in any order, puts them in one cohort, splits no cohort, and joins only connected objects |
| Cohorts.JoinedCohortsAreComponents | backup/dependencies.go:196-217 | If every object shares its cohort with its dependencies and cohorts join only connected objects, then two objects share a cohort if and only if they are connected |
| Cohorts.SortedAtLeast | backup/dependencies.go:218-232 | The i-th smallest cohort number is at least i, so that each target number is free when it is used |
| Cohorts.Renumber | backup/dependencies.go:218-232 | Renumbering uses exactly 1..k with k the number of cohorts, and neither merges nor splits any |
| Cohorts.RenumberedSamePartition | backup/dependencies.go:218-232 | Giving the i-th smallest number the value i keeps exactly the same objects together |
| Cohorts.AssignCohorts | backup/dependencies.go:179-241 | Two objects get the same cohort if and only if they are in one component of the undirected dependency graph; depths stay as they were |
| CircularDependencies.BreakCircularDependencies | backup/dependencies.go:351-365 | Exactly the dependencies of functions (class 1255) on types (class 1247) that depend on them in turn are removed, whatever the map order, and no entry is left with nothing |
| CircularDependencies.AcyclicAfterCutsIff | backup/dependencies.go:351-365 | After the cuts the dependencies are acyclic if and only if every cycle went over a cut one |
| CircularDependencies.GetDependencies | backup/dependencies.go:323-349 | Of the catalog's dependency rows exactly those between two different objects of the backup are kept, less those of a function on a type that depends on it in turn |
| CircularDependencies.SortObjects | backup/wrappers.go:624-627 | Whatever rows the catalog has, the objects of a backup can be sorted if and only if every cycle among their dependencies goes over a cut one; every kept dependency then comes before what depends on it, and so does a function before the type that it is cut from, and tiers and cohorts are right for the dependencies left |
| StatementSchedule.BatchPredataStatements | restore/parallel.go:273-301 | A statement whose tier is missing or 0 is in the first group if no statement before it has a positive tier, else in the last; one with a positive tier is in the group of that tier; all groups are in file order, and a missing tier becomes 0, 0 |
| StatementSchedule.FindLeastBusyConn | restore/parallel.go:80-90 | The connection chosen has the least statements of all, connection 0 included, and connection 1 is given up only for one that has strictly less |
| StatementSchedule.EveryLeastBusyCanBeChosen | restore/parallel.go:80-90 | For every connection that qualifies there is an order of the map in which the scan ends with it |
| StatementSchedule.ScheduleStatementsOnWorkers | restore/parallel.go:92-123 | Each connection gets exactly the statements whose cohort, the second number of their tier, is pinned to it, in file order, and every cohort was pinned to a connection that the scan can choose from the counts at the time the cohort was first met |
| StatementSchedule.FirstCohortOnOne | restore/parallel.go:80-104 | The first cohort of a tier is pinned to connection 1 |
| StatementSchedule.ConnZeroIff | restore/restore.go:347 | Connection 0 gets no statement in any schedule if and only if there is at most one cohort, and gets one in every schedule if and only if there are at least as many cohorts as connections |
| StatementSchedule.DistinctCohortsDistinctConns | restore/parallel.go:92-123 | With at most as many cohorts as connections no two cohorts share a connection |
| PredataRestore.PlanPredata | restore/restore.go:331-364 | The phases of a parallel restore, in terms of the list: statements without a positive tier first or last, on connection 0, and the statements of each tier up to the count of tiers shared by the connections, each in file order; a list without tiers is planned completely, in file order, in the first phase |
| PredataRestore.LanesBag | restore/parallel.go:92-123 | Splitting a tier over connections neither loses nor repeats a statement |
| PredataRestore.EveryStatementPlannedIffGapFree | restore/restore.go:342-360 | The plan executes every statement as often as listed if and only if no tier number below a used one is unused |
| PredataRestore.GapLosesStatement | restore/restore.go:342-344 | With tiers 1 and 3 only, the statement of tier 3 is never executed |
| TierGaps.GapFreeIffPrinted | restore/restore.go:342-360 | No tier number is skipped if and only if the sorted objects that have a pre-data statement skip no depth |
| TierGaps.ClosedRestoreIsGapFree | restore/restore.go:342-360 | No tier number is skipped if no object with a pre-data statement depends on one without |
| TierGaps.UnfilteredGapFreeIffCovered | backup/dependencies.go:417-420 | If all sorted objects but the constraints (class 2606) have pre-data statements, no tier number is skipped if and only if every constraint below another object has one that is not a constraint in its tier |
| TierGaps.NothingOnConstraintsIsGapFree | backup/dependencies.go:417-420 | In particular none is skipped if no object but a constraint depends on a constraint |
| TierGaps.RestoreViewOnPrimaryKey | backup/dependencies.go:432-454 | Sorting a table, its key and a view that depends on the key, and restoring all their pre-data statements in parallel, never runs the statement of the view |
| PredataRestore.RunKeepsInv | restore/parallel.go:129-178 | In every interleaving what has finished, runs and waits is together what the phases so far hold, and connections run statements of their own lane only |
| PredataRestore.LaneRunsInOrder | restore/parallel.go:129-178 | In every interleaving a connection runs the statements of its lane one by one, in the order of the lane |
| PredataRestore.NeverStuck | restore/parallel.go:129-178 | A run that is not complete can go on |
| PredataRestore.EveryMoveProgresses | restore/parallel.go:129-178 | Every move enters a later phase or leaves less work in the current one |
| PredataRestore.CompletedRunExecutesAllIffGapFree | restore/restore.go:331-364 | A complete run has executed exactly the statements of the file, each as often as listed, if and only if no tier was skipped |
| PredataRestore.DependenciesFinishFirst | restore/restore.go:342-360 | Whenever a statement of a sorted object runs, every statement of every object it depends on has finished, in every interleaving |
| PredataRestore.ConcurrentStatementsUnrelated | restore/parallel.go:92-178 | Statements running at the same time on two connections never belong to objects of one dependency component |
| OidLists.BuildOidList | restore/data.go:234-247 | The list built for a helper is the tables of its stride with all their batches, one batch for a replicated table |
| OidLists.OidListAt | restore/data.go:234-247 | In the single helper's list batch b of table t stands b places after the batches of all earlier tables |
| PipeReadiness.HelperServesItsWorker | restore/data.go:226-237 | With a helper for every connection that gets a table, the list of a helper is exactly the walk of the worker on that connection, and the two are an instance of the protocol with one connection and a window of one pipe that is wide enough |
| CopyPipes.AfterCopyMoves | restore/data.go:290-317 | Going on in stride skips none of a worker's items and gets at most one round of the other workers ahead |
| CopyPipes.AfterTableMoves | restore/data.go:290-336 | Going on to the next table after a failure skips only the batches of the table that failed |
| CopyPipes.RunKeepsInv | helper/restore_helper.go:311-475 | In every run, whichever COPYs fail, the pipes of a helper are exactly those from its item to the last one created, less those of the table it skips; of the tables without a skip file it is done with exactly the items whose workers are past them on its segment; and what a worker is past is copied or has a skip file on every segment |
| CopyPipes.NeverStuck | restore/data.go:278-341 | In every reachable state that is not complete some participant can move without another COPY failing, for any number of segments and workers |
| CopyPipes.StepWorks | restore/data.go:278-341 | Every move leaves less work |
| CopyPipes.EveryRunCompletes | restore/data.go:278-341 | Every run ends, whichever COPYs fail and whenever; one that can go on only by another failure has taken all workers through their tables and all helpers through their lists, with no pipe left if a skip reaches all batches of a table, and every item copied or its table given up on every segment |
| CopyPipes.SkippedOnlyIfFailed | restore/data.go:119-127 | A table has a skip file only if one of its COPYs has failed in the run |
| CopyPipes.OthersAreCopied | restore/data.go:119-127 | In a complete run every item of a table none of whose COPYs failed is copied |
| PipeReadiness.PipeReadyWhenIssued | restore/data.go:40-45 | As long as none of its own COPYs fails, the pipe of every COPY a worker issues exists on every segment from then until that segment is done with it, whatever happens to other workers |
| PipeReadiness.AlwaysReadyIff | restore/data.go:359-373 | Whichever COPYs fail, every COPY finds its pipe at once in all runs if and only if every table starts among the first pipes |
| PipeReadiness.InitialPipesAreEnough | restore/data.go:359-373 | Creating min(connections * batches, items) pipes at the start is enough for that |
| RestoreWindow.OidListWellFormed | restore/data.go:234-247 | The list sent to a helper has the batches of each table next to each other and in order |
| RestoreWindow.CreateAhead | helper/restore_helper.go:321-339 | A pipe that is created does not exist yet |
| RestoreWindow.Serve | helper/restore_helper.go:372-428 | A pipe that is opened exists, and deleting it moves the window on by one |
| RestoreWindow.SkipHere | helper/restore_helper.go:384-407 | Skipping a table removes its pipes within the window and leaves at most the one just beyond it |
| RestoreWindow.DeletedAreSkipped | helper/restore_helper.go:401-406 | The pipes removed are those the protocol of helpers and workers takes away in a skip |
| RestoreWindow.NothingLeftIff | helper/restore_helper.go:321-475 | After the loop no pipe is left if and only if no skipped table has the item just beyond the window of its skip |
| RestoreWindow.WideWindowLeavesNothing | restore/data.go:364-368 | With a window as wide as the batches, or the list, every pipe that exists is one of the window, whatever is skipped |
| RestoreWindow.WindowSize | helper/restore_helper.go:321-339 | Then there are never more than one pipe more than the window is wide |
| RestoreWindow.NarrowWindowLeavesPipe | helper/restore_helper.go:401-406 | With a window of one, skipping the first of two batches leaves the second's pipe behind |
| BackupHelper.DoBackupAgent | helper/backup_helper.go:43-88 | The file is the tables' data one after the other without gaps, and the recorded range of every table holds exactly its data |
| BackupHelper.InOrder | helper/backup_helper.go:79-81 | The ranges of two tables do not overlap and are in the order the tables were backed up |
| RestoreHelper.DataReader.PositionReader | helper/restore_helper.go:86-106 | Seekable and discarding readers move forward by the distance asked for, subset readers stay; only discarding past the end fails |
| RestoreHelper.DataReader.DiscardData | helper/restore_helper.go:108-128 | All the bytes are dropped, or the reader is marked as lost for good |
| RestoreHelper.DataReader.CopyData | helper/restore_helper.go:130-157 | A copy writes the next bytes of the stream, as far as the pipe and the stream last, and is complete if that is all of them; a failed one moves by what it reports, except that a subset reader that may continue ends up past the whole range or lost |
| RestoreHelper.SubsetStreamAt | helper/restore_helper.go:712-725 | In the stream of the requested ranges the data of a table is found after the lengths of the ranges requested before it |
| RestoreHelper.RunOffset | helper/restore_helper.go:384-407 | Passing over all items of a skipped table passes its bytes in the streams of those batches that list it |
| RestoreHelper.SkipStaysInPlace | helper/restore_helper.go:390-398 | After discarding a skipped table's bytes a subset reader that was in place is in place for the item after the table, and not lost, if and only if the table is listed for its batch or has no bytes there |
| RestoreHelper.AtOwnDataIff | helper/restore_helper.go:390-398 | An item with bytes finds its reader at its own bytes if and only if no skip before it dropped bytes that the stream does not contain |
| RestoreHelper.UpsetStreamRunsOut | helper/restore_helper.go:130-157 | After such a skip the last table with bytes of that batch gets its data without as many of the first bytes as were dropped by mistake, or nothing if the stream is lost, and its copy fails |
| RestoreHelper.UnshiftedGetsItsData | helper/restore_helper.go:130-157 | Without such a skip, and unless the stream is lost, what is written to the pipe of an item is the data of its table as far as the copy gets, and there is enough of it in the stream |
| RestoreHelper.ServeItem | helper/restore_helper.go:433-470 | The start of an item is never before the recorded last byte, positioning succeeds, and the last byte recorded is where the reader stands |
| RestoreHelper.BrokenWritesFirst | helper/restore_helper.go:130-157 | A pipe that breaks after k bytes of its item has been written the k bytes its reader is at, and its copy fails |
| RestoreHelper.UnbrokenWritesAll | helper/restore_helper.go:130-157 | One that does not break before the last byte is written all bytes of its item, if there are that many left, and its copy is complete |
| RestoreHelper.ServeNext | helper/restore_helper.go:346-470 | Serving an item writes to its pipe what Sent says, also where the copy fails, and leaves the reader of every content where it should be for its next table |
| RestoreHelper.StaysAhead | helper/restore_helper.go:440 | No table still to come starts before the last byte of its content, whatever failed, so the distance never underflows |
| RestoreHelper.ServeList | helper/restore_helper.go:311-504 | For any pattern of skips, failed copies and failed discards: the pipes left are exactly those described, the loop stops early only at an error it may not survive, and to every pipe are written exactly the bytes its reader is at, as far as the copy gets: none if its table is skipped or its stream is lost, and the rest of the stream if that runs out |
| BackupRestore.BackupFits | helper/backup_helper.go:43-88 | For any subset of the tables in backup order the recorded entries fit the list, and each range holds the table's data |
| BackupRestore.RoundTrip | helper/restore_helper.go:346-470 | Unless a skip has upset its stream, a complete copy writes to the pipe of an item what its table had on the content of that item when it was backed up, and a failed one no other bytes than the first of these; a batch beyond the contents of the backup gets nothing |
| BackupRestore.OwnBytesIff | helper/restore_helper.go:384-470 | Where tables are skipped and nothing else goes wrong, an item with bytes that is not skipped gets its own bytes if and only if no skip before it has upset its stream |
| BackupRestore.QuietRunDeliversAll | helper/restore_helper.go:311-475 | With no skip and no failed copy every pipe gets its data |
| BackupRestore.OneBatchStaysAligned | helper/restore_helper.go:384-407 | With one batch no skip ever upsets a stream |
| BackupRestore.ServeSkippedReplicated | helper/restore_helper.go:390-398 | Run on any replicated table that is skipped before a distributed one, the loop gives the second table its data in the first batch, and in the second batch its data without as many of the first bytes as the skipped table has there, in a copy that fails |
| BackupRestore.ServeOneByteEach | helper/restore_helper.go:390-398 | The same on a concrete list, with one byte of each table |
| BackupData.StepKeepsInv | backup/data.go:219-292 | Every move keeps what is known of each table from its state, its holder and the row maps |
| BackupData.NeverStuck | backup/data.go:308-373 | With a worker or without a snapshot, every reachable unfinished state has a move |
| BackupData.StepWorks | backup/data.go:219-373 | Every move but waiting leaves less work |
| BackupData.EveryRunCompletes | backup/data.go:164-381 | Every run ends, and one that cannot go on has all tables complete, each copied by exactly one COPY: by worker 0 if and only if the worker that took it could not lock it or no worker ever took it, and by the worker that took it otherwise |
| BackupData.UnstaffedHangs | backup/data.go:308-373 | With a snapshot, tables and no further worker, nothing ever becomes deferred and the backup waits forever |
| BackupData.AddTableDataEntriesToTOC | backup/data.go:44-58 | One entry for each table with data, in order, with the count of the first connection, worker 0 included, that has one, and 0 if none has |
| BackupData.CountIsTheCopys | backup/data.go:44-58 | After a complete run the first count found for a table is the one returned by its one COPY |
| BackupData.EntriesHaveTheCopysCounts | backup/data.go:44-58 | After a complete run every entry has the count returned by the one COPY of its table, also where worker 0 made it |
| BackupData.ZeroCountIff | backup/data.go:44-58 | A count is 0 if and only if no connection has one for the table or the first that has one has 0 |
| BackupPipes.IdleWorkerBounds | backup/data.go:219-292 | While a worker is idle the tables taken whose pipe a helper has not opened are with the other workers or, with a snapshot, deferred, which bounds how far the queue is ahead |
| BackupPipes.PipeReady | backup/backup.go:680-692 | The pipe a COPY tests for exists on every segment until the helper there has opened it, in every run without a snapshot, with no more tables than connections, or with at most one deferred table waiting at a time |
| BackupPipes.AlwaysReadyIff | backup/data.go:80-81 | It does so in all runs if and only if there is no snapshot or there are no more tables than connections |
| BackupPipes.NeverStuck | helper/backup_helper.go:43-88 | Every reachable unfinished state has a move, whatever is deferred |
| BackupPipes.EveryRunCompletes | helper/backup_helper.go:43-88 | Every run ends, with every table copied once, every pipe created once, deleted once, and none left |
| BackupPipes.DeferralOutrunsPipes | backup/data.go:269-277 | For all numbers of tables, connections and segments with a snapshot and more tables than connections there is a run in which a worker defers two tables and issues the COPY of a third whose pipe does not exist |
| Incremental.FilterTablesForIncremental | backup/incremental.go:16-32 | Keeps, in order, exactly the tables that are not append-optimized or whose entry differs from the previous one, a missing one reading as zero |
| Incremental.UnchangedIsNotStored | backup/incremental.go:16-32 | A table with the entry of the last backup is not stored again |
| Incremental.PopulateRestorePlan | backup/incremental.go:134-171 | Older entries lose the tables stored now and those that no longer exist; a new entry holds the tables stored now |
| Incremental.PlanListsSources | backup/backup.go:155-167 | Over any chain, the plan lists a table under exactly one backup: the last that stored it since it has existed |
| Incremental.UnchangedSinceSource | backup/incremental.go:16-32 | Since that backup the table has been in every backup with the modcount and DDL timestamp it has now |
| Incremental.CoversIff | backup/incremental.go:24-28 | A backup keeps the plan complete if and only if no table new to it looks unchanged |
| Incremental.ChainCovers | backup/incremental.go:16-32 | If no backup of a chain has such a table, the last plan covers exactly the current tables |
| Incremental.NonZeroEntriesSuffice | backup/incremental.go:24-28 | Entries other than zero are enough for that |
| Incremental.ZeroEntryIsLost | backup/incremental.go:24-28 | A new append-optimized table with the zero entry is in no entry of the plan |
| Incremental.GetDataEntriesMatching | toc/toc.go:264-297 | Selects, in order, exactly the entries named in the plan whose schema and table are admitted: with an include list those named in it, else those not in the exclude list; a leaf partition is named by itself or by its root |
| Incremental.NamedByItself | toc/toc.go:249-262 | Where names are distinct, an entry is named in a list if and only if its own name or its own partition root is |
| Incremental.RestoredFromSource | restore/restore.go:649-657 | Over the tables of contents of all backups of a chain, a restore without filters takes a table that has a source exactly once, from its source, and no other table |
| Incremental.RestoresAllIffCovers | restore/restore.go:649-657 | It takes only current tables, and all of them if and only if the plan covers them |
| Resize.GetResizeClusterInfo | restore/remote.go:117-135 | The sizes of both clusters, an unknown original size read as the current one, and one batch unless a resize is to fewer segments, and then as many as hold all contents and no more |
| Resize.BatchesSuffice | restore/remote.go:126-132 | All contents fit into that many batches, and not into one less |
| Resize.EachContentLoadedOnce | helper/restore_helper.go:315 | Every content of the backup is loaded by exactly one segment in exactly one batch, and nothing else is |
| Resize.RowsConserved | restore/data.go:84-130 | The rows loaded by all segments over all batches are the rows of all contents |
| Resize.RestoreSingleTableData | restore/data.go:132-146 | The check passes if and only if the counts agree, for a replicated table on a smaller cluster after dividing each by the size of its cluster |
| Resize.DistributedTableAgrees | restore/data.go:132-146 | A distributed table passes if and only if exactly the rows of all batches were restored |
| Resize.ReplicatedTableAgrees | restore/data.go:136-141 | A replicated table passes if and only if the rows restored are those of a full copy per segment, or more by less than one row per segment |
| Resize.ContentsAreThoseRead | restore/remote.go:44-48 | The contents whose files a segment is checked for are those its helper reads, batch by batch |
| Resize.ContentMap | restore/remote.go:44-48 | Each segment is assigned exactly its contents, in order |
| Resize.BatchMap | restore/remote.go:73-76 | The number of files expected on a segment is the number per content times its contents |
| IndexOrder.Climb | backup/queries_postdata.go:221-234 | The inner loop ends on any parent map and stacks indexes not visited before, each the parent of the one below it |
| IndexOrder.SortIndexes | backup/queries_postdata.go:213-248 | Every index is emitted exactly once, with the schema and name of its parent if that is in the map, and if no index is its own ancestor every parent in the map comes before its children |
| IndexOrder.ParentsFirstOnlyIfAcyclic | backup/queries_postdata.go:210-213 | There is such an order only if no index is its own ancestor |
| TableDepend.RecurseTableDepend | options/options.go:305-341 | The loop ends and returns, without duplicates, exactly the tables reachable from those included, which is the smallest set that has those and everything the relation gives for its members |
| TableDepend.WalkStaysInside | options/options.go:305-333 | What can be reached stays inside any set that is closed under the relation |
| QdOnlyRows.FileWithByteCount.MustPrint | utils/io.go:77-87 | The byte count is always the number of bytes written |
| QdOnlyRows.FileWithByteCount.MustPrintln | utils/io.go:71-75 | A line and its newline are written and counted |
| QdOnlyRows.BackupQDOnlyData | backup/backup.go:351-372 | The range recorded for every table, split apart, is its column names, overriding clause and `VALUES(row);` for every row, in order, also after everything printed later; the comment comes before all rows, if there are any |
| QdOnlyRows.InsertStatements | restore/restore.go:464-478 | The statement read becomes one line `INSERT INTO schema.name part` for each part, in order; an empty one stays empty |
| QdOnlyRows.RowsComeBack | restore/restore.go:473 | Reading the recorded range, trimming and splitting gives back exactly the texts printed, each with its row in it, in order, whatever the rows contain besides NUL bytes |
| QdOnlyRows.BytesDetermineRows | restore/restore.go:473 | Two tables with the same columns and the same recorded bytes have the same rows |
| QdOnlyRows.SplitRejoins | restore/restore.go:473 | Putting the separator back between the parts gives the text that was split |
| QdOnlyRows.TrimsAll | restore/restore.go:473 | Trimming cuts off NUL bytes and newlines only, and leaves none at the end |
| QdOnlyRows.NoRowsNoStatement | restore/restore.go:468-470 | The statement read is empty if and only if the table had no rows |
| Savepoints.RunMigrationCheck | checkmigrate/checks.go:358-421 | Whenever later checks may run, the transaction is not aborted, its savepoints are as before, and track_counts has its earlier value or, after a completed check that disables it, the session's default; exactly when they may run is stated too |
| Savepoints.RunMigrationCheckPlan | checkmigrate/checks.go:423-457 | If all checks had their turn, the summary is exactly the sum of theirs, completed, failed and unavailable add up to their number, unavailable are those whose capability the server lacks, and the transaction is as before; an error is reported if and only if a check failed or the plan ended early, and where nothing fails all other checks complete |
| Savepoints.ResetIsNotRestore | checkmigrate/checks.go:391-395 | A completed check that disables track_counts restores its earlier value if and only if that is the session's default |

## Left out

- SQL text, catalog queries and their row decoding: external; their results are inputs.
- Remote commands, process launch, signals, timeouts and cleanup after a failure: input and output.
- Compression and YAML encoding: identity on bytes and records.
- Widths of uint32, int64 and uint64: counters, oids and offsets are unbounded; that offsets never underflow is proved.
- The SQL printers, the ACL parser, and the regular expressions that redirect schemas: formatting over free text.
- BatchPostdataStatements splits a list in one pass, the first index of each table apart from the other statements and
  from metadata (restore/parallel.go:254-270); the flag, history, report and statistics code checks and formats records.
- Error runs of the backup and of the parallel pre-data restore: liveness is stated for runs without a fatal error. In an
  error run the goroutine of worker 0 can return without signalling (backup/data.go:311-319). Skips and failed copies of
  the restore helper are modelled.
- CopyPipes.EveryRunCompletes: is stated for helpers that do not fail fatally, and for servers that get skip files
  (version 6 and later, restore/data.go:122); a COPY that waits too long for its pipe is one that fails.
- Resize restore without a single data file: its lists and pipes are modelled, its whole-file copies are not.
- A failed copy is taken to have consumed exactly the bytes it reports; buffers that Go's copy loop filled but could not
  write out are not modelled.
- BackupPipes.EveryRunCompletes: a COPY whose pipe does not exist is left waiting for it, where the program's COPY fails
  and ends the backup (backup/data.go:80); AlwaysReadyIff and PipeReady say which runs have none.
- RestoreHelper.ServeList: says what is written to the buffered writer. Closing the pipe flushes it, also after a failed
  copy; where the pipe is broken, then or in that flush (helper/restore_helper.go:186-189), its reader gets the first few
  of these bytes only, and a failed flush is only logged.
- Incremental.RestoredFromSource: is stated without filters; filtered selection is covered by GetDataEntriesMatching, and
  `--incremental`, which restores the last plan entry only, is not.
- TableDepend.RecurseTableDepend: takes the query as a fixed relation; before version 7 the query for leaf partitions
  also depends on the list so far, which is not modelled.
- Savepoints.RunMigrationCheck: takes a migration check to run queries only, without savepoints of its own.
- Objects of the sort have distinct ids, as catalog objects do; duplicates are not modelled.
- The names logged for objects that cannot be sorted.
