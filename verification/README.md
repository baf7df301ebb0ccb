# Mutation machinery of the mount layer

The repository mounts remote object storage as a local directory. Renames, deletes, directory creates and writes are
accepted locally, queued, rebased when paths move, journalled, and pushed to a provider that may fail half way. This
project models that machinery and proves what it keeps over whole runs: crash recovery of the journal, convergence of
retried moves, the order of deletes and renames, rename fences, at-most-once admission of a rename that is reported
twice, and the lease protocol of the configuration database. Smaller state machines around it are modelled too: the
rename of staged files, the overlay listing, the projection refresh, eviction, snapshot paging, the backup coalescer
and the pre-upload of growing files.

`dafny verify dfyconfig.toml` checks everything.

## How it is modelled

* A virtual path is a sequence of segments (`VirtualPaths`). `RawPaths` proves that the string functions of the
  repository compute exactly that on cleaned paths, and when cleaning is idempotent.
* Objects that the source updates in place are classes. Each method is proved against a function on values, and the
  whole-run results are lemmas about those functions. Entries that the source shares by pointer are kept by identity:
  a map from IDs to entries stands for the memory, and an ID for the pointer.
* Goroutines are interleaved at their lock operations: an action is one critical section, and a run is any sequence of
  actions. Provider faults, crashes, failed file operations and the answers of the file system are parameters.
* The journal is modelled byte by byte over an event encoding that is only assumed to round-trip, to stay on one line,
  and to decode neither from a proper prefix nor from several beginnings of encodings glued together. `JournalCodec`
  builds an encoding that meets all of this.

## What was found

* A failed append is not cut off again, so a later append that goes through makes the log unreadable, and nothing else
  does: over any number of sessions the journal can be restored exactly when that has not happened
  (`AttemptsReadIff`, `JournalDurable`). The comment on Restore calls every interior malformed line corruption; this one
  comes from the program itself.
* `reconcileRemoteMove` does not check that source and destination are apart. Retries are safe exactly when they are
  (`SafeIffApart`).
* A provider delete hits its object exactly when the rebases and the moves made while it waited rewrite its path alike
  (`HitIff`), which they always do when each move that is reported as failed but was made is retried before anything
  else happens (`MendedRunsHit`), and so in all runs without such reports. Otherwise a delete that starts before the
  retry misses the moved file (`LateDeleteMisses`), and a rename retried without need takes a delete to a wrong path
  (`ReplayMisdirects`); `UnreportedRightIff`, `RebaseRightIff` and `ReplayRightIff` say exactly when a step leaves a
  delete at the right path or brings it back.
* A rename does not take back a delete that is pending at its target, so the provider delete hits the file that has just
  been moved there (`DeleteHitsMoved`). In the overlay the tombstone stays too and hides the renamed file
  (`RenamedOntoTombstoneHidden`).
* A caller that acquires the configuration database while it holds a lease can deadlock on itself (`SelfDeadlock`);
  nothing else can (`NeverStuck`).
* A renamed staged file reads its old bytes exactly when no file to be moved lies at the cache path of another renamed
  key (`RenamedReadsIff`). An upload that is renamed while the cache does not know its file, and is restored later, can
  bring that about (`BytesCross`).
* With nothing cached at the destination, the rollback after a rejected journal entry restores everything exactly when
  moved entries are named by their keys and no key depends on another one's moved file (`ForwardAndBackIff`), and it can
  be made exactly when `BackPossibleIff` says. Caches built by stores at a key's own cache path or at a path of its own
  outside the cache always meet the first condition (`RunThenBack`); the second fails when a file was staged outside
  while something else lay at its own cache path.
* The projection refresh removes a recorded directory that is gone remotely with everything below it. Of what lies below
  it asks only for pending uploads, and not even for these when the name was recorded as a file. So an untracked file
  there, or one with a local entry, goes with it (`RefreshTakesOwned`). A path that the mount does not own keeps its
  file exactly when no recorded, unlisted, unpreserved name stands above it (`NotOwnedKeptIff`, `UntrackedForeverIff`),
  and a refresh whose removal fails half way has taken part of the tree (`FailedTakes`, `RefreshTakesHalf`).
* A placeholder made by a refresh that then fails is never recorded, and no later refresh adopts or updates it
  (`OrphanArises`, `UntrackedStays`).
* A configuration change made after the worker has found backups disabled, and before it ends, gets no backup
  (`ChangeLost`).
* An attribute change that truncates a growing file and then fails to set its mode or times leaves the pre-upload on
  over a file it no longer matches. The pre-uploaded prefix is safe exactly otherwise (`SetattrKeepsIff`,
  `TornAfterUpload`). Such a change leaves a clean file marked clean, so that the handle's release does not publish it
  (`HalfSetUnpublished`); without one no change is lost (`CleanIsPublished`).
* Creating a deleted directory again before the remote delete has run lists its old remote children again
  (`RecreatedDirectoryReveals`).
* A listing that is paged while 16 others start goes on in a fresh listing at the same offset, so items can be skipped
  (`EvictedSkips`). What the client gets is put together of the captured listings (`PagingStitched`), and
  `PagingExactIff` says when that is exactly a given listing; it is if the directory has not changed
  (`PagingUnchanged`).

## Model

| member | source | states |
|---|---|---|
| `RawPaths.CleanIdempotentIff` | go/mount/helpers.go:21-27 | cleaning a raw path twice is cleaning it once exactly when the first pass leaves no space at either end |
| `RawPaths.CleanNotIdempotent` | go/mount/helpers.go:21-27 | a slash, space, letter, space, slash shows that it can differ |
| `RawPaths.CleanJoin` | go/mount/helpers.go:21-35 | cleaning leaves a joined segment path alone and the directory suffix adds one slash |
| `RawPaths.PrefixTestIsAncestor` | go/mount/delete_queue.go:161-171 | the string prefix test with a slash is the strict ancestor test on segments, in both directions |
| `RawPaths.RebaseIsPrefixReplacement` | go/mount/dir_sync_queue.go:142-147 | replacing the string prefix of a matched path is the rebase on segments |
| `RawPaths.ParentDropsLast` | go/mount/helpers.go:37-47 | the parent prefix drops exactly the last segment |
| `RawPaths.JoinInjective` | go/mount/helpers.go:21-27 | a cleaned path names one segment path, so maps keyed by strings are maps keyed by segment paths |
| `VirtualPaths.RebaseInverse` | go/mount/delete_queue.go:222-231 | a rebased path has left the source, was not below the target, and the opposite rename brings it back |
| `MutationLog.RestoreMutationFile` | go/mount/mutation_store.go:108-143 | the line loop with its one-line delay computes the declarative replay: every line strict but an unterminated last one |
| `MutationLog.ReplayTextIsFold` | go/mount/mutation_store.go:108-190 | whether a file can be read, and its effect, depend only on its text: it is one event list, folded |
| `MutationLog.AppendAtomic` | go/mount/mutation_store.go:64-84 | after any history and any byte prefix of one more append, restore gives the fold without or with that event, and an error exactly for a finished unacceptable line or an overlong piece |
| `MutationLog.AttemptsReadIff` | go/mount/mutation_store.go:64-84 | after any series of appends, each stopped anywhere, the log can be read exactly when none went through after one that had stopped inside its line, and then holds exactly the events written whole |
| `MutationLog.MalformedLineFatal` | go/mount/mutation_store.go:131-140 | a malformed line that has its newline is an error wherever it stands |
| `MutationStore.MutationStore.Restore` | go/mount/mutation_store.go:90-106 | replays all logs in name order, and fails when one of them does |
| `MutationStore.MutationStore.AppendEvent` | go/mount/mutation_store.go:64-84 | adds the bytes that got out to the current log, which it creates if need be, and succeeds only if all are out and synced |
| `MutationStore.MutationStore.Compact` | go/mount/mutation_store.go:194-257 | writes the records in the order of their IDs; the directory it leaves for each place where it may stop, and the file later appends go to |
| `MutationStore.MutationStore.RemoveStale` | go/mount/mutation_store.go:243-256 | removes the other logs oldest name first and never the new one |
| `MutationStore.CompactCrashSafe` | go/mount/mutation_store.go:194-257 | a crash after any prefix of the new file or any number of removed logs restores the same live map; records rewritten before the call come back old or rewritten, none is lost or added; a finished compaction restores exactly what it was given |
| `MutationStore.LaterLogFirstResurrects` | go/mount/mutation_store.go:248-255 | removing a later log first would bring a completed record back |
| `MutationStore.AttemptsAfterCompact` | go/mount/mutation_store.go:64-84 | appends after a compaction: restore gives the compacted map with the events written whole on top, or fails because one followed a torn one |
| `MutationStore.RestoredIsKeyed` | go/mount/mutation_store.go:162-190 | whatever is restored is keyed by record ID and could be written again |
| `JournalRuns.RunSession` | go/mount/writeback_restore.go:121-191 | the store's open, restore, compaction and appends leave exactly the directory that the sessions below are made of, and an append is reported as done only if nothing failed in it |
| `JournalRuns.JournalDurable` | go/mount/mutation_store.go:27-257 | through any number of sessions, each cut short at any byte of its compaction, between any two removals or with any of its appends failing anywhere, a restore succeeds exactly when no append went through after a torn one, and returns exactly the events written whole, once and in order, up to repaired local roots |
| `JournalRuns.JournalExact` | go/mount/mutation_store.go:27-257 | exactly the records as told when the local roots need no repair |
| `JournalRuns.SessionSafeIff` | go/mount/writeback_restore.go:121-191 | one session of opening, restoring, repairing local roots, compacting and appending, with the same condition |
| `JournalRuns.SessionRepairs` | go/mount/writeback_restore.go:140-191 | a session whose compaction goes through writes each record of its own scope back with both local paths repaired and each other one as it was, with the events written whole on top |
| `JournalRuns.OwnScopeRepaired` | go/mount/writeback_restore.go:140-153 | record by record for a session that appends nothing: the two local paths are repaired exactly in the session's own scope, and nothing else changes |
| `JournalRuns.FaultFreeSession` | go/mount/mutation_store.go:27-257 | a session without a fault is restored with all it has told, in order |
| `JournalRuns.DoneIsKept` | go/mount/mutation_store.go:64-84 | what an append has reported as done is in the log as long as this can be read |
| `JournalCodec.CodecExists` | go/mount/mutation_store.go:43-49 | the assumptions about the event encoding can be met |
| `MoveReconcile.Bucket.ReconcileRemoteMove` | go/mount/mutation_reconcile.go:24-116 | one pass over the four-row table with its re-probes, for any provider faults |
| `MoveReconcile.RetriesConverge` | go/mount/mutation_reconcile.go:24-116 | over any sequence of passes that stop part way every original object stays readable at its source or renamed key, nothing else is touched, and a pass that returns nil leaves the source empty and the destination holding the whole renamed source |
| `MoveReconcile.PassConvergesIff` | go/mount/mutation_reconcile.go:39-115 | a pass returns nil exactly when no probe it makes fails and, unless the source is already empty, the branch it takes is reported as done and has emptied the source |
| `MoveReconcile.OutcomeTells` | go/mount/mutation_reconcile.go:33-115 | each answer by the probes before and after: bad paths, the state conflict exactly when both are absent, a source left, a destination absent; and an absent source is never touched |
| `MoveReconcile.WorkingPass` | go/mount/mutation_reconcile.go:64-85 | a pass whose provider does not fail moves exactly the source objects to their targets, by either branch, and returns nil |
| `MoveReconcile.FaultlessPassEnds` | go/mount/mutation_reconcile.go:24-116 | after any number of faulty passes one without faults returns nil, with every original object at its target and the source empty |
| `MoveReconcile.OverlapLoses` | go/mount/mutation_reconcile.go:64-85 | for every overlapping pair of paths there is a bucket and a provider run that loses an object |
| `MoveReconcile.SafeIffApart` | go/mount/mutation_reconcile.go:33-85 | retries keep every object readable, for all buckets and providers, exactly when the paths are apart |
| `DeleteQueue.DeleteQueue.Enqueue` | go/mount/delete_queue.go:52-87 | accepts a delete, or refuses it when closed, covered by a pending directory, or not an upgrade of a pending delete |
| `DeleteQueue.EnqueueTakes` | go/mount/delete_queue.go:52-87 | when a delete is refused, and what else is pending afterwards: the new one in place of a narrower one, without the deletes below a directory |
| `DeleteQueue.EnqueueKeepsUncovered` | go/mount/delete_queue.go:52-87 | while nothing is renamed no pending delete is covered by another |
| `DeleteQueue.DeleteQueue.IsCoveredByParent` | go/mount/delete_queue.go:161-171 | true exactly when a pending directory delete stands above the path |
| `DeleteQueue.DeleteQueue.CancelDescendants` | go/mount/delete_queue.go:173-182 | drops exactly the pending deletes strictly below the path |
| `DeleteQueue.DeleteQueue.Claim` | go/mount/delete_queue.go:114-125 | takes an entry exactly when it is still the pending one for its path |
| `DeleteQueue.DeleteQueue.StartProvider` | go/mount/delete_queue.go:241-250 | marks the entry started and returns the path it has at that moment |
| `DeleteQueue.DeleteQueue.Finish` | go/mount/delete_queue.go:127-136 | the entry no longer runs |
| `DeleteQueue.DeleteQueue.Rebase` | go/mount/delete_queue.go:187-220 | both loops: pending entries move to free targets or are dropped at taken ones, running entries move unless started |
| `DeleteQueue.RebasedWellFormed` | go/mount/delete_queue.go:187-220 | a rebase keeps each key equal to its entry's path and pending entries neither running nor started |
| `DeleteQueue.NothingRebased` | go/mount/delete_queue.go:193-197 | a rename from or to the root, or onto itself, rebases nothing |
| `DeleteQueue.EnqueueDooms` | go/mount/delete_queue.go:52-87 | the set of doomed paths grows by exactly the new path, and its whole subtree for a directory |
| `DeleteProtocol.RebasedPending` | go/mount/delete_queue.go:187-231 | a rebase renames the path of every pending delete it keeps, revives none, and leaves started ones alone |
| `DeleteProtocol.RebasedDead` | go/mount/delete_queue.go:187-231 | a rebase does not touch a delete that was cancelled, is over or has its call made |
| `DeleteProtocol.DeletesKeepKind` | go/mount/delete_queue.go:187-267 | in every interleaving a delete that was taken keeps the kind it was asked for, file or directory, hard or not, while it waits and in its provider call |
| `DeleteProtocol.DeletesFollowRebases` | go/mount/delete_queue.go:187-266 | in every interleaving each pending delete has, and each provider delete took, its original path rewritten by exactly the rebases made since its enqueue, and a started entry is never rewritten |
| `DeleteProtocol.HitIff` | go/mount/bucket_access_writes.go:206-261 | over every interleaving a provider delete hits the place to which its object has been moved exactly when the rebases and the moves made between its enqueue and its start rewrite its path alike |
| `DeleteProtocol.StartHitsIff` | go/mount/delete_queue.go:234-266 | a delete that starts hits its object exactly when its path is the object's place at that moment |
| `DeleteProtocol.RunHitsIff` | go/mount/bucket_access_writes.go:206-261 | over a whole run all provider deletes hit their objects exactly when each one that starts has the right path |
| `DeleteProtocol.UnreportedRightIff` | go/mount/mutation_reconcile.go:56-114 | after a move made without a report a delete has the right path exactly when the move brings its object there, or does not move the object and the path was right |
| `DeleteProtocol.RebaseRightIff` | go/mount/bucket_access_writes.go:239-261 | after a reported move and its rebase a pending delete has the right path exactly when it had, or when the rename brings one of its path and its object to the other |
| `DeleteProtocol.ReplayRightIff` | go/mount/writeback_rename_queue.go:225-275 | after a rebase without a move exactly when the rename brings its path to its object, or leaves a right path alone |
| `DeleteProtocol.MendedRunsHit` | go/mount/writeback_rename_queue.go:225-275 | in every run in which each lost report is mended by the retry before another delete or rename comes in between, every provider delete hits its object |
| `DeleteProtocol.PlainMended` | go/mount/bucket_access_writes.go:206-261 | runs whose moves report truthfully and are not retried are of that kind |
| `DeleteProtocol.NoMoveDuringDelete` | go/mount/delete_queue.go:239-241 | from the start of a provider delete to its end nothing is moved and no delete is rewritten |
| `DeleteProtocol.RenameExcludes` | go/mount/bucket_access_writes.go:206-261 | from the start of a rename to its end no delete is taken, and from its move to its rebase none starts; however it ends, both are possible again |
| `DeleteProtocol.RenameGoesOn` | go/mount/bucket_access_writes.go:206-261 | a rename that has begun can always take its next step |
| `DeleteProtocol.DeletesDrain` | go/mount/delete_queue.go:89-136 | while no rename is under way every schedule of the workers is finite and ends with a provider call for every waiting delete, and nothing waiting or running |
| `DeleteTraces.ReplayMisdirects` | go/mount/writeback_rename_queue.go:225-275 | a delete, a replayed rebase, and the provider delete that then hits the wrong path without any move |
| `DeleteTraces.LateRebaseCatchesUp` | go/mount/writeback_rename_queue.go:225-275 | after a move reported as failed, the retry's rebase brings a pending delete back on its way |
| `DeleteTraces.LateDeleteMisses` | go/mount/writeback_rename_queue.go:225-275 | a delete that starts before that retry targets the place the file has left |
| `DeleteTraces.DeleteHitsMoved` | go/mount/bucket_access_writes.go:206-261 | a delete pending at the target of a rename hits the file moved there |
| `DeleteTraces.MovedBackHits` | go/mount/bucket_access_writes.go:206-261 | a delete left behind by an unreported move hits its file after a plain rename back, without any retry |
| `DirSyncQueue.DirSyncQueue.Enqueue` | go/mount/dir_sync_queue.go:59-78 | accepts a create unless closed or already queued for that path |
| `DirSyncQueue.EnqueueTakes` | go/mount/dir_sync_queue.go:59-78 | on an open queue a live entry stands for every named path afterwards, the old one exactly when there was one; a closed queue or the root changes nothing |
| `DirSyncQueue.DirSyncQueue.Mark` | go/mount/dir_sync_queue.go:172-179 | starts an entry unless it was cancelled, and says which |
| `DirSyncQueue.DirSyncQueue.CancelLocked` | go/mount/dir_sync_queue.go:257-270 | cancels an entry, drops it from the map and closes its done channel unless it runs |
| `DirSyncQueue.DirSyncQueue.Finish` | go/mount/dir_sync_queue.go:272-285 | the entry leaves the map and is done |
| `DirSyncQueue.DirSyncQueue.RebaseAndFence` | go/mount/dir_sync_queue.go:82-133 | the new queue, a barrier that lists the fence with each entry once, and whether a waiting create was rebased or merged |
| `DirSyncQueue.FenceComplete` | go/mount/dir_sync_queue.go:82-147 | what is still keyed at or below the source runs and is in the barrier; each matched create or its merged target is in the barrier; unmatched entries and a create at the destination are as claimed |
| `DirSyncQueue.FenceMinimal` | go/mount/dir_sync_queue.go:82-133 | the barrier holds nothing but creates that matched the source or sat at a target |
| `DirSyncQueue.WaitingPathsRenamed` | go/mount/dir_sync_queue.go:82-147 | the waiting paths are exactly the old ones with the rename applied, merged into existing targets |
| `DirSyncProtocol.ReachableStates` | go/mount/dir_sync_queue.go:166-220 | in every reachable state keys equal paths, no cancelled or finished entry is in the map, two running creates never share a path, at most two are in flight, each at its entry's path |
| `DirSyncProtocol.StartedPathFixed` | go/mount/dir_sync_queue.go:201-220 | a started or finished entry never changes its path, and a finished one stays finished |
| `DirSyncProtocol.ShutdownClosesAll` | go/mount/dir_sync_queue.go:287-300 | every accepted entry is done by the time shutdown returns |
| `DirSyncProtocol.SubmitIff` | go/mount/dir_sync_queue.go:172-200 | the dispatcher hands an entry over exactly while fewer than two creates are in flight |
| `DirSyncProtocol.Progress` | go/mount/dir_sync_queue.go:166-199 | while an entry is unfinished or a shutdown is under way some thread can take a step |
| `DirSyncProtocol.ThreadsDrain` | go/mount/dir_sync_queue.go:149-164 | every schedule of the threads is finite and ends with every entry done and shutdown returned, so every wait on a barrier ends |
| `DirSyncProtocol.ShutdownReturns` | go/mount/dir_sync_queue.go:287-300 | a shutdown refuses all further creates and returns with every entry done once the threads have nothing left to run |
| `DirSyncProtocol.CreateHappens` | go/mount/dir_sync_queue.go:59-213 | whatever is asked for while the queue is open is carried over any run by an entry at the path to which fences have renamed it while it waited, merged only into a create at the same path; once that entry is done the provider has been asked for exactly that path, or the pool has refused it |
| `DirSyncProtocol.CreateEnds` | go/mount/dir_sync_queue.go:172-230 | and it is done when the threads have nothing left to run |
| `DirSyncProtocol.FenceHolds` | go/mount/bucket_access_writes.go:186-200 | after a fence and any run of the threads, once the barrier is done no create is queued or in flight at or below the source |
| `ConfigDb.ConfigDBRegistry.Acquire` | go/config/config_db_shared.go:41-94 | the critical section of acquire: sleep, fail, detach a stale handle, open, or grant a lease |
| `ConfigDb.ConfigDBRegistry.OpenDone` | go/config/config_db_shared.go:79-94 | the section after opening: register the handle, end the switch, and grant the lease or fail |
| `ConfigDb.ConfigDBRegistry.Release` | go/config/config_db_shared.go:103-113 | gives a lease back and wakes the sleepers with the last one |
| `ConfigDb.ConfigDBRegistry.SwitchRootIf` | go/config/config_db_shared.go:137-153 | the critical section of a root switch |
| `ConfigDb.ConfigDBRegistry.DetachStale` | go/config/config_db_shared.go:147-153 | waits while leases are out, and otherwise takes the handle out of the registry |
| `ConfigDb.HandleNeverClosedUnderLease` | go/config/config_db_shared.go:41-171 | for any number of threads at most one handle is open, every lease is on it, closing and root updates find no lease and no registered handle, and the lease count never drops below zero |
| `ConfigDb.LeasesOnRoot` | go/config/config_db_shared.go:122-171 | when the root changes only through switches every lease out is on the file that is configured now |
| `ConfigDb.AcquireExact` | go/config/config_db_shared.go:48-99 | entered while no switch is under way: a lease on the registered handle of the configured file, the opening of the file, the closing of another one once no lease is on it, or a failure, and nothing else changes |
| `ConfigDb.OpeningEnds` | go/config/config_db_shared.go:76-99 | an opening ends the switch with a fresh handle registered and leased, or with nothing |
| `ConfigDb.SleepsUntil` | go/config/config_db_shared.go:50-63 | who comes while a switch is under way sleeps until it is over or the last lease is back, and who waits for the leases until exactly then |
| `ConfigDb.SwitchReturns` | go/config/config_db_shared.go:125-176 | a switch to a root returns only when that root is configured |
| `ConfigDb.UnchangedSwitchKeeps` | go/config/config_db_shared.go:142-153 | a switch to the root that is configured already touches neither registry nor files |
| `ConfigDb.SwitchTakesEffect` | go/config/config_db_shared.go:149-176 | any other switch, over any run, is still under way with the registry not stuck, or has ended with the old handle closed, none open and its root configured |
| `ConfigDb.StuckHolderAsleep` | go/config/config_db_shared.go:44-59 | a stuck state always has a thread that sleeps inside the registry while it holds a lease |
| `ConfigDb.NeverStuck` | go/config/config_db_shared.go:41-171 | if no thread enters while it holds a lease some step is always enabled |
| `ConfigDb.SelfDeadlock` | go/config/config_db_shared.go:55-59 | a lease holder that acquires again after the path has changed is stuck |
| `WatcherState.WindowsPathState.PruneRenamesLocked` | go/mount/cloud_files_watcher_state_windows.go:342-354 | an expired pending source is forgotten with everything below it, and an expired marker is dropped |
| `WatcherState.WindowsPathState.BeginPendingFileRename` | go/mount/cloud_files_watcher_state_windows.go:153-173 | after pruning, exactly the files with a known fingerprint become rename sources |
| `WatcherState.WindowsPathState.ClaimPendingFileRename` | go/mount/cloud_files_watcher_state_windows.go:188-220 | after pruning, a target is paired exactly when one pending source fits it, and that source is used up |
| `WatcherState.WindowsPathState.FallbackRenameHandled` | go/mount/cloud_files_watcher_state_windows.go:222-239 | a marker holds for its whole lifetime and no longer |
| `WatcherState.WindowsPathState.ForgetPath` | go/mount/cloud_files_watcher_state_windows.go:302-340 | every fact at or below the path is dropped, the completed renames are not |
| `WatcherState.WindowsPathState.RebasePath` | go/mount/cloud_files_watcher_state_windows.go:368-437 | every fact below the source moves below the target, pending sources are dropped, and a path of unknown kind gets one |
| `WatcherState.RebasedMapAt` | go/mount/cloud_files_watcher_state_windows.go:388-430 | after a rebase nothing is left below the source, targets read what their sources read, the rest is unchanged |
| `WatcherState.RebaseCarries` | go/mount/cloud_files_watcher_state_windows.go:366-437 | what is known at or below the source reads the same at the target, waiting sources below it are dropped, and an unknown kind becomes that of the rename |
| `WatcherState.PrunedAt` | go/mount/cloud_files_watcher_state_windows.go:342-354 | a prune forgets exactly what lies at or below an expired source, and exactly the expired markers |
| `WatcherState.OnlyCandidateIff` | go/mount/cloud_files_watcher_state_windows.go:199-219 | a source is paired exactly when it alone, but for the target itself, waits in the target's directory with its fingerprint |
| `WatcherState.RenamePaired` | go/mount/cloud_files_watcher_state_windows.go:149-221 | the two halves of a physical rename within the time limit are paired, if the fingerprint is known and unique in the directory and nothing above has expired |
| `WatcherState.RenameTooLate` | go/mount/cloud_files_watcher_state_windows.go:342-347 | after the limit the source is no longer paired and its facts are gone |
| `WatcherState.HandledIff` | go/mount/cloud_files_watcher_state_windows.go:222-240 | a marker is found exactly within a minute of its making |
| `RenameProtocol.MutationQueue.Submit` | go/mount/cloud_files_watcher_mutations_windows.go:50-63 | appends the job unless the queue is stopping |
| `RenameProtocol.MutationQueue.Take` | go/mount/cloud_files_watcher_mutations_windows.go:81-102 | takes the oldest job, and exits only when none is left |
| `RenameProtocol.MutationQueue.Stop` | go/mount/cloud_files_watcher_mutations_windows.go:65-79 | refuses further jobs, and waits, only for a queue that was started |
| `RenameProtocol.AdmittedAtMostOnce` | go/mount/cloud_files_watcher_mutations_windows.go:145-215 | for every interleaving and every pair at most one queued apply succeeds |
| `RenameProtocol.CompletionNeverLost` | go/mount/backend_windows_cloud_files_cgo.go:394-453 | whatever happens before and after it, once drained a completion belongs to a rename that succeeded, or a stop refused it, or it was seen to: one that found an earlier apply under way by an attempt that started after that apply had failed, any other by an attempt of its own |
| `RenameProtocol.DrainedInOrder` | go/mount/cloud_files_watcher_mutations_windows.go:50-102 | accepted jobs run in order, and all have run when a stop of a started queue returns |
| `RenameProtocol.QueueDrains` | go/mount/cloud_files_watcher_mutations_windows.go:65-102 | every schedule of the worker and the late callers is finite and ends with an empty queue, every accepted job run and an asked-for stop returned |
| `RenameProtocol.StopTakesEffect` | go/mount/cloud_files_watcher_mutations_windows.go:65-79 | after a stop is asked for nothing is accepted, and it returns once all that was accepted has run |
| `RenameProtocol.SubmittedRuns` | go/mount/cloud_files_watcher_mutations_windows.go:50-102 | until then everything submitted is run in the end: the first apply of an unmarked pair from either side, the fallback of a late one, and any other job |
| `CacheRename.RollbackCacheLocalMoves` | go/mount/bucket_cache_rename.go:205-213 | undoes the moves last first and passes over refused steps |
| `CacheRename.MoveCacheLocalFiles` | go/mount/bucket_cache_rename.go:176-203 | succeeds exactly when all targets are free and no operation is refused, and otherwise leaves the disk as it was unless a rollback step is refused |
| `CacheRename.UndoRestoresIff` | go/mount/bucket_cache_rename.go:196-213 | a rollback restores the disk exactly when none of its steps is refused |
| `CacheRename.RenameLocalFile` | go/mount/bucket_cache_rename.go:19-76 | all or nothing: on failure every index, and the disk, is as before; on success files, entries and tombstones are re-keyed and retargeted |
| `CacheRename.RenamedAt` | go/mount/bucket_cache_rename.go:19-76 | path by path: entry, tombstone and staged file go to the target under their new name and nothing of them stays; paths below neither side keep what they have |
| `CacheRename.RekeyMap` | go/mount/bucket_cache_rename.go:215-267 | the subtree root and the loop below it re-key the map and nothing else |
| `CacheRename.RenamedReadsIff` | go/mount/bucket_cache_rename.go:44-76 | each renamed key reads the bytes its old key read, exactly when no file to be moved lies at the cache path of another renamed key |
| `CacheRollback.ForwardAndBackIff` | go/mount/metadata_write.go:123-131 | with nothing cached at the destination, renaming forward and back restores the keys, infos and bytes exactly when what moves is named by its key, no moved file lies on another one's way, and no key that stays depends on a moved file |
| `CacheRollback.BackPossibleIff` | go/mount/metadata_write.go:126-129 | the way back is open exactly when every renamed key had its bytes, none lay on another one's way, and no other file lay at the cache path of a renamed key |
| `CacheRollback.RenameMetadataPath` | go/mount/metadata_write.go:115-136 | the rename with its journal call: accepted, failed without effect, rolled back, with the exact condition under which that restores everything, or a failed rollback with its one cause |
| `CacheRuns.RunOwn` | go/mount/bucket_access_writes.go:54-66 | over any run of stores at a key's own cache path or an outside path of its own, removals, deletions and renames, each staged file keeps to its own path |
| `CacheRuns.RunThenBack` | go/mount/metadata_write.go:123-131 | so after any such run a rename to where nothing is cached, and back, restores the cache, and the way back is open unless a file is missing or was staged outside while something lay at its own cache path |
| `CacheRuns.BytesCross` | go/mount/bucket_cache_rename.go:176-203 | a run of the cache's operations, with an upload restored under a key it was renamed to, after which a rename succeeds and gives one key the bytes of another |
| `Projection.PlaceholderMap` | go/mount/cloud_files_refresh_windows.go:275-285 | builds the listing by name |
| `Projection.DesiredIsLast` | go/mount/cloud_files_refresh_windows.go:275-285 | it has exactly the named items, and the last one of each name |
| `Projection.CloudFilesHydrator.CreatePlaceholder` | go/mount/cloud_files_refresh_windows.go:212-228 | makes a placeholder only where nothing is on disk, and fails without the directory above |
| `Projection.CloudFilesHydrator.RemovePlaceholder` | go/mount/cloud_files_refresh_windows.go:230-259 | removes the name, with everything below it when it was recorded as a directory or is one; a tree removal that fails leaves what survives it |
| `Projection.CloudFilesHydrator.RefreshWanted` | go/mount/cloud_files_refresh_windows.go:135-188 | one wanted name: its outcome, and that no other path is touched |
| `Projection.CloudFilesHydrator.RefreshGone` | go/mount/cloud_files_refresh_windows.go:190-205 | one recorded name that is gone remotely: kept if preserved, else removed |
| `Projection.CloudFilesHydrator.Refresh` | go/mount/cloud_files_refresh_windows.go:120-210 | succeeds exactly when no name stops it, gives each path its own outcome, and on failure leaves the record alone and the disk as the names before the failing one have left it |
| `ProjectionRuns.TreeKept` | go/mount/cloud_files_refresh_windows.go:212-259 | whatever the outcome, everything on disk still lies in a directory |
| `ProjectionRuns.NotOwnedKeptIff` | go/mount/cloud_files_refresh_windows.go:190-273 | after a successful refresh a preserved, untracked or foreign path keeps its file exactly when no recorded, unlisted, unpreserved name stands strictly above it; such a name is a directory on disk and the path is gone |
| `ProjectionRuns.FailedEach` | go/mount/cloud_files_refresh_windows.go:120-210 | after a failed refresh each path is as before or as a successful one would have left it |
| `ProjectionRuns.FailedTakes` | go/mount/cloud_files_refresh_windows.go:230-259 | of what the mount does not own, a failed refresh may have taken what stands under a name to be removed, and nothing else |
| `ProjectionRuns.SuccessExact` | go/mount/cloud_files_refresh_windows.go:135-207 | a successful refresh removes exactly the recorded, unlisted, unpreserved names with all that is below them, and adds exactly the listed, unpreserved names that are not on disk nor recorded at their listed version |
| `ProjectionRuns.RecordedExact` | go/mount/cloud_files_refresh_windows.go:135-207 | it records exactly the listed names it owns and the preserved ones it had, each at its listed or old version; of these exactly those are on disk that were there or that it has added |
| `ProjectionRuns.UpdateExact` | go/mount/cloud_files_refresh_windows.go:160-187 | a recorded, unpreserved name with a new listed version that is on disk is recorded at it, with that placeholder, exactly when the file system made the update; otherwise record and disk are unchanged |
| `ProjectionRuns.RefusedTriedAgain` | go/mount/cloud_files_refresh_windows.go:160-187 | an update that was refused is made by the next refresh that is allowed to |
| `ProjectionRuns.ListedExact` | go/mount/cloud_files_refresh_windows.go:135-171 | every other listed name: preserved, made anew, left to somebody else, or recorded again at its version |
| `ProjectionRuns.UnlistedExact` | go/mount/cloud_files_refresh_windows.go:190-205 | a recorded name that is not listed is forgotten and gone exactly when nothing preserves it |
| `ProjectionRuns.SuccessNeeds` | go/mount/cloud_files_refresh_windows.go:120-259 | a refresh that succeeds was refused nothing it asked for, and removed nothing outside the root |
| `ProjectionRuns.SucceedsIff` | go/mount/cloud_files_refresh_windows.go:120-259 | it succeeds exactly when each call it has to make for an owned name does |
| `ProjectionRuns.EscapeUntouched` | go/mount/cloud_files_refresh_windows.go:235-245 | a name that escapes the root or cannot be looked at keeps its file and all below it, whatever the outcome |
| `ProjectionRuns.RefusedFileStays` | go/mount/cloud_files_refresh_windows.go:246-256 | a plain file whose removal fails is still there |
| `ProjectionRuns.PreservedIff` | go/mount/cloud_files_refresh_windows.go:261-273 | a path is preserved exactly by a tombstone or entry of its own, a directory tombstone above it, or an upload that waits for it or below it |
| `ProjectionRuns.SameVersionIff` | go/mount/cloud_files_refresh_windows.go:287-296 | two items are of one version when they differ in nothing but their names |
| `ProjectionRuns.RefreshIdempotent` | go/mount/cloud_files_refresh_windows.go:120-210 | the same refresh again changes nothing |
| `ProjectionRuns.UntrackedStays` | go/mount/cloud_files_refresh_windows.go:212-259 | over any series of refreshes of any directories, failed or not, none of which is to remove a name above it, an unrecorded item on disk is never adopted, changed or removed |
| `ProjectionRuns.UntrackedForeverIff` | go/mount/cloud_files_refresh_windows.go:212-259 | over a series of successful refreshes that condition is exact |
| `ProjectionRuns.RefreshTakesOwned` | go/mount/cloud_files_refresh_windows.go:246-273 | a refresh of a listing without a recorded name removes the file below it, though the file has a local entry, or a pending upload and a name recorded as a file above it |
| `ProjectionRuns.RefreshTakesHalf` | go/mount/cloud_files_refresh_windows.go:246-249 | a removal that fails has taken one of two files below a directory |
| `ProjectionRuns.OrphanArises` | go/mount/cloud_files_refresh_windows.go:147-156 | a refresh that creates one placeholder and fails at the next leaves the first on disk and unrecorded |
| `BackupCoalescer.AutomaticConfigBackup.Queue` | bridge/dispatch_config_backup.go:187-197 | starts a worker, or notes a rerun for one that is uploading |
| `BackupCoalescer.AutomaticConfigBackup.BeginUpload` | bridge/dispatch_config_backup.go:218-220 | announces the upload before the snapshot starts |
| `BackupCoalescer.AutomaticConfigBackup.End` | bridge/dispatch_config_backup.go:199-211 | clears the flags and says whether to queue again |
| `BackupCoalescer.NoChangeMissesItsBackup` | bridge/dispatch_config_backup.go:187-227 | at most one worker lives, and once settled every call is followed by a snapshot that starts after it, or, only when backups were found disabled, by a worker that gives up after it |
| `BackupCoalescer.WorkersDrain` | bridge/dispatch_config_backup.go:187-227 | once the calls stop every schedule of the workers is finite and settles |
| `BackupCoalescer.ChangeLost` | bridge/dispatch_config_backup.go:213-217 | a change can arrive after the failed load and get no snapshot |
| `AutoSync.ReadySize` | go/mount/linux_fuse_file_sync.go:42-52 | whole parts only, within the writes, more than is uploaded, and no whole part left out |
| `AutoSync.LinuxFuseFileHandle.AutoSyncReadySize` | go/mount/linux_fuse_file_sync.go:42-52 | computes that size |
| `AutoSync.LinuxFuseFileHandle.NoteWriteRange` | go/mount/linux_fuse_file_sync.go:14-31 | extends the sequential end, or turns autosync off for a write out of order |
| `AutoSync.LinuxFuseFileHandle.Write` | go/mount/linux_fuse_file.go:124-139 | the file, the sequential end, and the run to start |
| `AutoSync.LinuxFuseFileHandle.Setattr` | go/mount/linux_fuse_file.go:191-211 | the file and the flags, also when the change fails part way |
| `AutoSync.LinuxFuseFileHandle.Release` | go/mount/linux_fuse_file.go:163-177 | releases and publishes once |
| `AutoSync.LinuxFuseFileHandle.FinishRun` | go/mount/linux_fuse_file_sync.go:54-81 | the synced size, and the run that follows |
| `AutoSync.SetattrKeepsIff` | go/mount/linux_fuse_file.go:199-204 | an attribute change keeps the invariant exactly when it does not cut off counted bytes and then fail while autosync is on |
| `AutoSync.TornSetattrMismatch` | go/mount/linux_fuse_file.go:199-204 | such a change below the synced size leaves autosync on over a file that the upload no longer matches |
| `AutoSync.TornAfterUpload` | go/mount/linux_fuse_file.go:199-204 | a run from the opening of a new file that gets there: one part written and uploaded, then a truncation that fails half way |
| `AutoSync.PrefixStable` | go/mount/linux_fuse_file_sync.go:14-31 | over any run without a torn attribute change that leaves autosync on, no byte below the end of the writes changes, the end does not move back, and the synced size never shrinks |
| `AutoSync.UploadedIsPrefix` | go/mount/linux_fuse_file_sync.go:54-123 | in such runs at most one background run is live, and while the handle is open and autosync on the upload holds exactly the first synced bytes of the file |
| `AutoSync.ScheduledWhole` | go/mount/linux_fuse_file_sync.go:33-52 | each run gets a whole number of parts within the sequential end |
| `AutoSync.WriteExtends` | go/mount/linux_fuse_file.go:124-139 | the first write begins the sequence, one at its end extends it, and any other one turns autosync off |
| `AutoSync.WriteAtIs` | go/mount/linux_fuse_file.go:132-138 | byte by byte: the data where they were written, the old bytes around them, zeros in a gap |
| `AutoSync.TruncateIs` | go/mount/linux_fuse_file.go:295-300 | byte by byte: the first bytes, and zeros behind a shorter file |
| `AutoSync.SetattrIs` | go/mount/linux_fuse_file.go:191-211 | the file and the flags for each place where the change may fail |
| `AutoSync.EndOff` | go/mount/linux_fuse_file_sync.go:54-81 | a run that fails turns autosync off and no run follows it |
| `AutoSync.StaysOff` | go/mount/linux_fuse_file_sync.go:54-81 | over any run, once autosync is off no run is announced or started any more |
| `AutoSync.RunGoesOn` | go/mount/linux_fuse_file_sync.go:83-123 | when a run can check, send, and end, with or without a failure |
| `AutoSync.RunHeedsHandle` | go/mount/linux_fuse_file_sync.go:83-123 | a run sends nothing exactly when the handle is released, autosync is off or the file is too short, and a failed one adds nothing to the upload |
| `AutoSync.ReadyStarts` | go/mount/linux_fuse_file_sync.go:33-81 | a write or the end of a run starts the next run as soon as a whole part more is ready |
| `AutoSync.PartSizeSteps` | go/s3/upload_resume_parts.go:58-67 | the part size steps up at 16 GiB and at 64 GiB |
| `AutoSync.CleanIsPublished` | go/mount/linux_fuse_file.go:124-231 | in any run without an attribute change that fails half way, a clean handle holds exactly what was published, and only a staging release makes a changed one clean |
| `AutoSync.HalfSetUnpublished` | go/mount/linux_fuse_file.go:191-231 | an attribute change that truncates a clean file and then fails leaves it clean, and no release publishes it |
| `Overlay.BucketCache.StoreLocalFile` | go/mount/bucket_cache.go:151-172 | stores the normalized entry and where its bytes are, and lifts the tombstone of that path only |
| `Overlay.BucketCache.StoreLocalDirectory` | go/mount/bucket_cache.go:174-188 | the same for a directory marker |
| `Overlay.StoredIsListed` | go/mount/bucket_cache.go:151-188 | what is stored is listed in its directory whatever was deleted there before, unless a directory above is deleted, and hides nothing |
| `Overlay.StoredFileIsFound` | go/mount/bucket_cache.go:151-172 | a staged file is found where it was put, under its own name, and no other one changes |
| `Overlay.BucketCache.RemoveLocalPath` | go/mount/bucket_cache.go:202-233 | drops the entries and tombstones of a path, or at or below a directory, and the staged files below it from index and disk |
| `Overlay.BucketCache.ClearLocalMarkers` | go/mount/bucket_cache.go:245-277 | the same without touching the staged bytes |
| `Overlay.BucketCache.MarkDeleted` | go/mount/bucket_cache.go:288-296 | drops what is local there, bytes included, and leaves one tombstone |
| `Overlay.BucketCache.MarkDeletedRetainingBytes` | go/mount/bucket_cache.go:279-286 | the same without touching the staged bytes |
| `Overlay.RemovedAt` | go/mount/bucket_cache.go:202-233 | path by path: nothing is left of a removed one but a staged file at a directory's own path, and the disk loses exactly the staged files the system lets go |
| `Overlay.DeletedIsHidden` | go/mount/bucket_cache.go:279-296 | a deletion hides the path, and all below a directory, and hides or shows nothing else but what its own older tombstone did |
| `Overlay.BucketCache.HiddenByDelete` | go/mount/bucket_cache.go:404-415 | a path is hidden exactly by its own tombstone or a directory tombstone above it |
| `Overlay.BucketCache.MergeLocalFiles` | go/mount/bucket_cache.go:314-346 | one item per path, exactly the unhidden remote items overridden by the unhidden local direct children |
| `CacheRuns.RunNamed` | go/mount/bucket_cache.go:151-188 | every entry is named by the key it is stored under, over any run of stores, removals, deletions and renames |
| `CacheRuns.TombstoneStaysIff` | go/mount/bucket_cache.go:202-296 | a directory tombstone stands after one operation exactly when this is no store at it, no removal at or above it, no file deletion at it, and no rename that puts a file tombstone there |
| `CacheRuns.DeletedStaysHidden` | go/mount/bucket_cache.go:288-346 | over any run of such operations nothing at or below the place to which renames have carried a deleted directory is listed |
| `CacheRuns.RecreatedDirectoryReveals` | go/mount/bucket_cache.go:174-188 | storing the directory again lists its old remote children again |
| `CacheRuns.RenamedOntoTombstoneHidden` | go/mount/bucket_cache_rename.go:242-267 | a file renamed to a path that has a tombstone stays hidden |
| `Eviction.Total` | go/config/cache_maintenance.go:254-260 | the sum of the sizes |
| `Eviction.SortByAge` | go/config/cache_maintenance.go:233-235 | a permutation with the oldest first |
| `Eviction.SelectByAge` | go/config/cache_maintenance.go:210-227 | splits the files into expired unprotected ones and the rest, and skips exactly the expired ones still to be uploaded |
| `Eviction.SelectBySize` | go/config/cache_maintenance.go:233-250 | takes the oldest unprotected files, each while over the cap, until the rest fits or is all protected, and skips exactly the files still to be uploaded that it reaches before |
| `Eviction.SelectByRules` | go/config/cache_maintenance.go:201-252 | removed and kept files partition the input and its bytes, no protected file is removed, the rest fits the cap or is protected, and evicted files are the oldest, each needed |
| `Eviction.AgeOnlyIff` | go/config/cache_maintenance.go:210-231 | without a size limit exactly the unprotected files older than the age limit go |
| `Eviction.PendingCount` | go/config/cache_maintenance.go:125-134 | a full clean counts exactly the protected files still to be uploaded |
| `Eviction.CacheDirectory.CleanCache` | go/config/cache_maintenance.go:113-160 | either mode removes no protected file, the freed bytes are exactly those that are gone, and the skipped files are those still to be uploaded |
| `SnapshotTokens.TokenRoundTripIff` | go/mount/object_page_snapshots.go:106-150 | a continuation token parses back to what was formatted exactly when it is in the range of the machine's integers |
| `SnapshotTokens.PlainOffset` | go/mount/object_page_snapshots.go:141-150 | a bare number, signed or not, is taken for an offset if it is in range, and a negative one for 0 |
| `SnapshotTokens.ForeignToken` | go/mount/object_page_snapshots.go:127-139 | nothing but an m in front makes a token |
| `Snapshots.MountedDirectoryPageSnapshots.EvictOldestLocked` | go/mount/object_page_snapshots.go:94-104 | keeps exactly the snapshots that fewer than 16 newer ones follow |
| `Snapshots.MountedDirectoryPageSnapshots.PruneLocked` | go/mount/object_page_snapshots.go:86-92 | drops exactly the expired snapshots |
| `Snapshots.MountedDirectoryPageSnapshots.Start` | go/mount/object_page_snapshots.go:60-84 | registers the listing, prunes, evicts, and returns its first page |
| `Snapshots.MountedDirectoryPageSnapshots.ReadPage` | go/mount/object_page_snapshots.go:42-58 | a page exactly when the token names a live snapshot of that prefix |
| `Snapshots.MountedDirectoryPageSnapshots.ListPage` | go/mount/object_page.go:80-90 | the page of the named snapshot, or a new snapshot at the token's offset, and the snapshots kept then |
| `Snapshots.AtMostSixteen` | go/mount/object_page_snapshots.go:94-104 | at most 16 snapshots are kept |
| `Snapshots.StartKeeps` | go/mount/object_page_snapshots.go:60-104 | a live snapshot survives the next 15 starts |
| `Snapshots.NoneExpired` | go/mount/object_page_snapshots.go:42-92 | no listing request leaves an expired snapshot |
| `Snapshots.PageIsOwn` | go/mount/object_page_snapshots.go:42-58 | a token yields its snapshot's page only in that snapshot's directory and before it expires; otherwise a new snapshot is started at its offset |
| `Snapshots.PagingExact` | go/mount/object_page_snapshots.go:42-150 | before it expires a snapshot is kept exactly as long as fewer than 16 later ones have started; so long, following tokens with any page sizes gives always a prefix of the captured listing and in the end exactly all of it |
| `Snapshots.PagingUnchanged` | go/mount/object_page.go:80-90 | when the directory does not change, the client gets exactly the listing whatever expires or is evicted |
| `Snapshots.PagingStitched` | go/mount/object_page.go:80-90 | in any case the client has of each captured listing what stands between the offsets at which it came to it and left it, the last one to its end, and is through once it has read often enough for that one |
| `Snapshots.PagingExactIff` | go/mount/object_page.go:80-90 | so, with its snapshot kept or lost, it ends with exactly given items if and only if these are as many as the last captured listing gives and each captured listing has them where it was read |
| `Snapshots.EvictedSkips` | go/mount/object_page.go:80-90 | a run from the empty store: a listing of two begun, 16 others started, the first item gone, and the client is told it is through without the second |

## Left out

- DeleteProtocol.MendedRunsHit: a condition on whole runs that suffices; the exact ones are those of each step and of
  `HitIff`. Neither says which file stands at a path by then (`DeleteHitsMoved`).
- AutoSync.UploadedIsPrefix: covers the runs without a torn attribute change, as the others break it
  (`TornAfterUpload`).
- AutoSync.PrefixStable: the same.
- CacheRollback.ForwardAndBackIff: compares bytes and infos, not the place of a staged file.
- JournalRuns.JournalDurable: the lines of a session, and what failed appends leave at the end of its log, fit the
  scanner's buffer, and so do repaired records.
- JournalRuns.JournalExact: the same.
- JournalRuns.SessionSafeIff: the same.
- MutationLog.AttemptsReadIff: what failed appends leave at the end of the log fits the scanner's buffer.
- MutationStore.AttemptsAfterCompact: the same.
- JournalCodec.CodecExists: builds an encoding of its own; that the JSON one has the assumed properties is not shown.
- DeleteQueue.DeleteQueue.Rebase: takes source and target that do not overlap. For overlapping ones the queues and
  caches insert into a map while they range over it, and Go leaves the result open.
- DirSyncQueue.DirSyncQueue.RebaseAndFence: the same.
- CacheRename.RenameLocalFile: the same.
- CacheRollback.RenameMetadataPath: the same.
- Overlay.BucketCache.StoreLocalFile: does not show the object and list caches, which expire by time.
- Overlay.BucketCache.StoreLocalDirectory: the same.
- The JSON event encoding is an assumption with four parts; an encoding without those properties is not covered.
- File names of logs are their rank in the directory listing, and a new log may get any free rank.
- TTL expiry of caches, and of rename markers inside the rename protocol; the snapshot lifetime is modelled with a
  strictly increasing clock, as two snapshots of the same instant may be evicted in either order.
- SHA-1 path hashing is taken as injective, and directories made on the way to a cache file are not shown.
- Channel capacity, and the order in which the directory queue's channel delivers: the protocol allows any order.
- The writeback queue and the metadata store behind it, transfer monitor rows, peer broadcasts and log lines.
- In the projection refresh: names that are a dot or two, the way Windows compares paths, the change of a placeholder
  between file and directory, and the marks that keep the watcher from reporting the refresh's own changes.
- Concurrent writers to the bucket, the disk or the listing during one call, and external changes of the sync root
  between the checks of one refresh.
- Machine integers: sizes and offsets are unbounded, except in tokens, whose ranges are those of the source.
- The rename branch that finds the directory already created by a rebased marker
  (go/mount/bucket_access_writes.go:214-236) appears in the protocol only as a rebase without a move.
- The mutation queue of a watcher without a worker, which runs each job in place, and the nil entries that stop the
  delete workers.
- Completions for local-only paths and for pairs whose virtual paths are equal return before the rename protocol.
- The last-error text of the directory queue, retries inside one provider delete, and waiting with a deadline: a rename
  whose wait times out is an aborted rename.
- rebaseLocalFileAfterExternalMove, which re-keys the same indexes without moving bytes.
