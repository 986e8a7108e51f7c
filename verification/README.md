# Proofs about nubit-agent

The agent applies commands from a control plane ("Control") to one server. These files model the parts of
it that have to stay correct when a command times out but keeps running, when a write fails half way, when
the process dies or the power goes, and when Control sends the same job again; and they prove what those
parts promise. `dafny verify dfyconfig.toml` checks everything.

## How the pieces fit

- **Admission** (`Capacity`, `SiteResources`, `Admission`, `AdmissionSlots`, `AdmissionRuns`,
  `AdmissionLiveness`, `MapCount`). `Capacity.Manager` is the reservation ledger as a class, each method
  proved against a function on ledgers, with int64 wrap-around written out. `Admission` turns one command
  into a run through atomic steps (wait for a slot, admit, start, deadline or cancellation, provisioner
  returns, finish, give the slot back) and lets any number of runs interleave; `AdmissionRuns` holds the
  theorems over every trace, `AdmissionLiveness` those that say nothing gets stuck.
- **Durable state** (`Durable`, `StoreFile`, `FileStore`, `Executor`, `Outbox`, `Poller`). `Durable`
  models AtomicWrite over inodes, a directory, and the directory versions a power loss may bring back.
  `StoreFile` reduces a written file to an image: what a process sees, and the set of values a power loss
  may leave. The stores, idempotent execution, no-loss reporting and the poll loop are built on that.
- **Sites** (`SiteState`, `SiteHost`, `SiteIntent`, `Provisioner`, `SiteRuns`, `SiteDomains`). The
  lifecycle operations step by step, with a fault possible at every forward step; guards and effects say
  what each one means, and `SiteIntent` that this is what was asked for; Reconcile, the source's own drift
  check, is the specification that every run must satisfy.
- **Databases** (`SqlLiteral`, `DatabaseServer`, `DatabaseGrants`, `DatabaseIntent`, `DatabaseRetries`,
  `DatabaseSites`, `DatabaseManager`). Batches of statements that stop part way on a server all sites
  share, and records whose slices and map the store shares with the operation: what `remove` and a map
  write do in place is kept apart from what is saved. `DatabaseManager` is the class, proved against the
  functions of `DatabaseGrants`; `DatabaseIntent` says what they are for, `DatabaseRetries` is about
  repeating a failed command, `DatabaseSites` about all sites together.
- **Smaller cores**: `RateLimit`, `Audit`, `Backup`, `BackupRestore` and `BackupInspect`, `Timestamps` and
  `Retention`, `Enrollment`. `Strings`, `Int64` and `Wrappers` are shared.

The world outside is an argument everywhere: which call fails, what a clock reads, what Control answers, in
which order a map is iterated, what a power loss leaves. JSON, X.509, the configuration templates and the
catalogue of PHP versions are unknown functions with the laws named in the contracts (decoding undoes
encoding; removing an outbox entry does not lengthen its encoding; a certificate matches a key).

## Where the code does not keep a promise

Each is stated as a condition that a caller could check, or with a concrete family of inputs.

- A failed shrink puts the larger reservation back without raising the degraded flag
  (`Capacity.FailedShrinkOvercommitsUnflagged`); the total then fits exactly under
  `Capacity.FailedFinishFitsExactly`.
- docs/capacity.md says reservations are rebuilt from the site inventory at start; `RestoreCapacity` does
  that but nothing calls it. What it would rebuild is `Capacity.RestartIsClean`.
- docs/reliability.md promises a tombstone whenever a result limit would be exceeded; a single result that is
  too large leaves none (`FileStore.OversizedResultLeavesNoTombstone`, exact in `FileStore.SaveRecordsIff`).
- ADR-005 says the admin-password result is not cached; the code caches it, and so does the model.
- The outbox drops the "committed" mark of a write error, so memory and file part exactly after a failure
  behind the rename (`Outbox.MemoryEqualsDiskIff`). No owed result is lost by it (`Outbox.NoLostResult`).
- An outbox with limits above the defaults may be refused at the next start
  (`Outbox.GreaterLimitsMayNotReopen`, exact in `Outbox.ReopensIff`). Only NewFileOutboxWithLimits takes such
  limits, and nothing outside the repository's tests calls it.
- A site-state save that fails after its rename leaves drift, since the operation rolls its files back
  (`SiteRuns.HalfSaveDriftsIff`).
- Create does not look at aliases (`SiteDomains.CreateKeepsExclusiveIff`, `SiteDomains.CreateTakesAnAlias`).
- The audit log skips its rotation when the size of the active file cannot be read
  (`Audit.StatFailureOverflowsIff`).
- An archive beyond the limits on entries, extracted bytes or downloaded bytes is written and uploaded without
  complaint, and can then be neither restored nor verified (`Backup.RestoreUndoesWrite`,
  `BackupInspect.InspectAcceptsWritten`).
- The length of the retention window is a product of durations that wraps at 64 bits. It is what the plan asked
  for exactly up to 106751 days (`Retention.WindowIsExactIff`); what is kept for every other number is
  `Retention.PruneKeepsByTime`. There is no window at all exactly when the product leaves a remainder in the upper
  half of 64 bits (`Retention.NoWindowIff`), as it does from 106752 to 213503 days (`Retention.FirstGap`).
- Creating a database is a batch of statements, and a batch that fails is not rolled back: on MariaDB a new user
  stays when CREATE DATABASE fails, and the database too when a GRANT does
  (`DatabaseGrants.FailedBatchLeavesAccounts`). A later failure is rolled back, but drops user and database even
  if they existed before. What is restored is exact in `DatabaseGrants.FailedCreateRestoresIff`. After a save
  that failed behind its rename the record lists the database that was dropped
  (`DatabaseGrants.CreateListsDroppedIff`).
- docs/reliability.md:27 counts on an idempotent retry for recovery. The store hands out its own slices and map
  (internal/site/state.go:120-125), `remove` compacts a slice in place and grants are written in place, so after
  a save that comes to nothing, or a DROP USER that fails, memory may already show the end and a repeated
  command does nothing (`DatabaseRetries.FirstOfTwoIsLost`, exact in `DatabaseRetries.RepeatFinishesIff`). After a
  restart it always finishes what takes something away or changes grants (`DatabaseRetries.RestartFinishes`).
- For the same reason a Create whose save comes to nothing leaves a grant on a database that is not listed
  (`DatabaseGrants.StaysClosedIff`), and another site's save writes it to the file (`DatabaseSites.LeakIsWritten`).
- The users of all sites live on one server and nothing asks whose they are: deleting a database may name, and a
  rollback may drop, a user of another site (`DatabaseSites.AnotherSitesUserIsDropped`, exact in
  `DatabaseSites.ServesAfterIff`).
- The wait a rate-limited caller is told can be short by less than a nanosecond
  (`RateLimit.ToldWaitFallsShort`, exact in `RateLimit.ToldWaitFallsShortIff`).

## Model

| member | source | states |
|---|---|---|
| `Int64.Wrap` | internal/capacity/manager.go:292-297 | a Go int64 sum stays in range and is exact when it fits |
| `Capacity.IncrementalTotal` | internal/capacity/manager.go:131-137 | subtracting the old and adding the new request to the wrapped total gives the wrapped total of the changed ledger |
| `Capacity.TotalInAnyOrder` | internal/capacity/manager.go:285-291 | the loop of totalLocked gives one result whatever order the map is iterated in |
| `Capacity.PartialSumsDoNotWrap` | internal/capacity/manager.go:285-296 | inside the envelope no partial sum wraps, in any order |
| `Capacity.ReservationArithmeticDoesNotWrap` | internal/capacity/manager.go:131-136 | inside the envelope the incremental arithmetic of one more request is exact |
| `Capacity.DegradedStaysReal` | internal/capacity/manager.go:131-145 | every operation keeps: degraded implies that the total does not fit |
| `Capacity.StaleFinishIsIgnored` | internal/capacity/manager.go:192-197 | a finish with an old generation changes nothing |
| `Capacity.FailedSiteRestores` | internal/capacity/manager.go:152-210 | begin and then failed finish gives back reservations and fences |
| `Capacity.ReleasedNameStaysFenced` | internal/capacity/manager.go:228-237 | a released name keeps its fence, and no later begin passes it |
| `Capacity.BeginSiteStaysWithin` | internal/capacity/manager.go:152-165 | an admission from inside the limit stays inside, with no sum wrapping |
| `Capacity.BeginSiteAdmitsIff` | internal/capacity/manager.go:152-165 | a request is admitted exactly if its name is free and it fits beside what all other names hold; else the answer is the conflict if fenced, and the limit otherwise |
| `Capacity.BeginSiteAdmitsExactly` | internal/capacity/manager.go:131-165 | inside the envelope the same holds of the plain sum |
| `Capacity.PlanChangeUpToTheLimit` | internal/capacity/manager.go:131-138 | a site that holds 80 of 100 may ask for anything up to 100 and nothing beyond |
| `Capacity.FlagAfter` | internal/capacity/manager.go:131-237 | the degraded flag after each operation, exactly |
| `Capacity.EarlierAdmissionsAreOutdated` | internal/capacity/manager.go:152-237 | each begin and each release makes finishing any earlier admission of the name void |
| `Capacity.FailedFinishFitsExactly` | internal/capacity/manager.go:199-209 | a failed finish leaves a fitting total exactly when swapping the request for the former value does |
| `Capacity.FailedShrinkOvercommitsUnflagged` | internal/capacity/manager.go:199-209 | a late failed shrink can overcommit with the degraded flag down |
| `Capacity.RestartIsClean` | internal/command/executor.go:103-117 | after restoring, degraded says exactly that the total does not fit; no fence survives |
| `Capacity.New` | internal/capacity/manager.go:72-129 | refuses exactly a configuration with a figure that is not positive, and else restores what exists |
| `Capacity.Manager.constructor` | internal/capacity/manager.go:76-79 | a new manager holds the restored ledger |
| `Capacity.Manager.TotalLocked` | internal/capacity/manager.go:285-291 | the loop computes the wrapped total |
| `Capacity.Manager.ReserveLocked` | internal/capacity/manager.go:131-145 | reserves and clears the flag, or changes nothing |
| `Capacity.Manager.RestoreLocked` | internal/capacity/manager.go:211-217 | records the reservation even if it does not fit, and flags it |
| `Capacity.Manager.Begin` | internal/capacity/manager.go:152-165 | conflict, refusal or new reservation, generation and fence, admitting as `BeginSiteAdmitsIff` says |
| `Capacity.Manager.BeginFence` | internal/capacity/manager.go:170-179 | BeginCommand: fence only |
| `Capacity.Manager.FinishFence` | internal/capacity/manager.go:181-187 | FinishCommand lifts the fence only of its own generation |
| `Capacity.Manager.Finish` | internal/capacity/manager.go:192-210 | FinishSite: new ledger as specified, nothing for an old generation |
| `Capacity.Manager.Release` | internal/capacity/manager.go:228-237 | drops the reservation, bumps the generation, leaves the fence |
| `SiteResources.ValidReservationIsBounded` | internal/command/admission.go:139-142 | a validated request is between nothing and one maximal site; all four figures per worker, with no product wrapping |
| `SiteResources.DefaultsFillGapsOnly` | internal/site/resources.go:36-46 | defaults fill what was left at zero, touch nothing else, and are a tier that is sold |
| `Admission.PoolsCover` | internal/command/admission.go:144-161 | each of the six pools takes exactly the command types docs/capacity.md names |
| `Admission.DemandIff` | internal/command/admission.go:36-142 | which commands ask for a reservation, which for a fence, which for nothing, and which cannot be parsed |
| `Admission.ExclusionStep` | internal/command/executor.go:356-386 | every atomic step keeps one live run per fenced site, owner of the fence |
| `Admission.LedgerStep` | internal/command/admission.go:76-113 | every atomic step keeps: open request or last success, with the former value in the admission |
| `AdmissionSlots.SlotStep` | internal/capacity/manager.go:245-267 | every atomic step keeps the slot counters equal to the runs that hold or report a slot |
| `AdmissionSlots.ReportedCount` | internal/capacity/manager.go:258-263 | reported count = counted runs, off by the acquirers and releasers in between |
| `AdmissionRuns.EveryTraceKeepsInvariant` | internal/command/executor.go:356-479 | every interleaving of dispatch, deadline, cancellation and late return keeps all of the above |
| `AdmissionRuns.SiteExclusion` | internal/command/admission.go:62-137 | in every reachable state at most one run of a fenced type is live per site, and the fence is its generation |
| `AdmissionRuns.AdmittedIff` | internal/command/admission.go:40-113 | in every reachable state a fenced run is admitted exactly if its site is not deleted, no run is live on it, and a reservation fits beside those of the other sites |
| `AdmissionRuns.ReservationIsTheLastSuccess` | internal/command/admission.go:76-113 | a reservation is what the last successful create or resize asked for, or the open request whose admission carries the former value |
| `AdmissionRuns.LateFailureRestores` | internal/capacity/manager.go:192-210 | a failure, however late, restores the former value and lifts the fence |
| `AdmissionRuns.SlotConservation` | internal/capacity/manager.go:245-267 | occupied slots never exceed the limit; inUse = occupied - not yet counted + not yet uncounted |
| `AdmissionRuns.FinishedRunsReleasedOnce` | internal/command/admission.go:13-113 | every path out releases exactly what it took, at most one slot, once |
| `AdmissionRuns.QuietNodeHoldsNothing` | internal/command/executor.go:356-371 | with no run left no slot is held or reported, only deleted sites are fenced, reservations are the last successes |
| `AdmissionRuns.OtherRunsAreDetached` | internal/command/executor.go:411-479 | only the dispatched run can be waiting or unadmitted |
| `AdmissionRuns.DetachFreesTheDispatcher` | internal/command/executor.go:431-479 | a deadline or cancellation may come exactly while the dispatched run has started and is not settled, frees the dispatcher for the next command and touches nothing else |
| `AdmissionRuns.RefusalChangesNothing` | internal/command/admission.go:62-98 | a rejected admission leaves reservations, fences, generations and history as they were |
| `AdmissionRuns.DeletedSiteStaysFenced` | internal/capacity/manager.go:228-237 | after a successful delete no fenced command for that name is admitted again in this process |
| `AdmissionRuns.DegradedIsAlwaysReal` | internal/capacity/manager.go:131-145 | in every reachable state degraded implies that the total does not fit |
| `AdmissionRuns.EnvelopeHolds` | internal/capacity/manager.go:192-237 | from a start that fits, the exact total fits while no failed finish grows back |
| `AdmissionLiveness.NothingIsStuck` | internal/command/executor.go:356-386 | in every reachable state each unfinished run has an event of its own enabled that takes it on, whichever way its provisioner returns |
| `AdmissionLiveness.EveryRunCanFinish` | internal/command/admission.go:13-113 | every run can be brought to its end by its own events, with no other run moving |
| `AdmissionLiveness.NodeCanComeToRest` | internal/command/executor.go:356-479 | without further arrivals every run can end, and then no slot is held, only deleted sites are fenced, and reservations are the last successes |
| `AdmissionLiveness.WaitingIsForDetachedRuns` | internal/capacity/manager.go:245-267 | a run waits for a slot only while the channel is full, and every holder of one is past its admission and out of the dispatcher |
| `AdmissionRuns.NoSumWraps` | internal/capacity/manager.go:285-300 | in the envelope, with valid tiers and a representable limit, no int64 sum wraps in any order |
| `Durable.AtomicWrite` | internal/durable/durable.go:32-83 | replaces the file, or changes nothing, or reports a CommitError exactly when the rename happened and a later step failed; every state on the way is crash safe |
| `Durable.FaultlessIsWrittenIff` | internal/durable/durable.go:32-50 | if no call fails the write goes through exactly if the fixed temporary name or a random one can be had |
| `Durable.FailedCallDecides` | internal/durable/durable.go:51-83 | if one call fails: a CommitError exactly if it comes after the rename; a failing chmod only matters to a random name |
| `Durable.Stage` | internal/durable/durable.go:33-63 | before the rename only temporary names change |
| `Durable.CleanUp` | internal/durable/durable.go:51-67 | giving up leaves the old file and at most a stale temporary one |
| `Durable.CrashFindsOldOrNew` | internal/durable/durable.go:29-83 | a power loss at any point leaves the complete old or the complete new contents |
| `Durable.RenameCommits` | internal/durable/durable.go:64-67 | the rename puts the synced contents in place in one step |
| `Durable.SyncIsDurable` | internal/durable/durable.go:68-82 | after the directory sync only the new contents can be found |
| `Durable.OthersUnchanged` | internal/durable/durable.go:32-83 | no other file changes |
| `StoreFile.Persist` | internal/command/file_store.go:173-184 | a store's file shows the new map, the old one, or after a late failure the new one with both possible after a crash |
| `StoreFile.CrashDuringWrite` | internal/durable/durable.go:29-83 | a crash at any moment of a persist decodes to an old map or the new one |
| `StoreFile.OtherStoresStillShow` | internal/durable/durable.go:32-83 | persisting one store leaves the others in the directory, and their crash images, alone |
| `FileStore.Store.Save` | internal/command/file_store.go:102-135 | new memory, new file image and reply for every limit and every write outcome |
| `FileStore.Store.SaveTombstone` | internal/command/file_store.go:137-148 | a tombstone instead of the result, with the same rollback rule |
| `FileStore.Store.Reset` | internal/command/file_store.go:158-171 | empties both copies, or neither |
| `FileStore.SavedIsReadBack` | internal/command/file_store.go:94-134 | after a nil save the key reads back the caller's result, with nothing but a missing time filled in, in this process and after any crash |
| `FileStore.SaveReplyIff` | internal/command/file_store.go:102-134 | nil exactly if the result fits every limit and the write went through; each other answer with its cause |
| `FileStore.RefusedIsBuried` | internal/command/file_store.go:111-148 | a result refused beside others leaves a failed tombstone of its key and time; a saved one keeps both limits |
| `FileStore.LiveResultCount` | internal/command/file_store.go:203-211 | counts the records that are not tombstones |
| `FileStore.Open` | internal/command/file_store.go:32-62 | opens what the file decodes to, refuses it over a limit, rewrites an encoding that is not canonical |
| `FileStore.ReopensIff` | internal/command/file_store.go:32-62 | what was saved opens again exactly if it is within both limits, as it is and without being rewritten; so it does after every save |
| `FileStore.MemoryEqualsDisk` | internal/command/file_store.go:102-171 | memory equals the visible file after every save, tombstone and reset, under all three outcomes |
| `FileStore.SaveKeepsOtherRecords` | internal/command/file_store.go:102-135 | a save never loses or changes another key, not even across a crash |
| `FileStore.SuccessfulSaveRecords` | internal/command/file_store.go:111-148 | a nil save or a stored tombstone leaves a record that survives any crash |
| `FileStore.SaveRecordsIff` | internal/command/file_store.go:111-134 | a new key gets a record exactly if its result fits by itself and the rename happens |
| `FileStore.OversizedResultLeavesNoTombstone` | internal/command/file_store.go:111-117 | a single oversized result is refused without a tombstone |
| `FileStore.SaveKeepsEntryLimit` | internal/command/file_store.go:118-120 | live entries never exceed the limit |
| `Executor.Agent.ExecuteContext` | internal/command/executor.go:315-386 | the gates in order, the save and the remembered deadline, as one step on store and memory |
| `Executor.DispatchIff` | internal/command/executor.go:318-359 | a command reaches its provisioner exactly when no gate refuses it and no record stops it |
| `Executor.GateReplies` | internal/command/executor.go:318-355 | what is answered before dispatch, and from which record |
| `Executor.DispatchedIsAnsweredIff` | internal/command/executor.go:372-386 | a finished command is answered with its result exactly if that need not be kept or was kept |
| `Executor.RedeliveryAnswersTheSame` | internal/command/executor.go:331-386 | a redelivered command is answered as its first delivery was, through other commands, kills and power losses |
| `Executor.KeptTypesAreFenced` | internal/command/executor.go:1000-1008 | the named types whose results are kept are exactly those that are fenced on a site |
| `Executor.SealedIsAnsweredOrRefused` | internal/command/executor.go:337-351 | with a record, an execution changes nothing and answers from the record or refuses |
| `Executor.NeverAgainOnceSealed` | internal/command/executor.go:331-382 | a recorded key is never dispatched again, through kills and power losses with a reopen |
| `Executor.RestartServesIff` | internal/command/file_store.go:32-62 | a restart serves exactly if the store opens what the file shows or the power loss left, and starts on just that with no deadline remembered |
| `Executor.RecordingSeals` | internal/command/file_store.go:102-148 | a nil save or a stored tombstone is such a record in memory, file and every crash image |
| `Executor.AtMostOnceAfterRecording` | internal/command/executor.go:331-382 | record once, and the key never reaches a provisioner again |
| `Executor.AtMostOnceInALife` | internal/command/executor.go:331-382 | from an empty store, a key whose dispatches are all recorded is dispatched at most once |
| `Executor.TimedOutStaysRefused` | internal/command/executor.go:449-475 | after a deadline the key is refused for the rest of the process, even if the save failed |
| `Executor.DeadlineIsRemembered` | internal/command/executor.go:464-474 | after a fired deadline the next delivery is refused with the failed result of that command, whatever the save did |
| `Executor.CancelledCommandMayRunAgain` | internal/command/executor.go:438-444 | a cancelled or failed command records nothing and may run again at once |
| `Executor.FinishedCommandRunsAgainIff` | internal/command/executor.go:377-382 | a finished command runs again exactly if its type is not cached, its result is too large, or the rename did not happen |
| `Outbox.FileOutbox.Put` | internal/controlplane/outbox.go:115-134 | memory, file image and reply for every limit and write outcome |
| `Outbox.StoredIsTheCallers` | internal/controlplane/outbox.go:115-134 | a stored result is the caller's, with nothing but a missing time filled in, in memory, file and every crash image |
| `Outbox.FileOutbox.Delete` | internal/controlplane/outbox.go:174-189 | removes from both copies, or restores memory |
| `Outbox.FileOutbox.Reset` | internal/controlplane/outbox.go:159-172 | empties both copies, or restores memory |
| `Outbox.FileOutbox.List` | internal/controlplane/outbox.go:144-157 | every entry once, in command-id order |
| `Outbox.Open` | internal/controlplane/outbox.go:77-113 | opens exactly what decodes within the default and the requested limits |
| `Outbox.LimitsFallBack` | internal/controlplane/outbox.go:98-112 | a requested limit that is not positive means the default, any other is taken as asked |
| `Outbox.ListingIsUnique` | internal/controlplane/outbox.go:144-157 | there is only one such list |
| `Outbox.NoLostResult` | internal/controlplane/outbox.go:115-189 | an owed result is in memory, in the file and in every crash image until Control answered it, it was replaced or the outbox reset |
| `Outbox.OthersStayHeld` | internal/controlplane/outbox.go:115-189 | failed or not, writes for other commands leave a held result held |
| `Outbox.RefusedIff` | internal/controlplane/outbox.go:205-217 | a Put is refused exactly when the box is full or the bytes do not fit, and then changes neither copy |
| `Outbox.SettledStaysGone` | internal/controlplane/outbox.go:174-189 | a deletion that was written is final across kills and power losses |
| `Outbox.NothingInvented` | internal/controlplane/outbox.go:115-189 | only results that were put are ever held, each under its command |
| `Outbox.MemoryEqualsDiskIff` | internal/controlplane/outbox.go:199-201 | the copies part exactly after a failure behind the rename |
| `Outbox.EveryStateFits` | internal/controlplane/outbox.go:205-217 | memory, file and every crash image stay within the limits |
| `Outbox.EveryFileReopens` | internal/controlplane/outbox.go:77-113 | with limits up to the defaults every file a run leaves reopens |
| `Outbox.ReopensIff` | internal/controlplane/outbox.go:92-112 | a backlog within its limits reopens exactly if it is within the defaults too |
| `Outbox.GreaterLimitsMayNotReopen` | internal/controlplane/outbox.go:98-112 | with a greater entry limit more than 10000 results are kept and then refused |
| `Poller.Flush` | internal/controlplane/outbox.go:28-46 | splits the pending entries in order into accepted, lease-rejected and an untouched suffix, empty exactly on success; an error has its cause, and none comes if nothing fails |
| `Poller.ReportOne` | internal/controlplane/outbox.go:31-43 | reports one entry and deletes it once Control has answered |
| `Poller.ExecuteAndQueue` | internal/controlplane/poller.go:141-188 | executes, clears the outbox after a successful reset, queues the result the execution is owed |
| `Poller.Queue` | internal/controlplane/poller.go:170-188 | a stored result is secured in memory, file and crash images; a failed Put stops the batch |
| `Poller.ExecuteAndReport` | internal/controlplane/poller.go:141-190 | one command, executed once, stored and settled; an error has its cause, and none comes if nothing fails |
| `Poller.PollOnce` | internal/controlplane/poller.go:112-139 | without an error everything fetched was executed and settled; with one the last step is what failed; both counts are what was done; if nothing fails there is no error and the outbox is empty |
| `Poller.Poll` | internal/controlplane/poller.go:60-102 | any number of passes keeps the protocol, and fetches once a pass if nothing fails |
| `Poller.BlockedUntilSettled` | internal/controlplane/poller.go:132-139 | until its result is settled a started command blocks the protocol |
| `Poller.SettledBeforeGoingOn` | internal/controlplane/poller.go:116-126 | a fetch or a start comes only after every stored result was accepted or lease-rejected |
| `Poller.SettledBeforeNextCommand` | internal/controlplane/poller.go:132-139 | of two commands of one batch the earlier was settled before the later started |
| `Poller.ExecutesAPrefix` | internal/controlplane/poller.go:132-138 | what ran since the last fetch is a prefix of its batch, in order |
| `Poller.QueuedIsWhatWasExecuted` | internal/controlplane/poller.go:153-176 | what is put into the outbox carries id, lease, output, status and error of a command that was executed |
| `Poller.ClearedIffReset` | internal/controlplane/poller.go:156-168 | the outbox is cleared straight after a reset that succeeded, and at no other time |
| `SiteState.FileStateStore.Save` | internal/site/state.go:127-143 | memory follows the file under all three outcomes |
| `SiteState.FileStateStore.Delete` | internal/site/state.go:155-170 | memory follows the file under all three outcomes |
| `SiteState.Open` | internal/site/state.go:102-118 | opens what the file decodes to, and refuses exactly a file that does not decode |
| `SiteState.MemoryEqualsDisk` | internal/site/state.go:127-170 | memory equals the visible file after every save and delete |
| `SiteState.WrittenSurvivesCrash` | internal/site/state.go:127-181 | without an error a crash can leave only the new map |
| `Provisioner.Provisioner.Create` | internal/site/provisioner.go:59-187 | all or nothing: the whole site, or files and users as before; goes through when nothing fails and its guard holds |
| `Provisioner.Provisioner.Furnish` | internal/site/provisioner.go:110-186 | once the user exists, every error takes user, directory and configurations away again |
| `Provisioner.Provisioner.MakeTree` | internal/site/provisioner.go:138-156 | builds the site directory, or leaves part of it and nothing else |
| `Provisioner.Provisioner.ActivateConfigs` | internal/site/provisioner.go:157-181 | both configurations are activated, or none |
| `Provisioner.Provisioner.ApplyDomains` | internal/site/provisioner.go:248-294 | the new vhost and record, or the old vhost |
| `Provisioner.Provisioner.AddDomain` | internal/site/provisioner.go:194-218 | adds a free domain, accepts its own, refuses another site's |
| `Provisioner.Provisioner.FindOwner` | internal/site/provisioner.go:202-211 | finds a site that lists the domain exactly if there is one |
| `Provisioner.Provisioner.RemoveDomain` | internal/site/provisioner.go:220-246 | drops the alias, accepts an unlisted one, refuses the primary |
| `Provisioner.Provisioner.SetSiteStatus` | internal/site/provisioner.go:461-512 | suspend and resume: effect, no-op or unchanged |
| `Provisioner.Provisioner.MoveVhost` | internal/site/provisioner.go:479-511 | moves the vhost and the status, or moves it back |
| `Provisioner.Provisioner.SetPHPVersion` | internal/site/provisioner.go:529-597 | changes the version, or leaves files as before when the new pool's place was free |
| `Provisioner.Provisioner.MovePool` | internal/site/provisioner.go:544-596 | new pool, old pool gone, record; or the old pool back |
| `Provisioner.Provisioner.SetResources` | internal/site/provisioner.go:611-668 | pool and record get the resources asked for, or the old pool is back; equal resources change nothing |
| `Provisioner.Provisioner.TakeDown` | internal/site/provisioner.go:351-403 | directory, configurations, record and user go, or all are put back |
| `Provisioner.Provisioner.Forget` | internal/site/provisioner.go:395-402 | deletes the record, then the user |
| `Provisioner.Provisioner.Delete` | internal/site/provisioner.go:334-404 | all or nothing, for every fault but one in the rollback |
| `Provisioner.PutBack` | internal/site/provisioner.go:376-382 | the rollback of Delete reaches the original files from anywhere along the way |
| `SiteHost.OneSiteChanges` | internal/site/provisioner.go:744-782 | an operation that touches one site's paths keeps every other site in place |
| `SiteHost.CreateKeepsHealthy` | internal/site/provisioner.go:59-187 | Create keeps: every site in place, one vhost per site, one pool per user, nothing left over |
| `SiteHost.DomainsKeepHealthy` | internal/site/provisioner.go:248-294 | domain edits keep it |
| `SiteHost.StatusKeepsHealthy` | internal/site/provisioner.go:461-512 | suspend and resume keep it |
| `SiteHost.VersionKeepsHealthy` | internal/site/provisioner.go:529-597 | a version change keeps it |
| `SiteHost.ResourcesKeepHealthy` | internal/site/provisioner.go:611-668 | a resource change keeps it |
| `SiteHost.DeleteKeepsHealthy` | internal/site/provisioner.go:334-404 | Delete keeps it |
| `SiteHost.OneVhostPerSite` | internal/site/provisioner.go:479-485 | the vhost is in the directory of the site's status and not in the other |
| `SiteHost.OnePoolPerUser` | internal/site/provisioner.go:544-550 | a site user has one pool, in the directory of its version |
| `SiteHost.DeleteUndoesCreate` | internal/site/provisioner.go:59-404 | create, suspend and delete give back files, users and records |
| `SiteHost.ResumeUndoesSuspend` | internal/site/provisioner.go:326-332 | resume undoes suspend |
| `SiteHost.VersionChangeIsReversible` | internal/site/provisioner.go:529-597 | going back to the old version restores the node |
| `SiteIntent.SafeNameIff` | internal/site/provisioner.go:57-66 | exactly the names of 1 to 63 letters, digits, dots, underscores and dashes that start with a letter or digit are let through |
| `SiteIntent.CreateGivesWhatWasAsked` | internal/site/provisioner.go:59-187 | record, vhost, pool, page and user of a new site, each as asked for |
| `SiteIntent.DomainsAreServed` | internal/site/provisioner.go:248-324 | the vhost in force names the application, every listed domain, the document root and the user |
| `SiteIntent.DomainsAreAsAsked` | internal/site/provisioner.go:194-246 | adding lists the domain beside the former ones, removing lists the former ones without it |
| `SiteIntent.StatusIsAsAsked` | internal/site/provisioner.go:461-512 | suspending and resuming move the same vhost; only the status in the record changes |
| `SiteIntent.VersionIsAsAsked` | internal/site/provisioner.go:529-597 | the pool as it was in the directory of the version asked for, and not in the old one |
| `SiteIntent.ResourcesAreAsAsked` | internal/site/provisioner.go:611-668 | record and pool hold the resources asked for, zeros meaning the defaults |
| `SiteIntent.DeleteLeavesNothing` | internal/site/provisioner.go:334-404 | no file, record or user of the site is left; only a suspended one without databases and SFTP goes |
| `SiteIntent.AskingAgainFindsNothing` | internal/site/provisioner.go:59-668 | after each operation asking for the same again finds nothing to do |
| `SiteRuns.Reconcile` | internal/site/provisioner.go:744-782 | every drift of every site once, in id order, or an error exactly if a status cannot be read; no drift exactly when every site has its four resources as recorded |
| `SiteRuns.ReconcileSite` | internal/site/provisioner.go:751-780 | the drifts of one site, or an error |
| `SiteRuns.SilentIff` | internal/site/provisioner.go:744-782 | no drift is reported exactly when every listed site is as recorded |
| `SiteRuns.MissingIsTold` | internal/site/provisioner.go:751-780 | a resource is reported missing exactly if it is absent |
| `SiteRuns.ChangeIsTold` | internal/site/provisioner.go:751-780 | a configuration is reported changed, with both texts, exactly if it can be read and is not what the record says |
| `SiteRuns.ReportIsOrdered` | internal/site/provisioner.go:751-780 | a site's report speaks of that site, in a fixed order, of nothing twice |
| `SiteRuns.StuckIff` | internal/site/provisioner.go:751-780 | any of the four resources may end the reconciliation |
| `SiteRuns.DriftsOfAll` | internal/site/provisioner.go:744-782 | the report of several sites is what is wrong with each |
| `SiteRuns.NextKeepsHealthy` | internal/site/provisioner.go:59-668 | every operation, done or undone, keeps the node healthy |
| `SiteRuns.FreshNodeIsHealthy` | internal/site/provisioner.go:744-782 | a node with runtimes and no sites is a start of such runs |
| `SiteRuns.NoDriftInAnyRun` | internal/site/provisioner.go:744-782 | over every run of operations Reconcile finds no drift in between |
| `SiteRuns.Apply` | internal/site/provisioner.go:59-668 | every operation under any faults is a step of such a run unless a save fails after its rename; one that fails otherwise leaves files, users and records alone |
| `SiteRuns.ApplyAllThenReconcile` | internal/site/provisioner.go:744-782 | any operations with any such faults, then Reconcile: nothing to report |
| `SiteRuns.HalfSaveDriftsIff` | internal/site/state.go:127-143 | after a save that failed behind its rename: drift always, or exactly when the configuration text would have changed |
| `SiteDomains.AddKeepsExclusive` | internal/site/provisioner.go:194-218 | AddDomain keeps domains exclusive |
| `SiteDomains.RemoveKeepsExclusive` | internal/site/provisioner.go:220-246 | RemoveDomain keeps domains exclusive and the primary listed |
| `SiteDomains.CreateKeepsExclusiveIff` | internal/site/provisioner.go:59-93 | Create keeps domains exclusive exactly when no site lists the new one |
| `SiteDomains.CreateTakesAnAlias` | internal/site/provisioner.go:59-93 | on any healthy node an alias can be taken over by a new site |
| `SiteDomains.RemoveUndoesAdd` | internal/site/provisioner.go:194-246 | removing a fresh alias restores the set |
| `SiteDomains.NextKeepsExclusive` | internal/site/provisioner.go:59-668 | every operation keeps domains exclusive, Create for a free one |
| `SiteDomains.ExclusiveInAnyRun` | internal/site/provisioner.go:194-301 | over every run with free new domains no domain belongs to two sites |
| `Strings.SortSorts` | internal/site/provisioner.go:213 | sort.Strings reorders and nothing else |
| `Strings.SortedKeys` | internal/controlplane/outbox.go:147-151 | the keys of a map in ascending order |
| `Strings.EnumerationIsUnique` | internal/controlplane/outbox.go:147-151 | a set has one ascending enumeration |
| `RateLimit.TokenBucket.constructor` | internal/command/rate_limit.go:23-38 | a full bucket of one minute's worth, at least one |
| `RateLimit.TokenBucket.Allow` | internal/command/rate_limit.go:43-65 | refill capped at capacity, then take or refuse with the wait |
| `RateLimit.TypeLimit.Admit` | internal/command/executor.go:492-539 | a denied command asks the bucket a second time, and is told the seconds of that answer; a rate that is not positive limits nothing |
| `RateLimit.CallSpends` | internal/command/executor.go:492-539 | one command keeps tokens within 0 and capacity and spends no more than the clock paid for |
| `RateLimit.RateBound` | internal/command/rate_limit.go:23-65 | while the largest reading moves from s to t at most max(1, r) + (r/60)(t - s) commands get through, whatever the clock does |
| `RateLimit.LastIsLargest` | internal/command/rate_limit.go:47-55 | the refill mark is the largest reading so far |
| `RateLimit.BurstIsLetThrough` | internal/command/rate_limit.go:23-27 | a full bucket lets a whole burst through |
| `RateLimit.ToldWaitFallsShortIff` | internal/command/executor.go:529-537 | the seconds told suffice unless truncation dropped a fraction of a nanosecond above a whole second |
| `RateLimit.ToldWaitFallsShort` | internal/command/executor.go:529-537 | at seven a minute, an emptied bucket asked after 0.571428571 s denies, says 8 s, and denies again after them |
| `RateLimit.RetryAfterIsExact` | internal/command/rate_limit.go:62-64 | before truncation, a later reading is let through exactly if the wait has passed |
| `Audit.Logger.constructor` | internal/audit/audit.go:64-79 | keeps an existing log or starts an empty one, with what can be read of it as the history so far |
| `Audit.Logger.Record` | internal/audit/audit.go:104-160 | rotate if needed, then append the line; the answer is nil exactly if the line was written whole and synced, and too large exactly if it is |
| `Audit.Logger.RotateFiles` | internal/audit/audit.go:162-192 | the descending renames, the active file, the surplus file |
| `Audit.CalmRecordIsKept` | internal/audit/audit.go:104-160 | if nothing fails an event that fits is kept: appended while there is room, else alone in a new file |
| `Audit.RotatedMeans` | internal/audit/audit.go:162-192 | a rotation that reports success met no failing call and leaves nothing beyond the last kept file |
| `Audit.ShiftKeepsSuffix` | internal/audit/audit.go:163-169 | however far the renames get, what is read is a suffix of what was read before |
| `Audit.RecordKeepsWindow` | internal/audit/audit.go:104-160 | a record keeps the files a window onto the end of the history |
| `Audit.RecordKeepsBound` | internal/audit/audit.go:139-151 | each file stays within maxBytes |
| `Audit.WindowInAnyRun` | internal/audit/audit.go:104-192 | after any records, with renames failing part way, the files read in order are a suffix of all appended events, in at most maxFiles + 1 files of at most maxBytes |
| `Audit.StatFailureOverflowsIff` | internal/audit/audit.go:139 | if the size cannot be read the bound holds exactly when the chunk that reaches the file, whole or torn, fits |
| `Audit.RecordedIsLast` | internal/audit/audit.go:153-159 | a record written whole is the last thing a reader sees |
| `Audit.RotationLosesOldestOnly` | internal/audit/audit.go:162-192 | a rotation that goes through loses the oldest kept file and nothing else |
| `Backup.RestorePathRefusesIff` | internal/backup/manager.go:622-633 | a name is refused exactly when it is absolute or climbs above the document root on its way |
| `Backup.Site.ApplyArchive` | internal/backup/manager.go:482-527 | entry by entry, stopping at the first failure |
| `Backup.CopyArchive` | internal/backup/manager.go:392-402 | a download passes exactly up to 500 MiB, and at most one byte more is read |
| `Backup.Site.Restore` | internal/backup/manager.go:285-329 | unconfirmed or too long changes nothing, else the archive is applied |
| `Backup.WriteArchive` | internal/backup/manager.go:171-236 | manifest, files in walk order, dumps; nothing at all if the tree holds a link |
| `Backup.RestoreOne` | internal/backup/manager.go:540-578 | restoring an entry whose parents are in place puts exactly that entry in place |
| `Backup.RelPartsRestore` | internal/backup/manager.go:187-207 | the archived name of a path leads back to it |
| `Backup.RestoreUndoesWrite` | internal/backup/manager.go:285-578 | a confirmed restore of what was written goes through exactly within the limits on entries, bytes and download; archived paths get their contents, others stay, dumps replay in order |
| `Backup.ForeignArchiveChangesNothing` | internal/backup/manager.go:509-538 | another site's archive is refused before anything changes |
| `Backup.NothingIsRemoved` | internal/backup/manager.go:540-578 | no archive makes a restore remove a path |
| `Backup.LinksAreNotFollowed` | internal/backup/manager.go:540-662 | no archive makes a restore replace a link or write through one |
| `BackupRestore.RestoredMeans` | internal/backup/manager.go:482-580 | after a restore that went through, whoever wrote the archive: every entry was acceptable, dumps replayed once each in order, each path holds what its last entry says, every other path what it held |
| `BackupRestore.EntryRestoredIff` | internal/backup/manager.go:511-662 | an entry goes through exactly if it is acceptable, and one of files if no link of the site is on its way and there is room |
| `Backup.LimitsAreEnforced` | internal/backup/manager.go:500-504 | only an archive within both limits goes through |
| `BackupInspect.InspectArchive` | internal/backup/manager.go:407-480 | verdict and counts, or the first reason to refuse with the counts it reports |
| `BackupInspect.VerifiedMeans` | internal/backup/manager.go:407-480 | a verified archive holds a manifest, only of this site, no link, no unsafe name, something to recover, within the limits, with its exact counts |
| `BackupInspect.RefusedAtTheEndIff` | internal/backup/manager.go:473-480 | one read to its end is refused exactly for want of a manifest or of anything to recover |
| `BackupInspect.CountsOfARefusal` | internal/backup/manager.go:407-471 | the counts that come with each reason to refuse |
| `BackupInspect.VerifyNewest` | internal/backup/manager.go:334-390 | an error without an archive or with a download too long, else the verdict on the newest |
| `BackupInspect.InspectAcceptsWritten` | internal/backup/manager.go:334-480 | a written archive within the limits is verified with its exact counts, or refused as empty; too long a download is an error |
| `Timestamps.NamesSortByTime` | internal/backup/manager.go:140-141 | archive names sort in time order and differ for different instants |
| `Timestamps.SecondsAscend` | internal/backup/manager.go:718-724 | field order is time order across months and leap years |
| `Timestamps.CalendarCounts` | internal/backup/manager.go:718-724 | the next day is one day later across months, leap years and centuries |
| `Retention.Bucket.List` | internal/backup/manager.go:90-116 | every archive once with its size and time, newest name first; other objects passed over |
| `Retention.Bucket.Prune` | internal/backup/manager.go:699-714 | of the archives, leaves the seven newest, the window, and what could not be deleted; other objects stay, and everything if listing fails |
| `Retention.PruneKeepsByTime` | internal/backup/manager.go:696-724 | for every retention, an archive is left exactly if fewer than seven are younger or it is younger than the window is really long |
| `Retention.PruneKeepsThePlan` | internal/backup/manager.go:696-724 | up to 106751 days that window is the one the plan asked for |
| `Retention.WindowIsExactIff` | internal/backup/manager.go:704-707 | the window is as long as asked for exactly up to 106751 days, and never longer |
| `Retention.NoWindowIff` | internal/backup/manager.go:704-711 | the cutoff lies ahead exactly if the product leaves a remainder in the upper half of 64 bits; then nothing written so far is inside |
| `Retention.FirstGap` | internal/backup/manager.go:704-707 | so it is from 106752 to 213503 days |
| `Retention.AfterTheGap` | internal/backup/manager.go:704-707 | at 213504 days the window is less than half an hour |
| `Retention.NoWindowKeepsSevenOnly` | internal/backup/manager.go:708-713 | without a window only the seven newest are left |
| `Retention.ZeroTimeIsYearOne` | internal/backup/manager.go:716-724 | a name that does not parse counts as the first instant of year 1 |
| `Retention.PruningTwiceIsPruningOnce` | internal/backup/manager.go:699-714 | a second run with the same clock deletes nothing |
| `Retention.SevenAreLeft` | internal/backup/manager.go:64-67 | never fewer than seven are left, or all there were |
| `Enrollment.Manager.PersistGeneration` | internal/enrollment/manager.go:321-357 | three files, the manifest, three mirrors, in this order, stopping at the first error; without one, key, certificate and CA resolve to those given, and the mirrors show them |
| `Enrollment.CommitIsSound` | internal/enrollment/manager.go:341-348 | a generation named by the manifest is complete, its certificate for its key |
| `Enrollment.NextIsSound` | internal/enrollment/manager.go:321-394 | every write, kill and power loss keeps that |
| `Enrollment.EveryCrashPointIsWhole` | internal/enrollment/manager.go:321-394 | after any enrolments and renewals cut short anywhere, key, certificate and CA resolve to the very set the named generation was started with, or to what was there before the first |
| `Enrollment.RenewingKeepsOneKey` | internal/enrollment/manager.go:157-205 | renewals keep every resolvable file right for the one key |
| `Enrollment.ReadersGetAMatchingPair` | internal/enrollment/manager.go:419-441 | a reader that resolves and reads certificate and key separately gets a matching pair while renewals run |
| `SqlLiteral.LiteralRoundTrip` | internal/database/manager.go:416-422 | lexing a literal before any text that does not start with a quote consumes it exactly and yields the value |
| `SqlLiteral.StatementReadsBack` | internal/database/manager.go:293-339 | a statement with any quoted values is read as its text with each value as one token |
| `SqlLiteral.PlainNamesNeedNoEscape` | internal/database/manager.go:293-339 | a name without quotes and backslashes is its own literal, as the statements write it |
| `SqlLiteral.PasswordStatementsReadBack` | internal/database/manager.go:293-339 | the three statements that carry a password read back for every password, with names as safeName admits them |
| `SqlLiteral.UserStatementsCarry` | internal/database/manager.go:293-339 | the values read from those statements are the password, and on MariaDB user and host of each of its three accounts |
| `SqlLiteral.UserStatementsSpell` | internal/database/manager.go:293-339 | the text around those values, word by word |
| `SqlLiteral.DoublingAloneInMariaDB` | internal/database/manager.go:408-415 | doubling alone would do in MariaDB exactly when every backslash stands before a percent sign or underscore |
| `SqlLiteral.TrailingBackslashEscapes` | internal/database/manager.go:410-415 | the value of one backslash swallows its closing quote |
| `DatabaseServer.OneAfterAnother` | internal/database/manager.go:23-38 | of two batches run as one the second starts only if the first goes through |
| `DatabaseServer.CreatesUser` | internal/database/manager.go:327-339 | wherever the batch stops it has made the first of the accounts; on PostgreSQL an existing role is refused |
| `DatabaseServer.CreatesBoth` | internal/database/manager.go:293-301 | wherever MariaDB's batch stops: the first of the accounts, and the database from the fourth statement on |
| `DatabaseServer.DropsUser` | internal/database/manager.go:320-325 | wherever the batch stops it has dropped the first of the accounts |
| `DatabaseGrants.SqueezedHolds` | internal/database/manager.go:431-439 | remove leaves every other value in the slice it was given, and invents none |
| `DatabaseGrants.StillShownIff` | internal/database/manager.go:431-439 | the slice still shows the removed value exactly if it was the last |
| `DatabaseGrants.ServerAfter` | internal/database/manager.go:52-232 | every operation, however it fails, adds to the server what it makes and takes away what it drops, and nothing else |
| `DatabaseGrants.StaysClosedIff` | internal/database/manager.go:52-232 | however an operation fails, grants speak of listed databases and users afterwards, except exactly when a Create writes its grant and then its save comes to nothing |
| `DatabaseGrants.FailedCreateRestoresIff` | internal/database/manager.go:60-83 | after a failed Create: the record is unchanged exactly if it stopped before the record or nothing shared was written; accounts and databases exactly if all that was new was dropped and nothing else |
| `DatabaseGrants.FailedBatchLeavesAccounts` | internal/database/manager.go:60-62 | a failed CREATE DATABASE leaves new accounts, a failed GRANT the database too, with no record of them |
| `DatabaseGrants.CreateListsDroppedIff` | internal/database/manager.go:80-83 | the record lists a dropped database exactly after a save that failed behind its rename and a rollback that got to it |
| `DatabaseGrants.DeleteDropsUserIff` | internal/database/manager.go:116-126 | the user goes exactly when no other database of the site is open to it |
| `DatabaseGrants.DeletedUserHoldsNothing` | internal/database/manager.go:184-187 | a deleted user holds nothing, everyone else what they held, however saving ends |
| `DatabaseGrants.RevokeUndoesGrant` | internal/database/manager.go:196-232 | revoke gives back every list as grant found it |
| `DatabaseIntent.OkIff` | internal/database/manager.go:52-232 | each operation answers without an error exactly if there was nothing to do, or its batches went through and the record was saved |
| `DatabaseIntent.OkMeansDone` | internal/database/manager.go:52-232 | whatever fails on the way, an operation that answers so has done what it is for: lists, grants, accounts and databases as asked, nothing else changed |
| `DatabaseIntent.AskingAgainIsIdle` | internal/database/manager.go:52-232 | asking again after success finds nothing to do |
| `DatabaseRetries.RepeatFinishesIff` | internal/database/manager.go:52-232 | repeating a failed operation ends as one that never failed, in record, server, file and answer, except exactly where the first try already shows its end in memory, or left on PostgreSQL what cannot be made twice |
| `DatabaseRetries.FirstOfTwoIsLost` | internal/database/manager.go:115-126 | of two databases the first is deleted and DROP USER fails: the repetition answers absent, user and file stay |
| `DatabaseRetries.RestartFinishes` | internal/database/manager.go:102-232 | after a restart, repeating a delete, a user's delete, a grant or a revoke that was not written always finishes it |
| `DatabaseSites.GrantsStayClosed` | internal/database/manager.go:52-232 | over every run without such a Create, grants of all sites, in memory and in the file, speak only of what is listed |
| `DatabaseSites.LeakIsWritten` | internal/site/state.go:127-143 | the next record of another site that is saved takes the leaked grant into the file |
| `DatabaseSites.ServesAfterIff` | internal/database/manager.go:52-232 | another site's databases and users all exist after an operation exactly if it lists neither the database nor the user that the operation drops |
| `DatabaseSites.AnotherSitesUserIsDropped` | internal/database/manager.go:60-126 | a delete that names another site's user, and a rolled back Create, drop it |
| `DatabaseSites.UndisturbedIsServed` | internal/database/manager.go:52-232 | over every run, whatever fails elsewhere, everything a site lists exists if its own operations succeed and the others name nothing of it |
| `DatabaseManager.RemoveInPlace` | internal/database/manager.go:431-439 | compacts in place: the kept values, in order, then the end as it was |
| `DatabaseManager.IsGranted` | internal/database/manager.go:384-392 | whether any database is still open to the user |
| `DatabaseManager.Manager.Save` | internal/site/state.go:127-143 | all records go to the file together; on a failure short of the rename this one is put back |
| `DatabaseManager.Manager.Create` | internal/database/manager.go:52-86 | batches, record and rollback statement by statement, under any failures |
| `DatabaseManager.Manager.Delete` | internal/database/manager.go:102-131 | if confirmed, drops the database, and the user if nothing else of the site is open to it |
| `DatabaseManager.Manager.CreateUser` | internal/database/manager.go:146-167 | a new user, or the rollback |
| `DatabaseManager.Manager.StripGrants` | internal/database/manager.go:185-187 | takes the user out of every grant of the store's own map |
| `DatabaseManager.Manager.DeleteUser` | internal/database/manager.go:170-193 | user and every grant it held |
| `DatabaseManager.Manager.Grant` | internal/database/manager.go:196-212 | only a listed user on a listed database |
| `DatabaseManager.Manager.Revoke` | internal/database/manager.go:215-231 | takes the grant away again |

## Left out

- Capacity.Manager: the generation counters are unbounded, so their wrap at 2^64 is not modelled; `degradedReason` moves with the flag and is not kept apart.
- Admission.ExclusionStep: AcquireOperation is a set of steps of the state machine, not a method, because it blocks on a channel.
- Executor.Agent.ExecuteContext: a system reset empties the store through `FileStore.Store.Reset` but is not an event of these runs; an audit failure is ignored as in the source; json.Marshal never fails; the text in a timeout's result, which names type and seconds, is a constant.
- FileStore.Open: models NewFileStore; NewFileStoreWithLimits has no caller outside tests.
- Poller.Poll: the tick timer, the stop check and the status sink; a run is any number of passes.
- Provisioner.Provisioner.Create: a rollback step that fails, a command that half succeeds on the user database, `.trash` and staging files; the templates are functions of the record, a pool of the user, directory and resources.
- SiteRuns.Reconcile: hashes are compared as contents.
- SiteDomains.ExclusiveInAnyRun: two operations of different sites running at once; the model runs one after another.
- RateLimit.RateBound: floating point is real arithmetic.
- Audit.Logger.Record: the fields filled in before encoding; an event is the line it is encoded to.
- Backup.RestoreUndoesWrite: file modes, owners and times, special files, a gzip or tar stream cut short, and the race of a restore with the site itself.
- Retention.Bucket.List: two objects of one base name under a site; a name with fractional seconds, which the agent never writes, counts as one that does not parse.
- Enrollment.EveryCrashPointIsWhole: a power loss that keeps the manifest keeps the generation directory too, since both are entries of one directory and the directory came first.
- Enrollment.Manager.PersistGeneration: how caBundleFor picks the CA of a response; the CA is a parameter.
- Enrollment.ReadersGetAMatchingPair: an Enroll during the read, which makes a new key.
- DatabaseManager.Manager.Create: RotatePassword, the checks of names, and privileges on the server beyond which accounts and databases exist; PostgreSQL's refusal to drop a role that owns something is a batch that stops.
- DatabaseSites.GrantsStayClosed: other fields of a site's record, and two commands on the records at once; the executor runs database commands one after another unless one outlives its deadline.
- SiteState.MemoryEqualsDisk: the store's own operations; what the database manager does to the lists it shares with the store is in `DatabaseGrants`.
- HTTP, mTLS handshakes, S3, mail, telemetry, the terminal interface and the installers: I/O outside the repository's own logic.
- The cases of runCommand and the payload parsers: one branch each.
- AppInstall, AppUpdate, Reset with forceRemove, RemoveRuntime: side effects in which partial failure is intended.
- Self-update version ordering, mail aliases, cron, logs, inventory, TLS inspection: easy members only.
