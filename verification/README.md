# Verified models of the learner-record core

This project models the parts of Project 42 whose behaviour is hardest to see from single functions, and proves what
they keep over whole runs. It is written for Dafny 4.11; `dafny verify dfyconfig.toml` checks everything.

## What is modelled

**The learning-event log.** `LearningEvents` has the shapes and the validity rule of events, `Projection` and
`ProjectionEngine` the replay (as a function and as the loop over four mutable collections), `EventTables` and
`SqlStore` the SQL store with its atomic batches, `MemoryStore` the in-memory store it has to match, and
`RecordReceipts` and `RecordRecovery` exports, receipts and restores. `ProjectionLog` says which logs replay and what the
tables then hold in terms of the events alone, `ProjectionViews` what transcript and badges say. `AppendProtocol` lets any
number of `execute` calls and deletions of all three kinds take their steps in any order over one set of tables;
`AppendInvariants`, `AppendTheorems`, `DeletionTheorems` and `DeletionCoverage` prove what every run keeps,
`ExecuteAlone` what a single call ends with, and `StoreSimulation` that every run on the tables is a run on the in-memory
log.

**The sliding-window limiter.** `AbuseLimiter` has one check as a sequence of statements, `LimiterProtocol` concurrent
checks under advisory locks, with arbitrary clock readings taken before the locks and rollbacks at any moment. Its bounds
count the admitted checks themselves, not the rows they leave.

**Record algebra.** `PrerequisiteCycles` is the depth-first cycle check. `BadgeCredentials` and `BadgeTheorems` are the
badge lifecycle fold. `CanonicalJson` is the comparison text of records. `Progress`, `ProgressMerge`, `MergeTheorems`,
`MergeOrder`, `ProgressRuns` and `RecordingTheorems` are recording and merging of learner progress, `PortableRecord` and
`PortableTheorems` the portable backup and its independently written validator.

**Identity provisioning.** `IdentityProvisioning` has the lifecycle table, drift, readiness and record validity,
`IdentityEngine` the record transformations and the compare-and-set store, `ProvisioningProtocol` concurrent calls with
an adapter that may answer anything, and `ProvisioningTheorems` what the stored versions look like in every run.
`ProvisioningGates` is about the authority gate of owner-gated plans, `ProvisioningOutcomes` about what becomes of each
answer and failure. `ProvisioningExactness` says exactly when a stored step leaves the lifecycle table and when a ready
version passes the readiness evaluation, `ProvisioningClients` exactly when a second client is refused, and
`ProvisioningExamples` has runs from the empty store that reach what is not refused.

`Wrappers`, `Sequences`, `Rounding`, `Sorting` and `StableSorting` hold options and results, laws of selections and
permutations, percentages, and the stable sort.

## Where the code does not do what its description says

Each of these is a lemma with a concrete input, next to the exact condition under which the promise holds.

- A deletion and a refill between a listing and its append bring the revision back, and an event that was checked
  against the old log is committed to the new one; the stream then does not replay
  (`DeletionTheorems.ClearedAndRefilledStreamBreaksReplay`). A batch keeps all streams replayable exactly if it is
  stopped, finds another revision, or the candidate passes its check against the stream it finds
  (`AppendTheorems.BatchReplaysExactly`), and in every run all streams replay exactly if no batch failed this
  (`AppendTheorems.RunReplaysExactly`).
- A verified deletion can remove events that no receipt covers: when two of them in flight build equal receipts
  (`DeletionTheorems.TwoDeletionsCanLoseAnEvent`), and with a single one when the stream is deleted and refilled to the
  same count between its reading and its batch (`DeletionCoverage.RefilledStreamIsRemovedUncovered`). In every run the
  removal is covered exactly if an equal receipt is stored and the stream is empty or the covered one, or the receipt is
  new and the count differs, the operation is taken or the stream is the covered one
  (`DeletionCoverage.DeletionCoversExactly`).
- The recovery comparison leaves out the last sequence number but not the number of the last import, so a faithful
  restore can fail it (`RecordRecovery.FaithfulRestoreCanFailTheComparison`); it passes exactly if the export has no
  import or its last one, at place k, has the target's next number plus k (`RecordRecovery.RestoreMatchesExactly`).
- The two event stores report different errors exactly when a stale revision and a duplicate attempt or correction
  coincide (`StoreRefinement.AppendRefines`), and an invalid candidate stays in the SQL tables
  (`StoreRefinement.InvalidCandidateIsKeptBySql`); the engine never builds one.
- After a merge a module can have its passing check and its passing capstone and yet not be completed
  (`ProgressRuns.SampleWorkIsNotCompleted`); this happens exactly when the two were recorded in different records
  (`ProgressRuns.MergeAwardsExactlyWithoutSplits`).
- A merge repeats an identifier when the survivor already holds the prefixed one
  (`MergeTheorems.TakenPrefixRepeatsAnId`), and only then (`MergeTheorems.MergedAttemptIdsAreUniqueExactly`).
- The provisioning engine stores a client as `ready` straight from `provisioning`, which is not an entry of its table
  (`ProvisioningExamples.ProvisioningIsStoredAsReady`). A stored step is no entry of the table exactly if it records a
  rejected decision on a pending gate, or hands a registration over from preflight, provisioning or secret-pending with
  an answer that is well formed and shows the client as planned
  (`ProvisioningExactness.StoredStepLeavesTheTableExactly`).
- An adapter that itself answers `ready` is believed without the readiness evaluation
  (`ProvisioningExamples.ClaimedReadinessIsNotEvaluated`). A version stored as ready passes the evaluation exactly if
  the adapter left the decision to the engine or its answer shows the client as planned
  (`ProvisioningExactness.StoredReadyPassesExactly`).
- An adapter that itself answers `provisioning` takes an owner-gated operation past its gate without an authority
  (`ProvisioningExamples.AdapterPassesTheOwnersGate`). A version is stored as provisioning under an owner-gated plan
  exactly if its pending gate was approved or the adapter answered so (`ProvisioningGates.ProvisioningIsEnteredOnlyBy`).
- A second create for a client is not always refused: two that overlap both start
  (`ProvisioningExamples.ConcurrentCreatesCanBothStart`), and one that reads later starts when the newest version of the
  client is a retirement under another key (`ProvisioningExamples.RetiredNewestLetsACreateThrough`). A create is refused
  exactly if the newest version is not retired (`ProvisioningClients.CreateIsRefusedExactly`), and one that was let
  through starts over a live newest version exactly if the last version stored since it read is live
  (`ProvisioningClients.CreateStartsOverALiveVersionExactly`).

## Conventions

Identifiers are opaque: numbers in the event log, the badges, the limiter and the provisioning modules, texts in the
progress and backup modules, where prefixes matter. A SHA-256 digest is represented by the value that is hashed.
Timestamps are integers; their text order is taken to be their order in time. Scores and points of progress records are
integers, badge scores are reals. Clocks, random tokens and adapter answers are parameters or nondeterministic.

## Model

| member | source | states |
|---|---|---|
| `ProjectionEngine.ProjectLearningEvents` | src/learning-event-engine.ts:461-542 | the loop over the sorted events yields exactly the projection of the sorted log, with tables, transcript, badges and snapshot, or its first error |
| `ProjectionEngine.ListProjection` | src/learning-event-engine.ts:516-541 | every enrollment has its transcript entry, and the badges are those that are earned |
| `ProjectionEngine.BestScore` | src/learning-event-engine.ts:747-780 | the best effective score among the attempts of an enrollment, or none without attempts |
| `ProjectionLog.ReplaysExactly` | src/learning-event-engine.ts:479-514 | a log replays exactly if none of its events is at fault after the events since the last import, and otherwise fails as the first one that is |
| `ProjectionLog.TablesAreTheLog` | src/learning-event-engine.ts:575-727 | enrollments, attempts with their corrections in order, and correction identifiers are exactly those of the events since the last import |
| `ProjectionViews.TranscriptExactly` | src/learning-event-engine.ts:747-780 | for every log that replays: the transcript counts the completed places of each module list, all of them exactly if the badge is earned, their share to the nearest hundredth, and the best effective score of the path |
| `ProjectionViews.BadgesExactly` | src/learning-event-engine.ts:782-813 | the badges are those of the enrollments whose modules are all completed, for all their modules, at the last completion |
| `ProjectionViews.SnapshotExactly` | src/learning-event-engine.ts:503-541 | snapshot, its number and time are those of the last import; revision and last number those of the log |
| `ProjectionEngine.ReplayState.ApplyEnrollment` | src/learning-event-engine.ts:575-599 | an enrollment is stored once, and a different one for the same path and version is a conflict that changes nothing |
| `ProjectionEngine.ReplayState.ApplyModuleVisit` | src/learning-event-engine.ts:601-627 | a visit keeps the earliest visit time |
| `ProjectionEngine.ReplayState.ApplyModuleCompletion` | src/learning-event-engine.ts:655-684 | a completion keeps the earliest completion time and unites the evidence |
| `ProjectionEngine.ReplayState.ApplyAssessment` | src/learning-event-engine.ts:629-653 | an attempt is stored once, a repeated identifier is refused and changes nothing |
| `ProjectionEngine.ReplayState.ApplyCorrection` | src/learning-event-engine.ts:686-727 | a correction becomes effective for its attempt, or is refused and changes nothing |
| `ProjectionEngine.ReplayState.ApplyEvent` | src/learning-event-engine.ts:544-573 | each event kind is applied under its enrollment check |
| `ProjectionEngine.AscendingLogsAreSorted` | src/learning-event-engine.ts:466-469 | a log as the store lists it is left as it is by the sort |
| `ProjectionEngine.InputOrderIsIrrelevant` | src/learning-event-engine.ts:466-469 | the events may be handed over in any order |
| `ProjectionTheory.ReplayConcat` | src/learning-event-engine.ts:479-514 | replaying a log in two parts is replaying it at once |
| `ProjectionTheory.ReplayDependsOnlyOnOrder` | src/learning-event-engine.ts:411-422 | two logs with the same bodies in the same order replay alike, whatever their sequence numbers |
| `ProjectionTheory.PrefixReplays` | src/learning-event-engine.ts:479-514 | every prefix of a log that replays also replays |
| `ProjectionTheory.ReplayableIsAscending` | src/learning-event-engine.ts:479-502 | a log that replays is ascending, valid and of one learner |
| `ProjectionTheory.ImportIsACheckpoint` | src/learning-event-engine.ts:503-512 | what precedes the last import affects only the revision count |
| `ProjectionTheory.ModuleActivityIsAJoin` | src/learning-event-engine.ts:601-627 | the state of a module is the earliest visit, the earliest completion and the union of evidence of its events |
| `ProjectionTheory.ModulesDoNotDependOnOrder` | src/learning-event-engine.ts:655-684 | any two replayable orders of the same events give the same modules |
| `ProjectionTheory.ActivityCommutes` | src/learning-event-engine.ts:601-684 | swapping two neighbouring visits or completions of a log changes neither whether it replays nor its modules, transcript and badges |
| `ProjectionTheory.ReplayKeepsWellFormed` | src/learning-event-engine.ts:544-727 | in every replay completions have times, modules are enrolled, and the effective score is the latest correction's |
| `ProjectionTheory.BadgeExactlyWhenAllCompleted` | src/learning-event-engine.ts:782-813 | a badge is earned exactly when all enrolled modules are completed, at the last of their completion times |
| `MemoryStore.InMemoryLearningEventStore.Append` | src/learning-event-engine.ts:173-239 | the new log and result of an in-memory append, errors included; other learners keep their logs |
| `MemoryStore.InMemoryLearningEventStore.Delete` | src/learning-event-engine.ts:250-259 | deletion empties one log, counts its events, and leaves the others |
| `MemoryStore.MemoryAppendKeepsTheLog` | src/learning-event-engine.ts:173-239 | an append keeps keys unique and sequences rising and adds one event or none |
| `MemoryStore.MemoryAppendExactly` | src/learning-event-engine.ts:173-239 | the outcome of an append in the order of its checks: stored key, stale revision, taken attempt or correction, invalid event, or the event under the next number |
| `EventTables.AppendBatchEffect` | src/sql-learning-event-store.ts:121-185 | the three-statement batch adds exactly one event and one revision, or adds none, or rolls back on a taken unique index |
| `EventTables.ClearedEffect` | src/sql-learning-event-store.ts:240-267 | a deletion empties one stream, leaves the others, and keeps revisions equal to event counts |
| `EventTables.DeleteVerifiedIsAllOrNothing` | src/sql-learning-event-store.ts:318-376 | with a new receipt the batch stores it and clears the stream exactly if the number of events is the counted one and the operation is free, and else changes nothing |
| `EventTables.StoredReceiptClearsAnything` | src/sql-learning-event-store.ts:318-376 | when an equal receipt is already stored the batch clears whatever the stream holds |
| `EventTables.RemovalIsCoveredExactly` | src/sql-learning-event-store.ts:318-376 | for any tables and receipt: what the batch removes is what a stored receipt covers, exactly under a condition on the tables before it |
| `EventTables.ReplayBatchEffect` | src/sql-learning-event-store.ts:448-509 | a replayed deletion is refused exactly if its operation has another receipt, and otherwise clears the stream without looking at its revision, unless the restore was replayed before |
| `EventTables.StreamAscends` | migrations/0008_authoritative_learning_events.sql:12-44 | rows listed for one learner come with rising sequence numbers |
| `EventTables.FindRowIsUnique` | migrations/0008_authoritative_learning_events.sql:43-44 | a key identifies at most one row |
| `SqlStore.SqlLearningEventStore.RunAppendBatch` | src/sql-learning-event-store.ts:121-185 | the statements of the batch, one by one, have the effect of the atomic batch, and a violated index undoes all of them |
| `SqlStore.SqlLearningEventStore.Append` | src/sql-learning-event-store.ts:100-219 | the whole call: lookup, batch under a new token, read-back or explanation of the failure |
| `SqlStore.SqlLearningEventStore.Delete` | src/sql-learning-event-store.ts:240-267 | returns the number of removed events and leaves an empty stream |
| `SqlStore.SqlLearningEventStore.ExportVerified` | src/sql-learning-event-store.ts:269-292 | the export holds exactly the stored stream of the scope, listed, checked and listed again |
| `SqlStore.ExportIsTheObservedStream` | src/sql-learning-event-store.ts:269-292 | with two listings at different moments: exported exactly if both list the same events, and a conflict exactly if a growing stream grew |
| `SqlStore.SqlLearningEventStore.RunDeleteVerifiedBatch` | src/sql-learning-event-store.ts:318-376 | the statements of the deletion batch have the effect of the atomic batch |
| `SqlStore.SqlLearningEventStore.DeleteVerified` | src/sql-learning-event-store.ts:294-394 | the whole call: the receipt its operation has, an error for an invalid event, or a new receipt for all of the stream, stored, and the stream emptied |
| `SqlStore.SqlLearningEventStore.ReplayDeletion` | src/sql-learning-event-store.ts:396-527 | succeeds exactly for a valid receipt of the learner whose restore was replayed before, or whose operation has no other receipt and whose stream is valid; a new replay clears the stream and keeps receipt and evidence; each failure has its error and changes nothing |
| `SqlStore.AloneTheReceiptIsStored` | src/sql-learning-event-store.ts:294-394 | a verified deletion that runs alone always succeeds and stores its receipt |
| `RecordReceipts.AssertScope` | src/learning-record-receipts.ts:385-409 | accepts exactly the rising sequences of events of one learner |
| `RecordReceipts.CreateVerifiedExport` | src/learning-record-receipts.ts:79-113 | an export is made exactly for events in scope, and its receipt covers them |
| `RecordReceipts.VerifyExport` | src/learning-record-receipts.ts:196-227 | accepts exactly what the creator makes |
| `StoreRefinement.AppendRefines` | src/sql-learning-event-store.ts:100-219 | the SQL append and the in-memory append succeed together with the same log up to sequence numbers; errors differ exactly when two apply |
| `StoreRefinement.InvalidCandidateIsKeptBySql` | src/sql-learning-event-store.ts:186-219 | an invalid candidate is refused by the log but kept by the SQL tables, and later listings fail |
| `StoreRefinement.OnlyEvidenceClashes` | migrations/0008_authoritative_learning_events.sql:46-53 | for engine-built rows with an unused key only the attempt or correction index can be violated |
| `StoreRefinement.SameLookup` | src/sql-learning-event-store.ts:529-548 | both stores find the same event for a key |
| `StoreRefinement.SameDuplicates` | src/sql-learning-event-store.ts:550-595 | both stores see the same duplicate evidence |
| `AppendTheorems.RevisionCountsEvents` | src/sql-learning-event-store.ts:121-185 | in every reachable state, deletions of all three kinds included, the revision equals the number of stored events and keys are unique |
| `AppendTheorems.BatchReplaysExactly` | src/sql-learning-event-store.ts:121-185 | a batch keeps the streams replayable exactly if it commits nothing, or a candidate that passes its check against the stream it is appended to |
| `AppendTheorems.RunReplaysExactly` | src/learning-event-engine.ts:398-440 | in every run all streams replay at all moments exactly if no batch committed an event unchecked against its stream |
| `AppendTheorems.FirstFailureIsAnUncheckedCommit` | src/learning-event-engine.ts:398-440 | the first state that fails to replay is the one after such a batch |
| `AppendTheorems.KeptEpochIsChecked` | src/learning-event-engine.ts:398-440 | a call whose stream was not cleared since its listing commits nothing unchecked |
| `AppendTheorems.StoredStreamsAlwaysReplay` | src/learning-event-engine.ts:398-440 | in every interleaving without a deletion between a listing and its batch, the stored streams replay without error |
| `AppendTheorems.ProvisionalNumber` | src/learning-event-engine.ts:411-422 | a check under the provisional number decides about the number the database assigns |
| `AppendTheorems.ReportsNeverFail` | src/learning-event-engine.ts:302-316 | the projection a call reports after its append never fails in such runs |
| `AppendTheorems.ExactlyOnce` | src/learning-event-engine.ts:403-438 | without deletions calls with one key return one stored event, at most one says it was new, and another digest never succeeds |
| `AppendTheorems.GivingUpMeansFiveOthers` | src/learning-event-engine.ts:403-438 | a call ends in a conflict only after five other events were committed to its stream while it ran |
| `AppendTheorems.AloneNeverRetries` | src/learning-event-engine.ts:403-438 | a call that runs alone finishes in its first attempt and never with a conflict |
| `ExecuteAlone.ExecuteAloneExactly` | src/learning-event-engine.ts:288-316 | a call that runs alone ends with the stored event of its key, the error with which its stream followed by the event fails to replay, its duplicate evidence, or the event under the next number, appended to the stream |
| `ExecuteAlone.LosersListAgain` | src/learning-event-engine.ts:423-434 | a guarded call whose revision was stale, whose key is not stored afterwards and whose evidence is free lists again while attempts remain, and else ends in a conflict |
| `ExecuteAlone.OnlyLosersListAgain` | src/learning-event-engine.ts:423-434 | no other step makes a call list again |
| `ExecuteAlone.FailuresHaveTheirReasons` | src/sql-learning-event-store.ts:186-219 | every error a step ends a call with holds of the stream the step finds |
| `AppendInvariants.StepHolds` | src/sql-learning-event-store.ts:100-219 | every step of calls and deletions keeps the tables sound and what each call knows true |
| `AppendInvariants.GuardNeverConflicts` | src/learning-event-engine.ts:411-422 | the check of a candidate never reports a conflict of its own |
| `StoreSimulation.RunsSimulateTheLog` | src/learning-event-engine.ts:173-259 | every run on the tables is a run on the in-memory log: commits are its appends, the three deletions its deletions, other steps nothing |
| `StoreSimulation.CommitsAreAppends` | src/sql-learning-event-store.ts:121-185 | at its commit the in-memory log, asked with the listed revision, takes the candidate as a new event |
| `StoreSimulation.SuccessesMatchTheLog` | src/sql-learning-event-store.ts:186-219 | what a call reports in any run the in-memory log reported for it: a replay at the step that found the event, or the append at its own commit |
| `DeletionTheorems.VerifiedDeletionIsAllOrNothing` | src/sql-learning-event-store.ts:294-394 | with one deletion in flight per learner the batch stores a receipt that covers exactly the removed events, or removes nothing |
| `DeletionTheorems.RetryReturnsTheFirstReceipt` | src/sql-learning-event-store.ts:300-308 | retrying an operation key at any later moment returns the first receipt and removes nothing |
| `DeletionTheorems.ReceiptsAreKept` | src/sql-learning-event-store.ts:318-376 | stored receipts are never lost in any run |
| `DeletionTheorems.ClearedAndRefilledStreamBreaksReplay` | src/learning-event-engine.ts:398-440 | a reachable state whose stream does not replay, after a deletion between listing and batch |
| `DeletionTheorems.TwoDeletionsCanLoseAnEvent` | src/sql-learning-event-store.ts:318-376 | a reachable state in which a second deletion removes an event no receipt covers |
| `DeletionCoverage.DeletionCoversExactly` | src/sql-learning-event-store.ts:294-394 | in every run, with any deletions in flight: a verified deletion removes just what a stored receipt covers exactly under a condition on receipt and stream, which a new receipt meets unless the stream was cleared since the reading |
| `DeletionCoverage.DeletionEndsExactly` | src/sql-learning-event-store.ts:294-394 | in every run a verified deletion ends with a stored receipt of its learner and operation, its own exactly if that is stored, and else with the error that fits what is stored |
| `DeletionCoverage.DeletionAloneExactly` | src/sql-learning-event-store.ts:294-394 | alone its steps store a receipt for all of the stream and empty it, or return the receipt of the operation |
| `DeletionCoverage.RefilledStreamIsRemovedUncovered` | src/sql-learning-event-store.ts:333-343 | a reachable state in which the only verified deletion stores a receipt for other events than it removes |
| `RecordRecovery.RestoreVerifiedExport` | src/learning-record-recovery.ts:84-138 | succeeds exactly if the export verifies, the target stream is empty and the events exclude neither each other nor a stored one; stores them under the target's next numbers, or leaves the stream empty |
| `RecordRecovery.AppendAll` | src/learning-record-recovery.ts:104-120 | the append loop succeeds exactly if the events fit into the tables, and touches no other stream |
| `RecordRecovery.AssertRestoredEventSemantics` | src/learning-record-recovery.ts:627-655 | accepts exactly the lists with the same events up to sequence numbers |
| `RecordRecovery.ReachableStreamsAreRestorable` | src/learning-record-recovery.ts:84-138 | every stream that a run leaves behind can be restored |
| `RecordRecovery.RestoredProjection` | src/learning-record-recovery.ts:608-625 | the projections agree except for the two sequence numbers |
| `RecordRecovery.RestoreMatchesExactly` | src/learning-record-recovery.ts:608-625 | known before the restore: the comparison passes exactly if the export has no import, or its last one has the number that the target will give it |
| `RecordRecovery.FaithfulRestoreCanFailTheComparison` | src/learning-record-recovery.ts:608-625 | a restore of an imported record into an empty store succeeds, and the comparison rejects it |
| `AbuseLimiter.PostgresAuthAbuseLimiter.Check` | src/self-host/postgres-auth-abuse-limiter.ts:39-131 | admits exactly if client and installation are below their limits, and then leaves a row for each; a refusal leaves a denial in its window, its own exactly if there was none; the audit stays throttled |
| `AbuseLimiter.PostgresAuthAbuseLimiter.RecordDeniedAttemptOnce` | src/self-host/postgres-auth-abuse-limiter.ts:171-216 | a denial is recorded only when the window holds none |
| `AbuseLimiter.CheckKeepsThrottled` | src/self-host/postgres-auth-abuse-limiter.ts:39-131 | a check keeps every row within its limit at the moment it was written, whatever its clock said |
| `AbuseLimiter.AnyWindowIsBounded` | src/self-host/postgres-auth-abuse-limiter.ts:143-169 | in a throttled audit no closed interval of one window exceeds a limit, although rows are not ordered by time |
| `AbuseLimiter.DenialsAreAWindowApart` | src/self-host/postgres-auth-abuse-limiter.ts:171-216 | recorded denials of an installation and route are more than a window apart |
| `LimiterProtocol.LimitHoldsInEveryRun` | src/self-host/postgres-auth-abuse-limiter.ts:39-131 | in every interleaving, for all clock readings and lock hashes, no closed interval of one window holds more admitted rows of a client or an installation than its limit |
| `LimiterProtocol.DenialsApartInEveryRun` | src/self-host/postgres-auth-abuse-limiter.ts:171-216 | so does the distance of denials |
| `LimiterProtocol.CommitsAreSerial` | src/self-host/postgres-auth-abuse-limiter.ts:67-120 | a committed check has exactly the effect of the same check run alone at its commit |
| `LimiterProtocol.DecisionsAreExact` | src/self-host/postgres-auth-abuse-limiter.ts:71-119 | in every run a committing check was admitted exactly if client and installation are both below their limits in its window at the commit |
| `LimiterProtocol.AdmittedChecksAreBounded` | src/self-host/postgres-auth-abuse-limiter.ts:39-131 | in every run, of the checks with a clock reading in a closed interval of one window at most the limits are admitted for an installation and route and for a client |
| `LimiterProtocol.ChecksDecideChecks` | src/self-host/postgres-auth-abuse-limiter.ts:71-119 | in every run a check is admitted exactly if of the admitted checks committed before it, with a clock reading not before its window, fewer than the limits are of its client and of its installation |
| `LimiterProtocol.CommitsAreAudited` | src/self-host/postgres-auth-abuse-limiter.ts:89-119 | in every run an admitted check leaves a row for its client and one for its installation, a refused one a denial in its window that names the limit reached |
| `LimiterProtocol.SortedLocksDoNotDeadlock` | src/self-host/postgres-auth-abuse-limiter.ts:134-141 | while a transaction is unfinished some unfinished one can go on |
| `PrerequisiteCycles.ValidatePrerequisiteCycles` | src/schema.ts:834-857 | reports an error exactly if the known modules have a directed cycle; reported modules lie on cycles, every cycle holds a reported one, and none is reported exactly if a topological order exists |
| `PrerequisiteCycles.CycleSearch.Visit` | src/schema.ts:842-853 | a visit terminates, restores the path, and finishes the module or reports the closed path |
| `PrerequisiteCycles.CycleSearch.VisitAll` | src/schema.ts:855-856 | the outer loop finishes every known module, with forward edges only into reported ones |
| `PrerequisiteCycles.ById` | src/schema.ts:838 | the table holds exactly the listed identifiers, each with a module listed under it |
| `PrerequisiteCycles.LastModuleWins` | src/schema.ts:838 | of several modules with one identifier the table holds the last |
| `PrerequisiteCycles.EveryCycleIsReported` | src/schema.ts:842-853 | an order with forward edges only into reported modules leaves no cycle without one |
| `PrerequisiteCycles.BackEdgeClosesACycle` | src/schema.ts:843-846 | an edge back into the active path closes a cycle through the reported module |
| `BadgeCredentials.ProjectBadgeLifecycle` | src/badge-credentials.ts:491-669 | returns the folded projections listed by credential, or the first error |
| `BadgeCredentials.FoldSorted` | src/badge-credentials.ts:551-668 | the loop over the sorted events is the fold, and its listing holds each projection once, sorted |
| `BadgeCredentials.ApplyEvent` | src/badge-credentials.ts:552-664 | one turn of the loop accepts or refuses an event against its credential's projection |
| `BadgeCredentials.IndexDefinitions` | src/badge-credentials.ts:495-513 | succeeds exactly if all definitions are valid with distinct keys, the index then holds each under its key; else the first fault is reported |
| `BadgeCredentials.IndexExactly` | src/badge-credentials.ts:495-513 | the same of the index as a function |
| `BadgeCredentials.IndexFaults` | src/badge-credentials.ts:495-513 | a refusal names the first definition that is invalid, or that repeats an earlier key |
| `BadgeCredentials.AdmitEvents` | src/badge-credentials.ts:515-543 | events are let in exactly if all are valid and no identifier or place in a sequence repeats |
| `BadgeCredentials.RefusalExactly` | src/badge-credentials.ts:515-543 | the running sets refuse exactly the inadmissible lists |
| `BadgeCredentials.AdmissionIgnoresOrder` | src/badge-credentials.ts:515-543 | whether events are let in does not depend on their order |
| `BadgeCredentials.ValidateBadgeIssuanceEvidence` | src/badge-credentials.ts:433-489 | no issue exactly if the evidence supports the definition; each open requirement is named, and no met one |
| `BadgeCredentials.ValidateEvidenceArray` | src/badge-credentials.ts:905-996 | no fault exactly if the items are valid and their identifiers distinct |
| `BadgeCredentials.AssertEvidence` | src/badge-credentials.ts:1056-1079 | refuses exactly insufficient evidence and evidence later than its event |
| `BadgeCredentials.AssertExpirationEligible` | src/badge-credentials.ts:1081-1101 | accepts exactly expirations that the policy allows and whose day has come |
| `BadgeCredentials.MasteryRestsOnAScoredAssessment` | src/badge-credentials.ts:473-486 | sufficient evidence for a mastery badge holds a passed assessment with at least the declared minimum score |
| `BadgeTheorems.ProjectionIgnoresOrder` | src/badge-credentials.ts:518-549 | shuffled events give the same result, and refused lists are refused in any order |
| `BadgeTheorems.ProjectionSeparates` | src/badge-credentials.ts:551-664 | every credential is decided by its own events, and the whole fails only for what one credential fails for |
| `BadgeTheorems.OwnEventsDecide` | src/badge-credentials.ts:551-669 | handing in one credential's events alone gives its projection and nothing else |
| `BadgeTheorems.SortingCommutesWithSelection` | src/badge-credentials.ts:545-549 | sorting all events and picking one credential's is sorting that credential's events |
| `BadgeTheorems.AcceptsExactlyTheHistories` | src/badge-credentials.ts:551-669 | accepted are exactly the event sets in which every credential has one issuance and then a supersession chain with nothing after its end; the result is each history's summary |
| `BadgeTheorems.FoldOneExactly` | src/badge-credentials.ts:552-664 | the fold of one credential accepts exactly the histories and yields their summary |
| `BadgeTheorems.EveryEventHasItsSlot` | src/badge-credentials.ts:583-663 | every event stands in exactly one slot of one projection |
| `BadgeTheorems.EffectiveEvidenceIsSufficient` | src/badge-credentials.ts:637-661 | the shown evidence is the latest correction's or the issuance's, was there in time, and meets every requirement; expired badges were due |
| `BadgeTheorems.LaterEventIsOneStep` | src/badge-credentials.ts:545-669 | projecting again after one later event is one step from the projection before, other credentials unchanged |
| `CanonicalJson.SameTextExactlyUpToKeyOrder` | src/progress.ts:136-152 | two values have the same canonical text exactly if they are equal up to the order of keys, at every depth |
| `CanonicalJson.PrintIsPrefixFree` | src/progress.ts:136-148 | a printed value is never the beginning of another, so the text can be read back |
| `CanonicalJson.CanonicalTextIsTextOfNormalForm` | src/progress.ts:136-148 | printing with sorted keys is printing the value whose keys were sorted first |
| `Progress.DeriveBadges` | src/progress.ts:814-832 | the loop pushes the badge of each completed path that has none yet |
| `Progress.ScoreCapstone` | src/progress.ts:701-738 | the loop over the rubric yields the totals, or the first criterion with a bad score or unmapped evidence |
| `Progress.WithBadges` | src/progress.ts:814-832 | earned badges are only ever appended |
| `ProgressRuns.CompletionIsAlwaysBacked` | src/progress.ts:595-832 | in every run of recording and merging a completed module has a passing check and, where defined, a passing capstone, and badges rest on completed modules |
| `ProgressRuns.EvidenceAlwaysCompletes` | src/progress.ts:595-832 | without merges proven modules are completed and completed paths have their badges, whichever evidence came first |
| `ProgressRuns.MergeAwardsExactlyWithoutSplits` | src/progress.ts:154-257 | a merge of two complete records is complete exactly if no module's evidence and no path is split between them |
| `ProgressRuns.SplitWorkIsNotCompleted` | src/progress.ts:154-257 | any passing check and passing capstone of a module, recorded apart and merged, leave it uncompleted |
| `ProgressRuns.SampleWorkIsNotCompleted` | src/progress.ts:154-257 | a catalogue and a run with a merge in which a module has all its evidence and is not completed |
| `ProgressRuns.ActivityIsAlwaysStarted` | src/progress.ts:618-620 | in every run the path of every attempt, submission and recent module counts as started, once |
| `ProgressRuns.RecordingIsIdempotent` | src/progress.ts:606-608 | recording the same attempt or submission again at any later point of a history, merges included, changes nothing |
| `ProgressRuns.IdsStay` | src/progress.ts:154-257 | an identifier that is recorded once is held at every later point, whichever side of a merge it came from |
| `RecordingTheorems.TheRecordIsItsHistory` | src/progress.ts:595-812 | a record made without merges holds just the attempts, submissions, started paths and last visit of its inputs, in their order |
| `RecordingTheorems.StepsAwardExactly` | src/progress.ts:814-832 | a recorded check or submission dates the record and awards exactly the badges of completed paths that were not held, each once, in the order of the catalogue |
| `RecordingTheorems.SubmissionScoreExactly` | src/progress.ts:701-752 | a recorded submission has the nearest percentage of its rubric's points and is passed exactly if that reaches the pass mark |
| `RecordingTheorems.ScoreExactly` | src/progress.ts:701-738 | a rubric is scored exactly if no criterion is at fault, with the sums of its points; else the first fault is reported |
| `ProgressMerge.MergeLearnerProgress` | src/progress.ts:154-257 | the merge as loops over sets and maps is the merge as a function, whose contents and order the laws below give |
| `ProgressMerge.AbsorbRecords` | src/progress.ts:162-177 | the traversal of the source yields the records to add, prefixed where they clash |
| `ProgressMerge.MergeBadges` | src/progress.ts:196-215 | badges are joined in an insertion-ordered map |
| `MergeTheorems.MergeLosesNothing` | src/progress.ts:154-257 | the result holds all evidence of both records, clashing ids under the prefix, and attempts and submissions of neither origin are not invented |
| `MergeTheorems.MergedAttemptsExactly` | src/progress.ts:162-177 | the merged attempts are the survivor's and, once each, the source's: as they are exactly if new, prefixed exactly if they clash, not at all if the survivor holds the same |
| `MergeTheorems.MergedCapstonesExactly` | src/progress.ts:178-195 | the same of submissions |
| `MergeOrder.MergedAttemptsInOrder` | src/progress.ts:232-239 | merged attempts come in the order of their times; those of one time are the survivor's, then those taken over, each in their own order |
| `MergeOrder.MergedCapstonesInOrder` | src/progress.ts:240-248 | the same of submissions |
| `MergeOrder.MergedBadgesExactly` | src/progress.ts:196-251 | merged badges come in the order of their times, one for each identifier, with the earliest time, all modules of both and nothing that neither holds |
| `MergeOrder.MergedFields` | src/progress.ts:216-257 | started paths and completed modules in the order of first appearance, the later visit with the survivor's on a tie, the later update time, and the given name |
| `MergeTheorems.HydrationLosesNothing` | src/progress.ts:419-483 | a read keeps the evidence of both records unless a replacement is pending, which then stands unchanged; an empty session adopts the account itself |
| `MergeTheorems.FlushLosesNothing` | src/progress.ts:286-324 | a flush keeps the evidence and name of the record, and takes over the buffer unless it waits, a replacement is pending, or the buffer is the synchronized record |
| `MergeTheorems.MergedAttemptIdsAreUniqueExactly` | src/progress.ts:162-177 | identifiers stay unique exactly when no clashing attempt's prefixed identifier is held by the survivor |
| `MergeTheorems.AttemptIdsUniqueWhenFree` | src/progress.ts:162-177 | for any source: unique exactly when each prefixed identifier is free at its turn |
| `MergeTheorems.CapstoneIdsUniqueWhenFree` | src/progress.ts:178-195 | the same for submissions |
| `MergeTheorems.TakenPrefixRepeatsAnId` | src/progress.ts:174-176 | a survivor that holds the prefixed identifier ends up with it twice |
| `MergeTheorems.MergingAgainIsANoOpExactlyWithoutClash` | src/progress.ts:154-257 | merging the same source again changes nothing exactly if none of its records clashed |
| `MergeTheorems.BadgesSurvive` | src/progress.ts:196-215 | merged badges have one entry per identifier that covers the badges of both |
| `PortableRecord.Restore` | src/portable-record.ts:180-334 | accepts exactly the valid records that fit the catalogue, and returns their learner unchanged |
| `PortableRecord.Validate` | src/portable-record.ts:147-178 | no fault exactly if the record has the right shape |
| `PortableRecord.CheckReferences` | src/portable-record.ts:196-203 | no fault exactly if started paths and completed modules are known |
| `PortableRecord.CheckAttempts` | src/portable-record.ts:204-216 | no fault exactly if every attempt is in its module's path |
| `PortableRecord.CheckCapstones` | src/portable-record.ts:217-310 | no fault exactly if every submission fits its module's rubric and evidence |
| `PortableRecord.CheckAgainstSpec` | src/portable-record.ts:233-309 | no fault exactly if artifacts, points, evidence, score and pass agree with the recomputation |
| `PortableRecord.BestScore` | src/progress.ts:842-846 | the best score of a path is reached by one attempt and exceeded by none |
| `PortableTheorems.ExportThenRestore` | src/portable-record.ts:34-47 | restoring the export of anything recorded from well-formed inputs gives back the same record |
| `PortableTheorems.ExportIsAcceptedExactly` | src/portable-record.ts:180-334 | an export is accepted back exactly if the record is restorable |
| `PortableTheorems.AssessmentRestorableExactly` | src/progress.ts:595-654 | a newly recorded attempt keeps the record restorable exactly if its input is well formed |
| `PortableTheorems.SubmissionRestorableExactly` | src/progress.ts:656-780 | the same for a submission: distinct references and well-formed evidence are what the recorder does not check |
| `PortableTheorems.RecordedSubmissionAgrees` | src/progress.ts:674-752 | the score, pass and evidence the recorder accepts are what the validator recomputes |
| `PortableTheorems.RunsAreRestorable` | src/portable-record.ts:180-334 | every record reached by recording well-formed inputs is restorable |
| `PortableTheorems.TranscriptExactly` | src/progress.ts:834-858 | an export holds the learner unchanged and for each path the number of completed places of its list, all exactly if the path is completed, the nearest percentage and the best score |
| `IdentityProvisioning.EvaluateReadiness` | src/identity-provisioning.ts:412-453 | lists exactly the conditions that block the record, and none exactly if every readiness condition holds |
| `IdentityProvisioning.NoDriftExactlyAsPlanned` | src/identity-provisioning.ts:358-410 | no finding exactly if the client is as planned, a critical one exactly if a verification failed |
| `IdentityProvisioning.FindingsHaveTheirReasons` | src/identity-provisioning.ts:358-410 | each finding is made exactly for its own reason, and is critical exactly if a verification failed |
| `IdentityProvisioning.ValidateAudit` | src/identity-provisioning.ts:1020-1065 | accepts exactly trails numbered from one without gaps whose times never go back |
| `IdentityEngine.InMemoryRecordStore.Save` | src/identity-provisioning-engine.ts:106-142 | replaces exactly the expected version of the same operation, or changes nothing |
| `IdentityEngine.InMemoryRecordStore.GetLatestByClientRef` | src/identity-provisioning-engine.ts:93-104 | returns a version of the client with the latest update, the larger operation identifier breaking ties |
| `IdentityEngine.InMemoryRecordStore.ApplyAdapterResult` | src/identity-provisioning-engine.ts:528-640 | stores what the adapter result becomes over the version it is based on |
| `IdentityEngine.NextVersion` | src/identity-provisioning-engine.ts:528-662 | the version to store, step by step, is the one the laws below are about |
| `ProvisioningProtocol.AnswerFollows` | src/identity-provisioning-engine.ts:528-662 | whatever the adapter answers, the stored version follows the one it was asked about, and is ready only after the evaluation or on the adapter's word |
| `ProvisioningProtocol.DecisionFollows` | src/identity-provisioning-engine.ts:357-400 | a decision, or an expired gate, leads to provisioning or failure |
| `ProvisioningProtocol.DecisionOutcome` | src/identity-provisioning-engine.ts:357-400 | provisioning exactly after an approval in time; a failure may be retried exactly if the gate expired or was cancelled |
| `ProvisioningProtocol.RecoveryFollows` | src/identity-provisioning-engine.ts:202-213 | a retryable failure is left through recovery with one more attempt |
| `ProvisioningTheorems.StoredVersionsFormAWalk` | src/identity-provisioning-engine.ts:181-411 | in every interleaving and for every adapter the stored versions form a lifecycle walk, each extends the audit trail, and final versions are last |
| `ProvisioningTheorems.ReadyMeansPassesReadiness` | src/identity-provisioning-engine.ts:604-640 | if the adapter never answers ready, every version stored as ready passes the readiness evaluation |
| `ProvisioningTheorems.OnlyApprovalPassesTheGate` | src/identity-provisioning-engine.ts:291-411 | in every run nothing leaves a pending gate but a decision of the required authority with the right proof, and it leads to provisioning exactly if it approves before the gate expires |
| `ProvisioningGates.OwnerGatedPlansWaitForTheirAuthority` | src/identity-provisioning-engine.ts:479-499 | in every run whose adapter does not itself answer provisioning, each version stored as provisioning under an owner-gated plan directly follows its pending gate and carries it approved |
| `ProvisioningGates.ProvisioningIsEnteredOnlyBy` | src/identity-provisioning-engine.ts:357-499 | in every run and for any adapter: provisioning is entered from preflight under another plan, by the approval of the pending gate, or on the adapter's word |
| `ProvisioningExamples.AdapterPassesTheOwnersGate` | src/identity-provisioning-engine.ts:528-640 | a run in which an owner-gated create is stored as provisioning without an authority having been asked |
| `ProvisioningGates.StartedRunOpensItsGateExactly` | src/identity-provisioning-engine.ts:487-588 | the run that started a record opens the gate its adapter asks for exactly if the plan is owner-gated and the answer asks in good form |
| `ProvisioningGates.AnswerOpensTheGateExactly` | src/identity-provisioning-engine.ts:571-588 | for any version and answer: a gate is opened exactly from preflight by an answer that asks in good form |
| `ProvisioningOutcomes.RejectionsLeaveTheGate` | src/identity-provisioning-engine.ts:324-356 | a decision without the authority or the proof changes nothing of a pending version but adds a failure to its trail |
| `ProvisioningOutcomes.AnswerOutcome` | src/identity-provisioning-engine.ts:528-662 | for any version and answer: the state that is stored, whether it may be retried, and what it takes over of the answer |
| `ProvisioningOutcomes.FailuresAreRetryableExactly` | src/identity-provisioning-engine.ts:191-213 | in every run: which stored failures may be run again |
| `ProvisioningOutcomes.CallsWorkOnTheirOwn` | src/identity-provisioning-engine.ts:189-228 | in every run a call works only on stored versions of its key, plan, client and operation |
| `ProvisioningOutcomes.StartInheritsTheSecret` | src/identity-provisioning-engine.ts:229-281 | a new operation starts in preflight, a create without a secret and every other with the secret of the newest version of its client |
| `ProvisioningOutcomes.RefusedCreateStaysRefused` | src/identity-provisioning-engine.ts:664-720 | a refused create is stored as a failure that never changes again |
| `ProvisioningTheorems.FinalRecordsStay` | src/identity-provisioning-engine.ts:191-201 | a ready, disabled, retired or finally failed record never changes again |
| `ProvisioningTheorems.UnchangedTimeIsUnchangedVersion` | src/identity-provisioning-engine.ts:124-129 | the compare-and-set on the update time finds exactly the version a call is based on |
| `ProvisioningTheorems.AnswersAreAlwaysStorable` | src/identity-provisioning-engine.ts:642-662 | a malformed adapter answer always becomes a valid stored record |
| `ProvisioningExactness.AnswerLeavesTheTableExactly` | src/identity-provisioning-engine.ts:528-640 | for any answer: the stored step is no entry of the table exactly for a clean handover from preflight, provisioning or secret-pending |
| `ProvisioningExactness.StoredStepLeavesTheTableExactly` | src/identity-provisioning.ts:321-356 | the same for every step between stored versions of every run, rejected decisions included |
| `ProvisioningExactness.ClaimedReadyIsStoredExactly` | src/identity-provisioning-engine.ts:547-640 | an answer of ready is stored as such exactly if it is well formed, with an observation, without an error, and the table allows it |
| `ProvisioningExactness.ReadyPassesExactly` | src/identity-provisioning-engine.ts:604-640 | a version stored as ready passes the evaluation exactly if the engine decided it or the answer shows the client as planned |
| `ProvisioningExactness.StoredReadyPassesExactly` | src/identity-provisioning-engine.ts:604-640 | the same for every version that any run stores as ready, for any adapter |
| `ProvisioningExamples.ProvisioningIsStoredAsReady` | src/identity-provisioning.ts:321-349 | a run with a stored step from provisioning to ready, which the table does not have |
| `ProvisioningExamples.ClaimedReadinessIsNotEvaluated` | src/identity-provisioning-engine.ts:547-640 | a run in which a version is stored as ready that does not pass the evaluation |
| `ProvisioningClients.CreateIsRefusedExactly` | src/identity-provisioning-engine.ts:229-242 | in every run a create is refused exactly if the newest version of its client exists and is not retired |
| `ProvisioningClients.CreateStartsOverALiveVersionExactly` | src/identity-provisioning-engine.ts:229-281 | a create that was let through starts over a live newest version exactly if a version of its client was stored since it read and the last of them is live |
| `ProvisioningExamples.RetiredNewestLetsACreateThrough` | src/identity-provisioning-engine.ts:229-281 | a run without overlap in which a create starts although an earlier create of the client is live |
| `ProvisioningExamples.ConcurrentCreatesCanBothStart` | src/identity-provisioning-engine.ts:229-281 | a run in which two creates that read before either was stored both start |
| `Sorting.SortIsSortedPermutation` | src/badge-credentials.ts:545-549 | the sort returns a sorted permutation |
| `Sorting.SortOfPermutation` | src/badge-credentials.ts:545-549 | when the comparison separates the elements the result does not depend on their order |

## Left out

- Cryptography and encoding: digests are injective by representation, tokens and identifiers are drawn from a supply.
- Text checks of identifiers, codes, addresses and dates: a `wellFormed` field or a precondition on texts stands for them where records depend on them, and they are absent elsewhere.
- Timestamps as texts: two texts of one instant that differ, and text order that differs from time order.
- Floating point: percentages are exact fractions rounded half up, so a quotient that floating point puts on the other side of a half is not represented, and neither is a fractional score of an attempt.
- Lists in the event projection: enrollments, modules and attempts are maps and module evidence is a set, so the display order of `projectLearningEvents` is not modelled.
- The snapshot inside an import event: an opaque value.
- The command layer of the event engine: access checks and the translation of commands to events; calls start from the candidate event that a valid command becomes.
- The projection that a call returns: it is the projection of the stream that its report lists; the run has whether it builds, and `ProjectionEngine` its value.
- The driver and the database: that a batch is atomic, that advisory locks are held to the end of the transaction and that reads see committed rows is assumed, not proved.
- SqlStore.SqlLearningEventStore.ReplayDeletion: is about a call that runs alone; in the interleaved runs its batch is one step for any replay, and its listing before the batch, which only checks the handed evidence, is absent.
- SqlStore.SqlLearningEventStore.Delete: the count is read by its own query before the batch, so with other calls in between the returned number may be of an earlier stream; here the two are one step.
- AppendTheorems.StoredStreamsAlwaysReplay: excludes a deletion between a listing and its batch, because the claim is false with one; `AppendTheorems.RunReplaysExactly` is the statement for all runs.
- ExecuteAlone.ExecuteAloneExactly: assumes sound tables of the engine, which every run keeps (`AppendInvariants.StepHolds`), and a stream that replays, which `AppendTheorems.RunReplaysExactly` is about.
- ProvisioningGates.OwnerGatedPlansWaitForTheirAuthority: excludes adapters that themselves answer provisioning, because the claim is false with one; `ProvisioningGates.ProvisioningIsEnteredOnlyBy` is the statement for all.
- AppendTheorems.ExactlyOnce: excludes deletions, because a deleted key may be stored again.
- DeletionTheorems.VerifiedDeletionIsAllOrNothing: excludes two deletions in flight for one learner and receipts that came with a replayed deletion, because the claim is false with them; `DeletionCoverage.DeletionCoversExactly` is the statement for all runs.
- LimiterProtocol.SortedLocksDoNotDeadlock: assumes that different subjects have different lock hashes; the bounds hold for all hashes.
- MergeTheorems.MergeLosesNothing: assumes that the survivor lists no badge twice, which every run keeps (`ProgressRuns.CompletionIsAlwaysBacked`).
- MergeOrder.MergedBadgesExactly: assumes the same of the survivor's badges.
- MergeTheorems.HydrationLosesNothing: assumes the same of the account's badges.
- MergeTheorems.FlushLosesNothing: assumes the same of the session's badges.
- MergeTheorems.MergedAttemptIdsAreUniqueExactly: assumes that no source identifier repeats or carries the prefix; `MergeTheorems.AttemptIdsUniqueWhenFree` is the statement for any source.
- MergeTheorems.MergingAgainIsANoOpExactlyWithoutClash: assumes free prefixed identifiers and source badges that list no module twice, because a second merge would drop the repetition.
- PortableTheorems.ExportThenRestore: is about recording without merges, because a merge may rename an attempt that a submission refers to.
- CanonicalJson.SameTextExactlyUpToKeyOrder: undefined properties, not-a-number values and unpaired surrogates are not represented; numbers are given by the text they print as.
- ProvisioningTheorems.UnchangedTimeIsUnchangedVersion: assumes that no two readings of the clock are equal, as the compare-and-set on the update time does.
- ProvisioningTheorems.ReadyMeansPassesReadiness: refers to the plan of the call that stored the version, because a key is bound to the identifiers of its plan and not to its contents.
- Identity provisioning: the checks of plans and adapter compatibility, secret storage and the HTTP adapter are not modelled; a call may stop at any step, which covers every failing check, and public error messages are absent.
- Everything else of the repository: catalogue validation besides the cycle check, CSV output, authorization, sessions, account merging, conformance harnesses and the user interface.
