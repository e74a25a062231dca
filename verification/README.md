# Verified models of Major's core protocols

A Dafny model of the parts of Major where several functions, several processes or several runs have to agree,
with proofs of what they promise together. `dafny verify dfyconfig.toml` checks the whole project.

| Part | Files |
|---|---|
| Learning-store locks | `LockProtocol`, `LockCalls` |
| Learning stores and the migration of old ones | `LearningRecords`, `LegacyMigration`, `LegacyMerge`, `LearningStore`, `LearningRuns`, `LearningOutcomes` |
| Learning queue | `QueueLines`, `QueueProtocol`, `QueueDrain`, `QueueRuns` |
| Task lifecycle, leased claims, completion proof | `Lifecycle`, `Completion`, `CompletionRules`, `TaskTables`, `TaskService`, `TaskRuns`, `TaskHistory` |
| Install activation with rollback | `InstallTrees`, `InstallRun`, `InstallSweep`, `InstallRollback`, `InstallSuccess`, `Activation` |
| Temporal knowledge base | `Knowledge`, `KnowledgeRules` |
| Workspace snapshot and tree digest | `WorkspaceTree`, `SnapshotDigest`, `SnapshotTies`, `SafeLinks` |
| Capability lifecycle | `Capabilities`, `CapabilityRules` |
| Event queue, line framing, CSV, run events | `EventQueue`, `CommandOutput`, `Csv`, `RunEvents` |

Code that works step by step is a class or a method with loops, proved against a specification function; the
promises are lemmas about those functions over all inputs, all runs and all interleavings. Concurrency
(locks, queue drains whose appends open a file and write to it later, a task transition split into its read and
its compare-and-swap) is a step relation.
Crashes and faults are steps or parameters. Time is an integer clock that never goes back.

## What the proofs found

Where a promise does not hold as it stands, the model keeps the code's behaviour, a lemma exhibits a failing
input, and another lemma says exactly when the promise does hold.

- Breaking a stale lock takes a stat and then an unlink. Two breakers of one dead lock can let two writers into
  a store (`RacedUnlinkBreaksExclusion`). Exclusion holds in every run in which no unlink hits a lock that has
  changed hands (`ActionsExcludeEachOther`), nothing else ever takes a lock from a live holder
  (`OnlyRacesTakeLocksAway`), and whenever one does so to a process inside a store, a second one can come in
  (`RacedUnlinkAdmitsSecond`).
- Re-running the legacy migration after a crash keeps all growth of the target if and only if under every migrated
  id one record is the largest in both respects that the merge compares (`RerunKeepsGrowthExactly`); ids that are
  distinct are enough, and with a shared id a capture can be lost (`SharedIdsLoseGrowth`).
- The migration merges by id alone. It can bring a second open record about a lesson into a project
  (`MigrationBringsSecondRecord`), and this is the only way to get one (`LessonsStayApartExactly`). Occurrences over
  all stores are the captures if and only if no migration is cut off between its two writes
  (`OccurrencesAreConservedExactly`).
- A queued step is lost when it is appended behind a line without its newline, which a crashed append leaves
  (`GluedStepIsLost`), or to a queue file that another drain has meanwhile renamed, read and unlinked
  (`LatePutIsLost`). `StepLosesExactly` names all losing steps; in every run without them nothing is lost
  (`NothingIsLost`), and there are none in a run whose writes all get in whole and before their file is claimed
  (`CalmRunsLoseNothing`).
- A drain that dies or throws has its steps replayed if and only if it had disposed of a step of its file
  (`EndingKeepsExactExactly`, `CrashReplaysAppliedStep`). A drain tries the listed lines once each if and only if
  none of a source listed before the queue file goes back to it (`OncePerDrainExactly`, with the one exception of
  a lone line glued to a torn one).
- A queued task can have an active claim and a running task can have none, in which case no sweep requeues it
  (`QueuedTaskCanBeClaimed`, `RunningTaskCanBeUnclaimed`); `QueuedStayUnclaimedExactly` and
  `RunningStayClaimedExactly` name the steps that bring this about.
- A transition that was read under a live claim can be committed after the claim's lease is over
  (`LapsedClaimCanCommit`), exactly while the task's row is as it was read (`DeadClaimCommitsIffRowIsFresh`).
- Adding a dependency on an open task to a dispatched task breaks closure under dependencies
  (`NewDependencyKeepsClosedExactly`). Cycles are never worked on; completed tasks can be tied into one later
  (`CyclesAreAllOrNothing`, `CompletedTasksCanFormCycle`).
- Rollback leaves directories behind when the fault comes while parents are being made, or while a copy is in
  progress below a new parent (`FlatFailureRestoresExactly`). With nested targets it can also remove a directory of
  the original that was empty (`NestedTargetsLoseDirectory`, exactly when: `RestoredExactly`).
- Activating twice is refused when a file target was installed above an earlier target
  (`InsideOutIsRefusedAgain`, `AgainIsNoOpExactly`).
- The key of the current view joins entity and property with a NUL, so an entity id with a NUL can hide facts
  (`NulHidesFacts`, `CompleteExactlyWithoutCollisions`).
- The digests of a source and of its snapshots agree if and only if no two copied names of a directory tie in the
  collation (`SnapshotsAgreeExactly`); canonically equivalent names do.
- A withdrawn capability needs a source with another fingerprint to come back, but by way of a second source the
  first one may return (`FirstSourceMayComeBack`).
- The event queue answers every call as owed if and only if no call meets a buffered `undefined`, which it loses
  (`KthNextGetsKthValueExactly`, `AbsentValueIsLost`).
- The spreadsheet guard maps a formula and the same formula behind an apostrophe to one cell
  (`NeutralCollidesExactly`).

## Model

| member | source | states |
|---|---|---|
| LockProtocol.NextKeepsInv | src/learning/candidates.ts:177-336 | every step of every process that is not a raced unlink keeps: lock files name live holders, holders own their files, each store and the migration is held once |
| LockProtocol.ActionsExcludeEachOther | src/learning/candidates.ts:177-260 | in every interleaving of writers, migrators and installers without a raced unlink, no writer is inside a store that a migrator inside its action covers, each store has at most one writer inside, and at most one migrator is inside |
| LockProtocol.OnlyRacesTakeLocksAway | src/learning/candidates.ts:303-317 | after a clean run the next step leaves a live holder without its lock file if and only if it is a raced unlink |
| LockProtocol.RacedUnlinkOrphansAHolder | src/learning/candidates.ts:230-240 | unlinking a lock that has changed hands since it was found stale leaves its new holder without a file |
| LockProtocol.RacedUnlinkBreaksExclusion | src/learning/candidates.ts:303-317 | a run with two breakers of one dead lock puts two writers inside the same store |
| LockProtocol.RacedUnlinkAdmitsSecond | src/learning/candidates.ts:303-325 | whenever a raced unlink takes away the file behind which a process is inside a store, some continuation brings a second process into that store |
| LockCalls.MigratorGetsInside | src/learning/candidates.ts:224-251 | a migrator that begins to look at its stores when none is locked is inside its action for all of them after one step of its own for each store and one more |
| LockCalls.MigratorRunsAlone | src/learning/candidates.ts:208-260 | a migrator that meets no lock comes inside its action, and two steps later the call has ended with all files as they were |
| LockCalls.WriterRunsAlone | src/learning/candidates.ts:275-336 | a writer that meets no lock comes inside its store, and two steps later the call has ended with all files as they were |
| LockCalls.CallsEndBehindTheirAction | src/learning/candidates.ts:224-260 | in every run, a call that ends has been inside its action since it was made, or has given up |
| LockCalls.BreaksOnlyWhatWasStale | src/learning/candidates.ts:303-317 | in every run, a process unlinks a lock file as stale only after it has found its owner dead; if the owner is alive at the unlink, the file has changed hands since |
| LockCalls.InstallerKeepsItsBudget | scripts/acquire-major-learning-migration-lock.py:25-60 | an installer never tries to create the lock more often than its budget |
| LegacyMigration.LearningFiles.Partition | src/learning/candidates.ts:96-108 | splits the legacy candidates into those that can be attributed to the project, renamed, and the others, in order |
| LegacyMigration.LearningFiles.MergeInto | src/learning/candidates.ts:110-121 | merges the migrated candidates into the target's as the map of the specification does |
| LegacyMigration.LearningFiles.Migrate | src/learning/candidates.ts:90-128 | the two stores after any number of completed file operations are those of the specification |
| LegacyMigration.MergedRecord | src/learning/candidates.ts:111-121 | the record kept under an id is the prior one or a migrated one that beats it |
| LegacyMigration.EveryCrashPointKeepsAllIds | src/learning/candidates.ts:84-129 | at every crash point the ids of both stores together are what they were before |
| LegacyMigration.RerunKeepsGrowthExactly | src/learning/candidates.ts:110-128 | a run that finds the legacy store again after a crash keeps every target record as it has grown, for all growth, if and only if under every migrated id some record is beaten by no migrated one |
| LegacyMigration.RerunIs | src/learning/candidates.ts:90-128 | that run leaves the target merged with the same migrated records once more, and completes the migration |
| LegacyMigration.DistinctIdsAreTopped | src/learning/candidates.ts:110-121 | distinct legacy ids meet that condition |
| LegacyMigration.SharedIdsLoseGrowth | src/learning/candidates.ts:110-128 | a migration cut off behind its first rename, one more capture in the target and the migration again leave the target as it was before the capture |
| LegacyMigration.SecondRunChangesNothing | src/learning/candidates.ts:89-109 | a completed migration leaves nothing for another one to move |
| LegacyMerge.MergeMembers | src/learning/candidates.ts:111-121 | the merged target holds exactly the records that stay and the migrated ones that arrive |
| LegacyMerge.ThreeOutcomes | src/learning/candidates.ts:122-128 | wherever a migration is cut off, neither store is new, or the target alone, or both |
| LegacyMerge.OnlyOwnRecordsMove | src/learning/candidates.ts:90-128 | without a repository nothing is touched; a completed run leaves under the old name exactly the records that are not attributed to it, and no file when there are none |
| LegacyMerge.EachRecordHasOneHome | src/learning/candidates.ts:98-107 | a record whose repository is known belongs to that one alone; two repositories that no policy binds never both claim a record |
| LearningStore.StepKeepsInv | src/learning/candidates.ts:84-682 | every migration, wherever it is cut off, every capture, promotion, crash, retraction and dismissal keeps the invariants of all stores |
| LearningStore.StepKeepsLessonsApartExactly | src/learning/candidates.ts:110-121 | a step leaves every project with different open lessons unless it is a migration that brings an open record sharing a key or a folded summary with an open record that stays |
| LearningStore.StepKeepsOneHomeExactly | src/learning/candidates.ts:122-128 | a step leaves each record in one store unless it is a migration cut off between its two writes |
| LearningStore.StepCounts | src/learning/candidates.ts:84-422 | a step adds its capture to the occurrences of a project, and moves those of the records that a migration moves |
| LearningStore.MigrateIs | src/learning/candidates.ts:84-129 | what a migration leaves in the two stores and that it touches no other |
| LearningRuns.GlobalRecordsStayVisible | src/learning/candidates.ts:424-450 | in every run, migrations and crashes included, every global record passes the check of listing, a promoted one has recurred, and no two promoted ones say the same |
| LearningRuns.LessonsStayApartExactly | src/learning/candidates.ts:110-121 | all through a run the open records of each project are about different lessons if and only if no migration of the run collides |
| LearningRuns.OneOpenRecordPerLesson | src/learning/candidates.ts:385-420 | then at most one open record of a project is about a key, or about a summary without a key |
| LearningRuns.MigrationBringsSecondRecord | src/learning/candidates.ts:110-128 | two captures under one key, for the short and the canonical name, and a migration leave two open records under that key in one project |
| LearningRuns.PromotedToExists | src/learning/candidates.ts:623-627 | a local record that names a global one names one that exists, also after crashes |
| LearningRuns.OccurrencesAreCaptures | src/learning/candidates.ts:84-422 | until a migration is cut off, the occurrences in a project's store are its successful captures and those migrated in, less those migrated away |
| LearningRuns.OccurrencesAreConservedExactly | src/learning/candidates.ts:84-422 | all through a run the occurrences in all project stores together are the successful captures if and only if no migration is cut off between its two writes |
| LearningOutcomes.PromotionPromotes | src/learning/candidates.ts:553-573 | after a promotion to the project its open record is promoted, in the project's scope, with the redacted evidence among its own; all else is as it was |
| LearningOutcomes.DismissalDismisses | src/learning/candidates.ts:658-682 | after a dismissal the open record is dismissed, in the scope it had, with the redacted reason among its evidence; all else is as it was |
| LearningOutcomes.FinishLinks | src/learning/candidates.ts:623-628 | the second write of a promotion to all projects promotes the record and links it; all else is as it was |
| LearningOutcomes.CaptureCounts | src/learning/candidates.ts:384-421 | a capture counts on the first open record of its lesson, or adds one seen once; all else is as it was |
| LearningOutcomes.PromotionReachesAll | src/learning/candidates.ts:593-622 | the first write of a promotion to all projects counts the record's occurrences once per evidence digest, on the promoted global record that says the same or on a new one |
| LearningOutcomes.RetractionClears | src/learning/candidates.ts:635-655 | a retraction leaves of its global record the id, scope, source and creation time |
| LearningOutcomes.SettlingSucceedsExactly | src/learning/candidates.ts:555-566 | a promotion to the project, or a dismissal, succeeds if and only if a reason is given, nobody holds the store, and it has an open record of that id |
| LearningOutcomes.PromotionToAllSucceedsExactly | src/learning/candidates.ts:575-591 | a promotion to all projects gets to its first write if and only if the record is open and has recurred, the policy allows it, and summary and evidence say something, hold nothing to redact or personal, and mention neither the project, nor its repository, nor a known project |
| LearningOutcomes.CaptureSucceedsExactly | src/learning/candidates.ts:373-383 | a capture succeeds if and only if it is for one project, says something, has a proper key or none, and nobody holds the store |
| LearningOutcomes.RetractionSucceedsExactly | src/learning/candidates.ts:632-641 | a retraction succeeds if and only if a reason is given and a promoted global record has that id |
| LearningOutcomes.RefusalsAreTrue | src/learning/candidates.ts:373-682 | the reason told by a refused call is true of the stores and of what it was given |
| LearningOutcomes.SettledByTheirCalls | src/learning/candidates.ts:545-682 | in every run a project's record is promoted only behind a successful promotion of its id and dismissed only behind a successful dismissal of its id, wherever it has been migrated since |
| LearningOutcomes.GlobalByTheirCalls | src/learning/candidates.ts:593-656 | in every run each global record was put there by a promotion to all projects, and is dismissed only behind its retraction |
| LearningOutcomes.GlobalTellsNothing | src/learning/candidates.ts:509-536 | in every run each promoted global record was put there with the leave of its project's policy, for a record seen at least twice, with nothing in it that is redacted or personal, and it mentions neither that project, nor its repository, nor any project known then |
| LearningStore.RetryCountsNothingTwice | src/learning/candidates.ts:593-622 | promoting again after a crash between the two writes finds the same global record and adds nothing to it |
| LearningStore.OnlyPresentableIsPromoted | src/learning/candidates.ts:513-535 | a new global record has nothing to redact and names no project, and other summaries stay |
| LearningStore.CheckGlobal | src/learning/candidates.ts:424-448 | reports the first malformed global record, if and only if there is one |
| LearningStore.Stores.MigrateLegacy | src/learning/candidates.ts:84-129 | the stores after a migration, or the error and no change |
| LearningStore.Stores.CaptureLearning | src/learning/candidates.ts:373-422 | refused at once, or the migration's error, or the stores after the migration and then the capture or its error; the invariant is kept |
| LearningStore.Stores.PromoteHere | src/learning/candidates.ts:553-573 | the migration's error, or the stores after the migration and then the promotion to the project or its error; the invariant is kept |
| LearningStore.Stores.PromoteToAll | src/learning/candidates.ts:553-629 | the migration, then both writes of a promotion to all projects, or the first alone when the process dies, or the error; the invariant is kept |
| LearningStore.Stores.DismissGlobalLearning | src/learning/candidates.ts:632-656 | the global store after a retraction, or the error and no change; the invariant is kept |
| LearningStore.Stores.DismissLearning | src/learning/candidates.ts:658-682 | refused without a reason, or the migration and then the dismissal or its error; the invariant is kept |
| QueueProtocol.NextKeepsWellFormed | src/learning/queue.ts:63-66 | every step of every process keeps: a drain that works owns its file, what it read is there or was torn since, what it is about to append is the line it has come to, and what was listed as orphaned stays so |
| QueueProtocol.StepBalances | src/learning/queue.ts:133-194 | for every step and every set of steps: copies after and copies lost are copies before and copies gained |
| QueueProtocol.StepLosesExactly | src/learning/queue.ts:63-66 | a step loses a copy if and only if it writes a whole line behind an unterminated one or into an unlinked file, or is glued to a step without its newline, or unlinks a file into which a step was written after it was read |
| QueueProtocol.NothingIsLost | src/learning/queue.ts:133-194 | in every run of any number of drains, enqueue calls and crashes without such steps, every step of a returned enqueue call is in the queue, in a draining file, in the dead-letter file, or has been applied; and no copy is ever lost if and only if there are no such steps |
| QueueProtocol.StepStaysExactExactly | src/learning/queue.ts:163-192 | where every returned enqueue call has its step exactly once, carrying the number of its failures, a step keeps it so if and only if it neither loses a copy nor doubles one |
| QueueProtocol.EndingKeepsExactExactly | src/learning/queue.ts:165-191 | a drain that dies or throws keeps it so if and only if it has not disposed of a step of the file that it works on |
| QueueProtocol.ExactlyOnceExactly | src/learning/queue.ts:163-192 | all through a run each step exists exactly once, and is dead-lettered after five failures only, if and only if no step of the run loses or doubles |
| QueueProtocol.GluedStepIsLost | src/learning/queue.ts:63-66 | a call dies in its write, the next call returns, and its step is nowhere |
| QueueProtocol.LatePutIsLost | src/learning/queue.ts:133-191 | two drains lose a step: the second unlinks the queue file that the first has opened to put the step back |
| QueueProtocol.CrashReplaysAppliedStep | src/learning/queue.ts:175-191 | a crash between applying a step and unlinking the file makes a later drain apply it again |
| QueueDrain.LearningQueue.Claim | src/learning/queue.ts:134-143 | claiming takes the file away, or returns nothing when it is not there |
| QueueDrain.LearningQueue.Settle | src/learning/queue.ts:174-190 | one step is applied, put back or dead-lettered by the outcome and its number of attempts, and counted as such |
| QueueDrain.LearningQueue.WorkOff | src/learning/queue.ts:166-191 | the files and counters after one claimed file |
| QueueDrain.LearningQueue.Drain | src/learning/queue.ts:152-194 | the files and counters after all listed files |
| QueueDrain.EveryTryCountedOnce | src/learning/queue.ts:174-190 | the counters of the result add up to the lines tried |
| QueueDrain.PutBackIsTriedExactly | src/learning/queue.ts:163-188 | reading a file with lines appended to it tries the same lines as before if and only if there are none, or one that was glued to a torn line |
| QueueDrain.OncePerDrainExactly | src/learning/queue.ts:156-192 | the drain tries exactly the listed parseable lines, each once and in order, if and only if none of a source listed before the queue file goes back, or one alone does and is lost behind a torn line |
| QueueDrain.OncePerDrainIfEnded | src/learning/queue.ts:156-192 | on a queue file that ends in a newline: if and only if no line of a source listed before it goes back |
| QueueRuns.CalmRunsLoseNothing | src/learning/queue.ts:61-68 | in every run of any number of drains and enqueue calls, with aborts and crashes, in which each write gets in whole and into a file that is still the queue file or the dead-letter file, no step of a returned call is lost; and without aborts and crashes each is there exactly once |
| QueueRuns.DrainOnItsOwn | src/learning/queue.ts:134-192 | from every reachable state, while the others pause, a drain that has come to a file of its listing works it off from the first line to the last, unlinks it, and leaves applied steps, queue and dead letters as the drain on its own does |
| QueueRuns.PassesOver | src/learning/queue.ts:163-165 | a listed file that has been claimed by another drain is passed over |
| Lifecycle.OneWayToLaunch | src/domain/lifecycle.ts:64-94 | the only edge into the dispatched statuses is ready to queued with no open dependency |
| Lifecycle.TerminalStatuses | src/domain/lifecycle.ts:28-46 | completed and cancelled are exactly the statuses that no transition leaves |
| Lifecycle.EdgesExactly | src/domain/lifecycle.ts:28-46 | the edges of the table, told by what they are for: along the main line, one back while planning and queueing, to repair and back to verification, out for a decision and back, to failure and back to the queue, to cancellation |
| Lifecycle.ApprovedExactly | src/domain/lifecycle.ts:64-94 | a transition is approved if and only if the table has the edge, dispatching finds no open dependency, and completing has its proof |
| Lifecycle.EveryCompletionPassesExactly | src/domain/lifecycle.ts:28-46 | the statuses that every way from draft to completed passes are exactly draft, ready, queued, running, ready to merge and completed |
| Lifecycle.OpenCanBeCancelled | src/domain/lifecycle.ts:28-46 | exactly what is neither completed nor cancelled can be cancelled |
| Completion.CheckProgressive | src/domain/completion.ts:260-360 | reports nothing exactly when the progressive contract is met, given enough verification runs |
| Completion.CheckVerifications | src/domain/completion.ts:196-363 | reports nothing exactly when verifications, progressive contract and blockers allow it |
| Completion.CheckEvidence | src/domain/completion.ts:365-389 | reports nothing exactly when there is evidence, none of it dangling, and an artifact if required |
| Completion.CheckDecisions | src/domain/completion.ts:397-412 | reports nothing exactly when every required category has an approved decision of the task's project |
| Completion.EvaluateCompletionProof | src/domain/completion.ts:188-415 | reports no failure if and only if the declarative proof set holds |
| Completion.ProofSurvivesWithoutProvenance | src/domain/completion.ts:332-350 | a proof that holds with review provenance holds without it |
| Completion.WhatProvenanceAdds | src/domain/completion.ts:336-350 | provenance demands exactly an authoritative independent review in addition |
| Completion.ProofNeedsQualifyingRun | src/domain/completion.ts:196-247 | no proof holds without a qualifying run or with an open blocker |
| CompletionRules.OnlyBearingRowsCount | src/domain/completion.ts:196-363 | on verifications, review and blockers nothing bears but the task's own succeeded runs, passed verifications, citations, open severe findings and passing receipts |
| CompletionRules.OnlyOwnRowsCount | src/domain/completion.ts:365-412 | on evidence and decisions nothing bears but the task's own rows, and of the decisions the approved ones of its project |
| CompletionRules.OneVerificationIsEnough | src/domain/completion.ts:188-247 | one passed and cited verification is enough for the default criteria |
| CompletionRules.FullProofIsEnough | src/domain/completion.ts:248-412 | base checks, an independent review with receipt, an artifact and a decision are enough for criteria that demand them |
| CompletionRules.ProgressiveExactly | src/domain/completion.ts:196-363 | under a progressive contract the verifications and the review hold if and only if enough verifications count, each base check and each risk check has a passed and cited one by a succeeded run at the candidate's head, broader validation has one exactly when a trigger or the policy calls for it, the review asked for is there, and no major or critical finding is open |
| CompletionRules.ReviewedExactly | src/domain/completion.ts:285-351 | a focused contract asks for a succeeded review run at the head; an independent one for such a run that has lost no independence and a passing receipt that it was of a run which made or repaired the candidate |
| CompletionRules.EvidenceExactly | src/domain/completion.ts:365-392 | some evidence of the task is there, all of it that speaks of a verification names one of the task, and where an artifact is required one is named by more than white space |
| TaskService.TaskStore.AddTask | src/domain/task-service.ts:139-180 | appends a draft task with its criteria; the table invariants are kept and nothing final is changed |
| TaskService.TaskStore.AddDependency | src/domain/task-service.ts:286-293 | adds the edge, or refuses self-dependency, missing tasks and duplicates; the table invariants are kept and nothing final is changed |
| TaskService.TaskStore.IncompleteDependencyCount | src/domain/task-service.ts:188-209 | counts the dependencies that are not completed |
| TaskService.TaskStore.ApplyTransition | src/domain/task-service.ts:218-271 | fence, guards, criteria freeze and version of the new row, or the error and no change; the table invariants are kept and nothing final is changed |
| TaskService.TaskStore.ClaimNextTask | src/domain/claim-service.ts:50-102 | claims the oldest selected queued task without an active claim under the next attempt number and moves it to running; the table invariants are kept and nothing final is changed |
| TaskService.TaskStore.HeartbeatClaim | src/domain/claim-service.ts:117-137 | extends exactly the live claim of the worker; the table invariants are kept and nothing final is changed |
| TaskService.TaskStore.CloseClaim | src/domain/claim-service.ts:139-158 | closes exactly the live claim of the worker |
| TaskService.TaskStore.ReleaseClaim | src/domain/claim-service.ts:179-206 | closes the claim and requeues or cancels its task, or does neither; the table invariants are kept and nothing final is changed |
| TaskService.TaskStore.RecoverExpiredClaims | src/domain/claim-service.ts:214-243 | expires lapsed claims and requeues their running tasks; the table invariants are kept and nothing final is changed |
| TaskRuns.StepKeepsInv | src/domain/task-service.ts:218-271 | every service call, with transitions split into read and swap, keeps the table invariants |
| TaskRuns.EveryRunIsSound | src/domain/claim-service.ts:50-158 | in every run: at most one active claim per task and it is the newest, attempts 1..n, legal edges only, completions proven, fenced attempts never decrease |
| TaskRuns.AttemptsAreOneToN | src/domain/claim-service.ts:74-84 | a task has a claim with attempt k if and only if 1 <= k <= n |
| TaskRuns.AttemptsIncrease | src/domain/claim-service.ts:74-84 | a later claim of a task has a larger attempt number |
| TaskRuns.CompletionAndCriteriaAreFinal | src/domain/task-service.ts:239-257 | from any point of a run on, completion stays and frozen criteria never change |
| TaskRuns.DeadStaysDead | src/domain/claim-service.ts:105-158 | a claim that has lapsed or been closed is never live again |
| TaskRuns.DeadClaimsAreUseless | src/domain/claim-service.ts:105-158 | no heartbeat, completion, release or fenced transition that begins with a dead claim succeeds, at any later time |
| TaskRuns.DeadClaimCommitsIffRowIsFresh | src/domain/task-service.ts:218-271 | a transition read under a live claim commits at any later time, dead or not, if and only if the task's row is still what was read |
| TaskRuns.LapsedClaimCanCommit | src/domain/task-service.ts:218-271 | read, wait until the lease is over, commit: this always succeeds |
| TaskRuns.SweepDoesExactlyThis | src/domain/claim-service.ts:214-243 | expires exactly the lapsed claims, leaves live ones alone, leaves none lapsed, requeues exactly the running tasks behind them and touches no other task |
| TaskRuns.SweepIsIdempotent | src/domain/claim-service.ts:208-243 | a second sweep at the same time changes nothing |
| TaskRuns.RequeuedTaskIsClaimable | src/domain/claim-service.ts:50-102 | a requeued task can be claimed at once, under attempt n+1 |
| TaskRuns.CompletedTasksAreClosed | src/domain/lifecycle.ts:64-80 | in every run whose new dependencies are harmless, whatever a completed task reaches along dependencies is completed |
| TaskRuns.NewDependencyKeepsClosedExactly | src/domain/task-service.ts:286-293 | a new dependency keeps dispatched tasks closed if and only if it is completed or the task is not dispatched |
| TaskRuns.CyclesAreAllOrNothing | src/domain/lifecycle.ts:64-80 | in every run from the start whose new dependencies are harmless, each dependency cycle is wholly completed or wholly in draft, ready and cancelled |
| TaskRuns.CyclesNeverRun | src/domain/lifecycle.ts:72-80 | in every run from the start that adds dependencies to undispatched tasks only, no task on a cycle leaves draft, ready and cancelled |
| TaskRuns.CompletedTasksCanFormCycle | src/domain/task-service.ts:286-293 | between two completed tasks a second edge is accepted, and closes a cycle |
| TaskRuns.CompletableIsPromotable | src/domain/completion.ts:420-470 | whenever a task can be completed its promotion proof holds |
| TaskRuns.QueuedTaskCanBeClaimed | src/domain/task-service.ts:218-271 | running, then needs decision, then queued leaves the claim active, and the task cannot be claimed |
| TaskRuns.QueuedStayUnclaimedExactly | src/domain/claim-service.ts:50-243 | where no queued task has an active claim, a step keeps it so if and only if it does not move a claimed task to queued |
| TaskRuns.RunningTaskCanBeUnclaimed | src/domain/claim-service.ts:139-158 | closing a claim leaves its task running without an active claim, and no sweep requeues it |
| TaskRuns.RunningStayClaimedExactly | src/domain/claim-service.ts:50-243 | where every running task has an active claim, a step keeps it so if and only if it neither moves an unclaimed task to running nor closes the claim of a running one |
| TaskHistory.RowsAreTheirHistory | src/domain/task-service.ts:139-271 | in every run each task row is what its own commits have made of the draft that was asked for: project and criteria as given, version the number of commits, status where the last one led, and criteria frozen by the first dispatch to those given or to the default |
| TaskHistory.CompletionsMeetTheirCriteria | src/domain/task-service.ts:236-257 | every completion was judged on records that satisfy the proof set under the criteria that the task was made with, or the default |
| TaskHistory.ClaimsAreTheirHistory | src/domain/claim-service.ts:50-243 | in every run each claim was made for its worker by one call, its lease counts from that call or a heartbeat of that worker, and it was closed by that worker or by a sweep behind its lease |
| TaskHistory.StepOnClaim | src/domain/claim-service.ts:50-243 | all that a step can do to a claim: its live owner extends or closes it, or a sweep expires it behind its lease |
| TaskHistory.TakeNextTakesOldest | src/domain/claim-service.ts:50-102 | the next claim goes to the oldest queued task of the filter without an active claim, under the next attempt, and the task runs under it; or there is no such task |
| TaskHistory.ClaimableExactly | src/domain/claim-service.ts:56-77 | what can be claimed: a queued task of the filter's project and task, if named, without an active claim |
| TaskHistory.HandBackMoves | src/domain/claim-service.ts:179-206 | handing back queues or cancels the claim's task and touches no other |
| TaskHistory.DependenciesAreTheirHistory | src/domain/task-service.ts:286-293 | the dependencies are exactly those asked for |
| TaskHistory.TransitionSucceedsExactly | src/domain/task-service.ts:218-257 | a transition succeeds if and only if its claim, if presented, is live and of the task, the table has the edge, a dispatch finds all dependencies completed, and a completion has its proof |
| TaskHistory.RefusalsAreTrue | src/domain/task-service.ts:218-257 | the reason told by a refused transition is true: the claim is not live or not of the task, the edge is not in the table, a dependency is open, or the proof does not hold |
| TaskHistory.TakeNextSucceedsExactly | src/domain/claim-service.ts:50-102 | the next claim is refused only when its lease is over before the task is moved |
| TaskHistory.CallsSucceedExactly | src/domain/claim-service.ts:105-158 | heartbeats and closings succeed exactly for the live owner, a new dependency exactly between two tasks that do not have it |
| InstallTrees.MissingIs | scripts/activate-major-user-state.py:113-119 | the recorded parents are exactly those on the way that do not exist |
| InstallTrees.StepUndone | scripts/activate-major-user-state.py:121-152 | undoing one entry gives back the disk with its parents made |
| InstallTrees.UndoKeepsExtras | scripts/activate-major-user-state.py:147-151 | undoing a target leaves everything outside it alone |
| InstallRun.AfterKeeps | scripts/activate-major-user-state.py:111-139 | the disk stays a tree and the touched list names each target and its backup |
| InstallRun.AllUndone | scripts/activate-major-user-state.py:147-151 | undoing all entries in reverse gives back the original together with what was left about, for nested targets too |
| InstallSweep.Region | scripts/activate-major-user-state.py:111-139 | outside all targets touched so far the disk is the original and directories that were made |
| InstallSweep.MarkedAreSwept | scripts/activate-major-user-state.py:154-158 | removing created directories in reverse removes each one that nothing else stands below |
| InstallSweep.SweptExactly | scripts/activate-major-user-state.py:154-158 | a directory without original contents is removed if and only if at one of its places in the list everything made below it has been cleared before |
| InstallRollback.RollbackRestores | scripts/activate-major-user-state.py:143-167 | at every fault every original node comes back, except an emptied directory made anew, and only the named directories stay behind |
| InstallRollback.OriginalsStay | scripts/activate-major-user-state.py:147-158 | nothing of the original is lost unless a directory made anew was empty before |
| InstallRollback.RestoredExactly | scripts/activate-major-user-state.py:143-167 | for every fault and every nesting of targets, the disk is what it was if and only if no directory stays behind and no empty one that was made anew is cleared |
| InstallRollback.FlatRollbackExactly | scripts/activate-major-user-state.py:143-167 | with targets that are not nested, rollback is exact if and only if the fault was not while making parents or copying below a new parent |
| InstallRollback.EmptyDirectoryLost | scripts/activate-major-user-state.py:154-158 | an empty original directory made anew is removed by the rollback |
| InstallRollback.NestedTargetsLoseDirectory | scripts/activate-major-user-state.py:154-158 | a manifest with nested targets whose rollback loses a directory |
| InstallSuccess.CommitLeavesInstalled | scripts/activate-major-user-state.py:168-176 | a run that is not stopped leaves exactly what the manifest means, and no backup |
| InstallSuccess.LastWordDecides | scripts/activate-major-user-state.py:111-139 | every path is as the last entry that concerns it says, and unchanged where none does |
| InstallSuccess.AgainIsNoOpExactly | scripts/activate-major-user-state.py:108-176 | a second activation changes nothing if and only if no installed file stands above a target |
| InstallSuccess.FlatAgainIsNoOp | scripts/activate-major-user-state.py:108-176 | with targets that are not nested, activating again changes nothing |
| InstallSuccess.InsideOutIsRefusedAgain | scripts/activate-major-user-state.py:113-118 | a manifest that can be activated once but not twice |
| Activation.Installer.InstallEntry | scripts/activate-major-user-state.py:112-139 | one entry is installed, or the state is that of the crash |
| Activation.Installer.UndoTargets | scripts/activate-major-user-state.py:147-153 | the first loop of the rollback |
| Activation.Installer.RemoveCreated | scripts/activate-major-user-state.py:154-158 | the second loop of the rollback |
| Activation.Installer.RemoveTemporaries | scripts/activate-major-user-state.py:159-163 | the third loop of the rollback |
| Activation.Installer.RemoveBackups | scripts/activate-major-user-state.py:171-176 | backups are removed in the order of the entries |
| Activation.Installer.Activate | scripts/activate-major-user-state.py:84-176 | the disk and the result are those of the specification, whatever the fault |
| Activation.CopyAndRename | scripts/activate-major-user-state.py:134-139 | copying to a temporary path and renaming puts the source in place |
| Activation.ActivationOutcome | scripts/activate-major-user-state.py:84-176 | activation leaves what the manifest means, or the rollback of a crash in the turn of one entry |
| Activation.NoBackupsOrTemporariesLeft | scripts/activate-major-user-state.py:143-163 | no backup and no temporary copy is left after a failure |
| Activation.FlatFailureLosesNothing | scripts/activate-major-user-state.py:143-167 | with targets that are not nested, a failure loses nothing and adds at most directories |
| Activation.FlatFailureRestoresExactly | scripts/activate-major-user-state.py:84-167 | with targets that are not nested, a failed activation leaves the disk as it was if and only if the fault did not come while making parents or copying below a new parent |
| Activation.BlockedExactly | scripts/activate-major-user-state.py:112-119 | an entry is refused if and only if its target is the root, or a file stands where a parent of it is to be |
| Activation.ActivationSucceedsExactly | scripts/activate-major-user-state.py:84-176 | an activation succeeds if and only if the manifest can be installed and no fault strikes in a turn or behind the last one |
| Activation.FaultAmongParents | scripts/activate-major-user-state.py:112-120 | what a fault leaves before and while the parents are made: nothing new, then the first of them, then all of them and recorded |
| Activation.FaultBehindBackup | scripts/activate-major-user-state.py:121-133 | behind the backup the target is gone, all of it stands under the backup's name, and both are recorded |
| Activation.FaultWhileCopying | scripts/activate-major-user-state.py:134-139 | while copying, part of the source stands under the temporary path, which is recorded, and nothing else is new |
| Knowledge.ResolvesToItself | src/knowledge/semantics.ts:52-64 | an identity that is a fact's own entity resolves to that entity or not at all |
| Knowledge.Ingest | src/knowledge/workflow.ts:46-130 | the facts captured and the receipt are those of judging the records in order, up to the limit |
| Knowledge.EveryRecordReportedOnce | src/knowledge/workflow.ts:52-57 | every record is accepted, rejected or unresolved, and only one of these |
| Knowledge.AcceptedKeepsItsEntity | src/knowledge/workflow.ts:60-82 | alias resolution never stores a record under another entity |
| KnowledgeRules.TakenInExactly | src/knowledge/workflow.ts:58-127 | an ingest takes in exactly the records whose identity names their own entity alone, which are provenanced and notable, and which neither contradict nor repeat what is known by then; the receipt says of every other one what stood against it |
| KnowledgeRules.ResolvesExactly | src/knowledge/semantics.ts:52-64 | an identity resolves to an entity if and only if it names that entity and no other |
| KnowledgeRules.OverlapIsCommonInstant | src/knowledge/semantics.ts:73-79 | claims whose validity is not empty overlap if and only if both hold at some instant |
| Knowledge.IngestKeepsConsistent | src/knowledge/workflow.ts:58-127 | a store without contradictions stays so, whatever is offered |
| Knowledge.IngestKeepsDuplicateFree | src/knowledge/workflow.ts:84-117 | a store without duplicates stays so, whatever is offered |
| Knowledge.ConsistentStoreHasNoConflict | src/knowledge/semantics.ts:122-163 | no query on such a store reports an overlapping conflict, at any instant |
| Knowledge.NoConflictAfterIngest | src/knowledge/workflow.ts:58-127 | nor does any query after any ingest |
| Knowledge.CurrentAnswerIsUnanimous | src/knowledge/semantics.ts:136-162 | a current answer agrees with every valid fact of its entity and property, and none was observed later |
| Knowledge.DisclosureRespectsSensitivity | src/knowledge/semantics.ts:142-161 | no answer discloses a fact more sensitive than the asking index or than the fact's own index |
| KnowledgeRules.UnresolvedExactly | src/knowledge/semantics.ts:132-135 | a query answers that the entity is not resolved if and only if its identity does not name one entity alone |
| KnowledgeRules.AnswersExactly | src/knowledge/semantics.ts:136-162 | what a query answers otherwise, of the facts valid at its instant and not replaced by a dated successor on the same topic: none, a sensitivity mismatch, a conflict, all of them, or one that none was observed behind |
| KnowledgeRules.AnswersInOrder | src/knowledge/semantics.ts:137-161 | conflicting and historical facts are exactly those that count, in the order of the store, and a current answer is the first of those observed last |
| KnowledgeRules.CountsExactly | src/knowledge/semantics.ts:81-101 | the facts that count for a query are those of its entity and property that hold at its instant and have no dated successor by then |
| Knowledge.AddToGroup | src/knowledge/semantics.ts:106-109 | adds a fact to the group of its key, keeping the grouping |
| Knowledge.GroupByKey | src/knowledge/semantics.ts:104-109 | groups the valid facts by key, in the order in which the keys first come up |
| Knowledge.CurrentCanonicalFacts | src/knowledge/semantics.ts:103-120 | for every key whose valid facts agree, the first of the latest observed, and nothing else, in the order in which the keys first come up |
| Knowledge.CompleteExactlyWithoutCollisions | src/knowledge/semantics.ts:103-120 | in a store without contradictions every entity and property with a valid fact has exactly one current fact if and only if no two of them share a key |
| Knowledge.KeysApart | src/knowledge/semantics.ts:107-107 | entity ids without a NUL keep the keys apart |
| Knowledge.NulHidesFacts | src/knowledge/semantics.ts:107-115 | two facts in no contradiction whose keys collide are both hidden |
| WorkspaceTree.FilterIsPruning | src/execution/workspace-transfer.ts:19-34 | filtering by path components is pruning every level by name |
| WorkspaceTree.MeasureArrange | src/execution/workspace-transfer.ts:94-96 | counts and sizes do not depend on the order of readdir |
| SnapshotDigest.SourceLikeSnapshot | src/execution/workspace-transfer.ts:24-34 | where no two copied names of a directory tie, the sorted and pruned source is the sorted snapshot, entry by entry |
| SnapshotDigest.MeasurePrune | src/execution/workspace-transfer.ts:19-22 | what pruning leaves out is exactly what has an excluded path component |
| SnapshotDigest.ScanPassesExactly | src/execution/workspace-transfer.ts:42-84 | a visit passes if and only if no entry is bad and the totals are within the limits |
| SnapshotDigest.HashTreePasses | src/execution/workspace-transfer.ts:86-89 | the digest of a snapshot succeeds if and only if it is within limits and its links are safe |
| SnapshotDigest.HashSourcePasses | src/execution/workspace-transfer.ts:117-151 | the digest of a source succeeds if and only if its snapshot is within limits and nothing outside excluded paths is hard-linked |
| SnapshotDigest.DigestsAgree | src/execution/workspace-transfer.ts:86-151 | for every order the two digests fail together, but for hard links and unsafe links; where both succeed and no two copied names of a directory tie, they serialise the same tokens |
| SnapshotTies.SnapshotsAgreeExactly | src/execution/workspace-transfer.ts:86-151 | for every source whose digests succeed, all snapshots of it serialise like it if and only if no two copied names of a directory tie in the collation |
| SnapshotTies.TokensDetermine | src/execution/workspace-transfer.ts:97-113 | trees with the same token stream are the same, but for what no token tells |
| SnapshotTies.SortIsStable | src/execution/workspace-transfer.ts:94-96 | sorting keeps the order of readdir between names that need not change places |
| SafeLinks.LinkPassesExactly | src/execution/workspace-transfer.ts:68-80 | the copy-back check lets a symbolic link through if and only if its target is relative and, with each name cancelled by a ".." behind it, goes up no further than the tree's root, or above it and down again by the root's own names |
| SafeLinks.LinksSafeExactly | src/execution/workspace-transfer.ts:44-84 | the links of a tree are safe if and only if each has such a target |
| SafeLinks.UpAndDown | src/execution/workspace-transfer.ts:72-78 | a target without ".." always passes, and one that leads out of the tree passes only if it names the root's directory |
| SafeLinks.PartsLoseNothing | src/execution/workspace-transfer.ts:72 | the parts of a target, joined by separators, give it back |
| SafeLinks.ErrorsAreTrue | src/execution/workspace-transfer.ts:46-83 | whatever the check says of a refused tree is true of one of its entries or of its totals |
| SafeLinks.SourceErrorsAreTrue | src/execution/workspace-transfer.ts:120-147 | so is what refuses the digest of a source, which is never about links or protected names |
| SnapshotDigest.TiesBreakAgreement | src/execution/workspace-transfer.ts:94-96 | the smallest case: two tied names in one directory |
| SnapshotDigest.Visitor.Validate | src/execution/workspace-transfer.ts:42-83 | the recursive check is the scan of the flat walk, with the same first error and counters |
| SnapshotDigest.Visitor.Hash | src/execution/workspace-transfer.ts:92-113 | the recursive visit appends the tokens of the sorted walk |
| SnapshotDigest.Visitor.HashFiltered | src/execution/workspace-transfer.ts:122-149 | the combined visit checks and hashes the pruned sorted walk |
| SnapshotDigest.HashWorkspaceTree | src/execution/workspace-transfer.ts:86-115 | returns the token stream of the specification, or the first error |
| SnapshotDigest.HashSourceWorkspaceTree | src/execution/workspace-transfer.ts:117-151 | returns the token stream of the specification, or the first error |
| Capabilities.StepKeepsInv | src/capabilities/registry.ts:287-701 | every operation keeps artifact, counter and preference invariants of all records |
| Capabilities.EveryRunIsSound | src/capabilities/registry.ts:227-701 | in every run a validated or preferred capability owns a passed artifact for itself and its fingerprint, counters are the logged outcomes, preferred means two successes and at most one failure |
| Capabilities.LeavingNeedsNewSource | src/capabilities/registry.ts:306-344 | a degraded, blocked or deprecated capability is admissible again only after a source with another fingerprint and with an artifact made since |
| Capabilities.FirstSourceMayComeBack | src/capabilities/registry.ts:306-344 | by way of a second source a record is provisional again under its first fingerprint |
| Capabilities.StatusDecidesReuse | src/capabilities/registry.ts:247-254 | in every run the reuse filter's checks of validation and artifact never turn an admissible capability away |
| CapabilityRules.ValidatedByTheirSteps | src/capabilities/registry.ts:371-563 | in every run an independently validated record was put there by a review of another than its discoverer, on a passed run of a succeeded agent run of that reviewer for its project, present source and operation; a platform-verified one by the built-in verifier on its own adapter |
| CapabilityRules.StatusByTheirSteps | src/capabilities/registry.ts:287-701 | in every run each record owes its status to an operation that gives it |
| CapabilityRules.StepOnRecord | src/capabilities/registry.ts:287-701 | every change of a record, and every new one, is one of the listed ways |
| CapabilityRules.SucceedsExactly | src/capabilities/registry.ts:287-701 | an operation succeeds if and only if it gets what it asks for |
| CapabilityRules.RefusalsAreTrue | src/capabilities/registry.ts:287-701 | the reason told by a refused operation is true of the record and of what was presented |
| CapabilityRules.StepOnLog | src/capabilities/registry.ts:287-701 | every operation that succeeds is logged once, and one that is refused changes nothing |
| CapabilityRules.StepOnArtifacts | src/capabilities/registry.ts:434-475 | artifacts are filed by verifications only, and never changed |
| CapabilityRules.AcceptedExactly | src/capabilities/registry.ts:185-206 | a proposal is accepted if and only if nothing is wrong with it |
| CapabilityRules.ReasonsExactly | src/capabilities/registry.ts:185-206 | each reason is given against a proposal if and only if it stands |
| CapabilityRules.ReuseIsBest | src/capabilities/registry.ts:248-261 | what is reused is preferred if any reusable capability is, and then has succeeded most often, failed least often, and stood first |
| CapabilityRules.AcquireIsFirst | src/capabilities/registry.ts:263-274 | a candidate is acquired only when nothing can be reused; it is acceptable, and the first of the first kind of source among the acceptable ones for the operation |
| CapabilityRules.RefusalTells | src/capabilities/registry.ts:275-281 | a refusal gives exactly the reasons against the candidates for the operation, or that there are none; then nothing can be reused and none is acceptable |
| Capabilities.PlanAcquisition | src/capabilities/registry.ts:243-281 | returns the first best reusable capability, else the first accepted candidate of lowest rank, else the reasons against all candidates for the operation in the order of their ranks, or that there is none |
| Capabilities.Registry.Provision | src/capabilities/registry.ts:287-364 | new record, re-provisioning, or the error and no change; the invariant of the registry is kept |
| Capabilities.Registry.Validate | src/capabilities/registry.ts:371-485 | independent validation settles the record, or the error and no change; the invariant of the registry is kept |
| Capabilities.Registry.Settle | src/capabilities/registry.ts:434-475 | files the artifact and moves the record to validated or blocked |
| Capabilities.Registry.ValidateLocally | src/capabilities/registry.ts:489-563 | the built-in verifier settles its own adapter only; the invariant of the registry is kept |
| Capabilities.Registry.Invalidate | src/capabilities/registry.ts:566-588 | degrades the record and drops its artifact; the invariant of the registry is kept |
| Capabilities.Registry.Block | src/capabilities/registry.ts:591-608 | blocks a provisional record; the invariant of the registry is kept |
| Capabilities.Registry.Report | src/capabilities/registry.ts:611-624 | logs a reported use and changes no counter; the invariant of the registry is kept |
| Capabilities.Registry.Use | src/capabilities/registry.ts:627-665 | counts an outcome and degrades at the second failure; the invariant of the registry is kept |
| Capabilities.Registry.Prefer | src/capabilities/registry.ts:667-685 | prefers a validated record with two successes and no failure; the invariant of the registry is kept |
| Capabilities.Registry.Deprecate | src/capabilities/registry.ts:687-701 | deprecates from any status; the invariant of the registry is kept |
| EventQueue.RunKeeps | src/execution/lima-backend.ts:82-110 | after every interleaving in which no call meets a buffered undefined, the answers, the buffer and the waiting calls are determined by what was pushed before the close |
| EventQueue.KthNextGetsKthValueExactly | src/execution/lima-backend.ts:82-110 | at every moment the k-th next has the k-th value pushed before the close, or done, or waits, if and only if no next has met a buffered undefined |
| EventQueue.AnswersStay | src/execution/lima-backend.ts:87-107 | in every run, whatever the values, an answer is never taken back |
| EventQueue.AbsentValueIsLost | src/execution/lima-backend.ts:102-106 | a buffered undefined is dropped and the next call waits |
| EventQueue.Channel.Push | src/execution/lima-backend.ts:87-92 | serves the first waiting call or buffers the value |
| EventQueue.Channel.Close | src/execution/lima-backend.ts:94-98 | answers all waiting calls with done |
| EventQueue.Channel.Next | src/execution/lima-backend.ts:100-107 | hands out the next promise |
| CommandOutput.SplitLosesNothing | src/execution/lima-backend.ts:283-285 | the lines joined by newlines are the text, and no line holds a newline |
| CommandOutput.SplitAcross | src/execution/lima-backend.ts:282-284 | cutting a text in two changes only the line around the cut |
| CommandOutput.TailAcross | src/execution/lima-backend.ts:279-280 | cutting off the front early does not change the tail |
| CommandOutput.TailIsTheEnd | src/execution/lima-backend.ts:279-280 | the tail is the end of the text, up to 200000 characters of it |
| CommandOutput.ToldIsWhole | src/execution/lima-backend.ts:282-302 | the lines a listener is told, each with a newline, are the whole text, with one more newline if it did not end in one |
| CommandOutput.Output.OnStdout | src/execution/lima-backend.ts:277-286 | one chunk more of the whole output |
| CommandOutput.Output.OnStderr | src/execution/lima-backend.ts:287-290 | one chunk more of the error output |
| CommandOutput.Output.OnClose | src/execution/lima-backend.ts:298-302 | for every way of cutting, the lines of the whole and its last 200,000 characters |
| CommandOutput.Feed | src/execution/lima-backend.ts:277-302 | feeding any chunks gives the lines and the tail of their concatenation |
| Csv.PrintParses | src/observability/shaper.ts:388-419 | by section 2 of RFC 4180 the file parses to the headings and exactly the neutralised cells, for all strings |
| Csv.TelemetryParses | src/observability/shaper.ts:350-407 | the same for the 35 telemetry columns |
| Csv.CommandCentreParses | src/observability/shaper.ts:409-419 | the same for the 4 command centre columns |
| Csv.NeverFormula | src/observability/shaper.ts:394-398 | no text cell starts with a formula character behind what is skipped |
| Csv.NeutralCollidesExactly | src/observability/shaper.ts:394-398 | two texts give the same cell if and only if they are equal or one is the other, a formula, behind an apostrophe |
| Csv.FileShowsRows | src/observability/shaper.ts:388-419 | by the grammar a reader finds the headings and one record for each row: numbers as they are, nothing for null, and each text as it is or behind an apostrophe, exactly when it starts like a formula; no cell of a text starts like one |
| Csv.FormulaExactly | src/observability/shaper.ts:394-398 | a text is taken for a formula if and only if its first character that is not skipped is one of = + - @ |
| RunEvents.LogIsFirstOccurrences | src/domain/run-service.ts:296-345 | the log of a run is the first occurrences of its deliveries in order, numbered 1..n |
| RunEvents.RefusedExactly | src/domain/run-service.ts:306-323 | a delivery is refused if and only if its key was first used with other content, and reported as duplicate if and only if with the same |
| RunEvents.LogOnlyGrows | src/domain/run-service.ts:324-341 | the log grows only at its end |
| RunEvents.EventLog.AppendRunEvent | src/domain/run-service.ts:296-345 | one append, duplicate or refusal, as specified |

## Left out

- Deadlock freedom of the locks: `promoteLearning` takes a nested store lock and can wait on a migrator that waits for its outer lock; only the deadlines end that, and a process giving up is a step.
- Lock files are created together with their pid in one step; the failing write of the pid, the 30-second age check and unreadable lock files are not modelled. Process ids are never reused.
- LearningStore.GlobalRecordsStayVisible: redaction, folding, digests and the search for personal data are parameters, of which it is assumed that redacting twice is redacting once and that digests and the retraction text are left alone. A base name holds no slash. Keys of the stores are the project names, not their hashes, and no store is unreadable; unreadable stores are part of `LegacyMigration`.
- `listLearningCandidates`, `learningReviewDue` and the weekly digest, which only read.
- QueueProtocol.NothingIsLost: of a returned enqueue call; a call that dies or fails in its write promises nothing. One write is one step. The directory listing looks at all files at one time. That a piece of a step, or two steps, on one line do not parse as JSON is taken from the format.
- JSON, zod, SQL and the database triggers; tables are sequences, an id is a row's position, and rows are in creation order.
- Capability gates (`assertCapabilityAvailable`) and suggestion provenance of tasks.
- Completion.EvaluateCompletionProof: the failure messages are not specified, only that there is one exactly when the proof set fails.
- TaskRuns.CompletedTasksAreClosed: with unrestricted new dependencies it is false; the condition on each new edge is exact for the dispatched tasks, and sufficient for transitions that have been read but not committed.
- Activation.ActivationOutcome: sources are given as trees that the run does not change; a manifest whose source lies under one of its targets is not modelled.
- Operating-system errors during the rollback or the commit, symbolic links among parents, file metadata, and manifests that `load_manifest` refuses.
- Activation faults between the rename into place and the removal from the list of temporaries; removing a temporary that is gone does nothing.
- The text functions of the knowledge base (normalisation, date parsing, blank text) are parameters; `inspectBrain` is not modelled.
- Hashing: the digests are compared as token streams, not as bytes, since file contents carry no length. File sizes are the lengths of the contents. Copy errors other than unsupported objects are left out.
- The verification run of a capability review, the built-in verifier's artifact and its revision are inputs; reasons are names, not texts.
- Characters split across byte chunks; a failing write to the child's input, which appends to the retained error output without cutting it.
- Csv.PrintParses: numbers are given as their digits; which characters the spreadsheet guard skips is a parameter.
- RunEvents.LogIsFirstOccurrences: the payload hash is taken to tell contents apart; the rendered payload stands for it.
- The semantic decision kernel, routing, provider transports, virtual machines, the command line and all text output.
