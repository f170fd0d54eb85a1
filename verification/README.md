# Seedrop: proofs about its durable state

A Dafny model of the parts of Seedrop that must survive crashes, retries and concurrent
processes, with proofs of what holds over every run.

| modules | what they model |
|---|---|
| `CommandMarker`, `PassportModel`, `PassportCommit`, `PassportRuns`, `PassportAnswers` | the write-ahead commit of a passport: journal, audit line, rename, journal removal, and the repair that finishes a half-done one. A process has a budget of file mutations and is gone when it runs out, inside a commit or inside a repair |
| `AuditHistory` | the session and project edits of an identity, and undoing them entry by entry |
| `FileLock` | the lock file and its `.reap` file as an interleaved protocol of tasks, processes that die, and process ids that are used again |
| `ProjectTypes`, `ProjectLog` | content-addressed transactions and the reducer that accepts only one chain of them |
| `CommandExecution`, `CommandInvariant`, `CommandSafety`, `CommandAnswers`, `LogHealth` | any number of concurrent command executors over one log, with directory scans that are not atomic |
| `CommandBuild`, `CommandReadBack` | building a transaction from a plan and reading lifecycle and effects back |
| `CommandOutcome`, `OutcomeRuns` | dispatching effects and deciding the outcome |
| `CrashMachine`, `CrashInvariant`, `CrashTable`, `CrashRestart` | those executors taken apart at the sixteen boundaries of the published crash table, with staging files, directory flushes and the outbox; what the table says of each boundary, and restarting as it says |
| `WorkLifecycle`, `WorkSafety`, `WorkAnswers` | native work: planners, reducer, the states runs can reach, and when each command takes effect |
| `Migration`, `MigrationSafety`, `MigrationRuns`, `RevisionChain`, `CheckpointReader`, `MigrationExecutor` | the restartable shadow migration, its checkpoint journal and the reader of that journal |
| `Texts`, `ContinuityAck`, `ContinuityRuns` | acknowledging continuity pages |
| `JsonText`, `KeyOrder`, `CanonicalJson` | the canonical printing that passport hashes are taken over, with the string escapes of section 7 of RFC 8259 |
| `JsonComments`, `TomlSection`, `TomlRuns`, `TomlServer`, `TomlOthers` | removing comments from JSON, and registering a server in a TOML file |

`dafny verify dfyconfig.toml` checks all of it.

## What turned out not to hold

Each of these has a lemma with the exact condition under which the code does meet the
property; where that does not already name the input, another lemma gives a concrete one.

- The lock does not exclude at two moments: a process exits while a reaper that has read its
  file is about to probe it and no dead process's file stands at the path; or age decides
  because a probe is refused (`FileLock.ExclusionExactly`, `FileLock.StaleReadBreaks`,
  `FileLock.DeniedProbeBreaks`).
- A command id used under a second idempotency scope is published all the same and leaves
  the project log incomplete for ever (`LogHealth.PublishesWhateverItsCommandId`,
  `LogHealth.WedgedForever`, `LogHealth.ReusedCommandId`).
- Expiring the lease of a pair leaves intent and episode active without a lease for good
  (`WorkSafety.PairsLeasedExactly`, `WorkSafety.ExpiryStrandsItsPair`,
  `WorkSafety.OpenThenExpire`).
- A project added to a passport without a project list is not undone exactly: the list
  comes back empty (`AuditHistory.UndoInvertsEdit`, `AuditHistory.AbsentProjectsComeBackEmpty`).
- A corpus of more than 2^53 - 1 records cannot be completed (`MigrationSafety.TerminalTotals`,
  `MigrationSafety.OversizedIsRefused`).
- The checkpoint validator accepts checkpoints that no run reaches and that cannot advance
  (`MigrationRuns.PhaseEndsExactly`, `MigrationRuns.ValidatorAdmitsDeadEnds`).
- Two executors that begin, or write a receipt, at different times fork the checkpoint journal
  (`CheckpointReader.ConcurrentStepsAgreeExactly`, `CheckpointReader.ForkIsForever`).
- A clock past the year 9999, or a full counter, makes an acknowledgement write a state
  file it can no longer read (`ContinuityRuns.WriterSatisfiesParserExactly`,
  `ContinuityRuns.YearTenThousand`, `ContinuityRuns.FullCounter`).
- Pages that do not advance the watermark can take effect twice once 128 others have
  passed (`ContinuityRuns.TakesEffectAgainExactly`, `ContinuityRuns.OneHundredAndThirtieth`).
- A page's token text is not the only one accepted for it (`ContinuityAck.DecodedExactly`,
  `ContinuityAck.TextIsNotUnique`).
- The crash table's last row overstates a command without effects (`CrashTable.TableIsExact`),
  and its `not started` rows overlook the staging file of an earlier execution that crashed
  (`CrashTable.RowsBeforeLinkExactly`, `CrashTable.LaterExecutionsFindStaging`). Recovery does
  not make up for a directory flush that a crash prevented
  (`CrashRestart.RecoveryLeavesUnconfirmed`).

## What is assumed

- Hashes of passports, transactions and page identities are uninterpreted functions; where
  a proof needs it, injectivity is a stated premise (`PassportModel.CollisionFree`,
  `ProjectTypes.Injective`). The word for an absent passport is outside the hash's range.
- Appending a line, renaming, linking and unlinking a file are each one atomic step.
- The outbox is idempotent by effect key, answers a key it has answered before with the
  same receipt, and delivery states are delivered or dead letter.
- Which texts the platform can parse as a date is uninterpreted; the shape a timestamp must have is not.
- Migration adapters answer alike for one idempotency key.
- Encoding a token and decoding it again gives the token back; neither its alphabet nor a checksum's holds a full stop.
- The project's writer lock excludes.

## Model

| member | source | states |
|---|---|---|
| `CommandMarker.Symbol` | id/src/commit-journal.ts:449-451 | an encoded symbol is never the closing bracket of a marker |
| `CommandMarker.SymbolInjective` | id/src/commit-journal.ts:449-451 | different sextets are written as different symbols |
| `CommandMarker.Sextets` | id/src/commit-journal.ts:449-451 | unpadded length: three bytes take four symbols, a tail of one or two bytes two or three |
| `CommandMarker.SextetsKeepBits` | id/src/commit-journal.ts:449-451 | four symbols hold the 24 bits of their three bytes, high bits first |
| `CommandMarker.SextetsKeepTail` | id/src/commit-journal.ts:449-451 | a tail of one or two bytes is held in two or three symbols, the bits left over being zero |
| `CommandMarker.ExamplesAreEncoded` | id/src/commit-journal.ts:449-451 | the three examples of section 9 of RFC 4648, in the alphabet for URLs and without padding |
| `CommandMarker.LastSymbolsAsWritten` | id/src/commit-journal.ts:449-451 | a concrete marker, letter for letter |
| `CommandMarker.SextetsInjective` | id/src/commit-journal.ts:449-451 | no two byte sequences share their sextets |
| `CommandMarker.Base64UrlInjective` | id/src/commit-journal.ts:449-451 | equal encodings come from equal ids |
| `CommandMarker.DelimitedPrefix` | id/src/commit-journal.ts:449-451 | a delimited text is a prefix of another only when the two are equal |
| `CommandMarker.MarkerIdentifiesCommand` | id/src/commit-journal.ts:247-248 | the marker test answers yes for the notes of one command only when the ids are equal, whatever text the caller added |
| `PassportCommit.IndexOf` | id/src/commit-journal.ts:370-372 | the first position of an equal entry, or none |
| `PassportCommit.PriorEntry` | id/src/commit-journal.ts:247-248 | the first entry a command id marks; none means no entry carries the marker |
| `PassportCommit.PassportStore.ReadAuditLog` | id/src/audit.ts:59-86 | the log is accepted exactly when each entry names the result of the one before |
| `PassportCommit.PassportStore.Repair` | id/src/commit-journal.ts:341-429 | repair that may die after any file mutation leaves exactly the files, report and budget of its specification |
| `PassportCommit.PassportStore.FinishPending` | id/src/commit-journal.ts:398-428 | the writing half of repair: audit line, passport, journal removal, each only if still owed |
| `PassportCommit.PassportStore.Commit` | id/src/commit-journal.ts:227-310 | a commit, its own repair first, that may die after any file mutation; and, told by files and request alone, exactly which answer it gives and what it leaves: it goes through if and only if the log is consistent, no entry carries the marker and the version on disk is the one counted on |
| `PassportCommit.PassportStore.CommitSettled` | id/src/commit-journal.ts:238-310 | journal, audit line, rename, journal removal, in this order, exactly if the commit goes through, and otherwise a refusal that touches nothing, each refusal if and only if its own condition holds |
| `PassportCommit.RepairProgress` | id/src/commit-journal.ts:398-416 | each mutation of a repair pays off exactly one of those still owed |
| `PassportCommit.RecoverableAgrees` | id/src/commit-journal.ts:374-406 | without an outside writer a pending journal never meets one of the conflict branches |
| `PassportCommit.RepairKeepsPromise` | id/src/commit-journal.ts:398-416 | every mutation of a repair keeps the files recoverable and what they stand for |
| `PassportCommit.RepairFinishes` | id/src/commit-journal.ts:341-429 | the journal is gone after a repair exactly when the process lived for the mutations owed |
| `PassportCommit.AnswersExactly` | id/src/commit-journal.ts:238-310 | for any files without a pending journal: each answer if and only if its condition on the files and the request holds, with the versions a conflict names, and field by field what is on disk however long the process lived |
| `PassportAnswers.CommitsExactly` | id/src/commit-journal.ts:227-310 | where no other program wrote, a journal found first or not: committed if and only if no entry carries the marker and the version on disk is the expected one; a version conflict if and only if none does and the two differ |
| `PassportAnswers.FirstSaveCommits` | id/src/identity.ts:89-110 | the first save of an identity, of no passport onto no file, goes through, with this entry |
| `PassportAnswers.EditCommitsExactly` | id/src/identity.ts:215-252 | an edit goes through if and only if the version supplied is that on disk, or, with none supplied, the file holds the passport in memory or is gone |
| `PassportAnswers.RepairOverwritesNothing` | id/src/commit-journal.ts:341-416 | for any files and wherever it dies: a repair replaces the passport only over the version its commit started from, and extends the log only behind the entry it was written to follow |
| `PassportAnswers.ConflictsExactly` | id/src/commit-journal.ts:374-406 | a repair refuses if and only if the passport or the log shows another writer, and then touches nothing |
| `PassportAnswers.RepairReportsExactly` | id/src/commit-journal.ts:374-428 | otherwise it removes the journal, the entry is logged and the promised version on disk, and it reports just what it did |
| `PassportRuns.RepairStep` | id/src/commit-journal.ts:341-429 | a repair never reports a conflict; if it ends, it ends in the settled state |
| `PassportRuns.SettledCommitStep` | id/src/commit-journal.ts:286-306 | a commit that dies leaves the state before it or one that stands for the whole commit |
| `PassportRuns.CommitStep` | id/src/commit-journal.ts:227-310 | the same with a pending journal found first |
| `PassportRuns.RunRefines` | id/src/commit-journal.ts:227-310 | crash atomicity: over runs of commits and repairs with crashes anywhere, no conflict is ever reported and the files stand for exactly the commits that reached their journal, whole and in order |
| `PassportRuns.RepairsOnlySettle` | id/src/commit-journal.ts:341-429 | any number of crashed repairs changes nothing about what the files stand for |
| `PassportRuns.BeforeOrAfter` | id/src/commit-journal.ts:286-306 | after a crashed commit, crashed repairs and one finished repair: exactly the files before, or exactly those after |
| `PassportRuns.CommittedFiles` | id/src/commit-journal.ts:277-310 | what a commit leaves: the passport, one entry of its own logged last, no journal |
| `PassportRuns.AuditAgreement` | id/src/commit-journal.ts:238-284 | from an empty log, whenever no journal is pending: one chain, its tip the passport on disk, one entry per command, nothing logged ever lost |
| `PassportRuns.AcknowledgedIsDurable` | id/src/commit-journal.ts:301-325 | a commit reported as done stays logged through every later crash |
| `PassportRuns.RetryWritesNothing` | id/src/commit-journal.ts:247-273 | after a command took effect, repeating its id never changes a file: same result is answered with the original entry, any other is refused |
| `AuditHistory.FreshBlocksExtend` | id/src/identity.ts:180-188 | the blocks added are new, no pattern twice, and afterwards exactly the known and the requested patterns are known |
| `AuditHistory.UpsertKeepsIdsDistinct` | id/src/identity.ts:139-145 | an upsert leaves one project per id and every other project in place |
| `AuditHistory.FreshBlocksExactly` | id/src/identity.ts:180-188 | a block is learned if and only if its pattern was not known and it is the first requested with it |
| `AuditHistory.SessionLeaves` | id/src/identity.ts:190-210 | a session counts once and is dated, its blocks come last, all else stays, and the changes record just that |
| `AuditHistory.UpsertDescribes` | id/src/identity.ts:139-145 | a new project comes last, one that is there is updated in place: what the caller gave wins, what it left out stays |
| `AuditHistory.ProjectLeaves` | id/src/identity.ts:146-171 | a project edit dates the continuity and keeps its texts and lists, all else stays, and the changes record just that |
| `AuditHistory.UndoInvertsEdit` | id/src/audit.ts:88-120 | undoing a recorded change gives the earlier passport back exactly unless a project was added where no project list existed |
| `AuditHistory.AbsentProjectsComeBackEmpty` | id/src/audit.ts:109-111 | a concrete passport whose absent project list comes back as an empty one |
| `AuditHistory.RewindOneMore` | id/src/audit.ts:88-120 | going back one entry further is undoing one more entry |
| `AuditHistory.TimeTravel` | id/src/audit.ts:88-120 | after any run of session and project edits, folding the undo back from the tip recovers every earlier passport, with the hash its entry says it started from |
| `AuditHistory.TimeTravelThroughCrashes` | id/src/audit.ts:88-120 | the same when the run was full of crashes and repairs |
| `AuditHistory.Identity.NewBlocks` | id/src/identity.ts:180-188 | the loop over requested blocks keeps exactly those whose pattern is new |
| `AuditHistory.Identity.SessionChange` | id/src/identity.ts:175-211 | the passport after a session and the changes recorded |
| `AuditHistory.Identity.ProjectChange` | id/src/identity.ts:133-171 | the passport after a project upsert and the changes recorded |
| `AuditHistory.Identity.CommitPassportChange` | id/src/identity.ts:215-267 | a change written: the expected version is the caller's, or that in memory, or absence; when it succeeds memory and disk hold the same passport |
| `AuditHistory.Identity.PreviewPassportChange` | id/src/identity.ts:269-299 | a change not written: the entry it would append, from a log that is read only if its place is given and must be whole |
| `AuditHistory.EditRequestIsMade` | id/src/identity.ts:215-252 | with no version supplied and the file there, the request is the one time travel speaks of |
| `AuditHistory.PreviewForetells` | id/src/identity.ts:215-299 | when the edit is then committed, the entry appended is the one previewed, with the command's marker in its notes |
| `AuditHistory.Identity.CommitSession` | id/src/identity.ts:175-213 | a session, written |
| `AuditHistory.Identity.PreviewSession` | id/src/identity.ts:175-213 | a session, not written |
| `AuditHistory.Identity.PreviewActiveProject` | id/src/identity.ts:133-173 | a project upsert, not written |
| `AuditHistory.Identity.UpsertActiveProject` | id/src/identity.ts:133-173 | a project upsert, written |
| `FileLock.RunKeepsInv` | id/src/commit-journal.ts:489-571 | every interleaving without a dangerous moment keeps the lock invariant and exclusion |
| `FileLock.OnlyOwnerRemoves` | id/src/commit-journal.ts:545-554 | in such runs a live holder's lock file is removed or replaced only by the holder |
| `FileLock.LeavingSparesOthers` | id/src/commit-journal.ts:545-554 | over any run, exclusion lost or not: a task that leaves goes on to remove the file at the path if and only if that is the very file it wrote |
| `FileLock.ProbeDecidesExactly` | id/src/commit-journal.ts:556-571 | a file is condemned if and only if no process has its owner's id, or probing another process is refused and the file is older than thirty seconds |
| `FileLock.ExclusionExactly` | id/src/commit-journal.ts:520-571 | after any such run, an event can lead, without further danger, to two tasks inside if and only if it is dangerous: a process exits while a live reaper that has read its file is about to probe it and what stands at the path is no dead process's file, or age decides against such a file |
| `FileLock.DeniedProbeBreaks` | id/src/commit-journal.ts:561-566 | a concrete run at whose end a refused probe and the age of a live owner's file are a dangerous moment |
| `FileLock.StaleReadBreaks` | cli/src/continuity-ack.ts:350-386 | a concrete run at whose end the exit of a former owner is one |
| `FileLock.OrphanBlocks` | id/src/commit-journal.ts:489-543 | an empty lock file, or a dead reaper's file beside a dead owner's, only blocks: it stays and nobody is inside |
| `FileLock.DeadOwnerIsReplaced` | id/src/commit-journal.ts:520-543 | a dead owner's lock can be taken over while no reaper file is in the way |
| `ProjectLog.FollowChain` | project/src/projection.ts:49-78 | the reducer's loop along the only child computes the applied chain |
| `ProjectLog.ReduceOfChain` | project/src/projection.ts:20-114 | reducing a chain's files, in any listing order, gives the chain back, complete |
| `ProjectLog.AppliedIsChain` | project/src/projection.ts:49-78 | what is applied is always a chain of files with distinct identities, complete log or not |
| `ProjectLog.CompleteExactlyWhenChain` | project/src/projection.ts:20-114 | a projection is complete if and only if nothing is quarantined and the files are exactly one chain |
| `ProjectLog.TipDeterminesChain` | project/src/projection.ts:101 | two linked logs with one tip are equal |
| `ProjectLog.WatermarkDeterminesFiles` | project/src/projection.ts:101 | two complete logs with one high watermark hold the same files |
| `ProjectLog.PublishKeepsComplete` | project/src/commit.ts:37-83 | publishing on the high watermark leaves the log complete if and only if command and event ids are new |
| `ProjectLog.ConflictIsForever` | project/src/projection.ts:164-171 | once two files claim one identity no later publication completes the log |
| `ProjectLog.ReplayIsStable` | kernel/src/executor.ts:436-458 | whatever was appended since, the projection at a transaction is the one it had as high watermark |
| `ProjectLog.WalkOnce` | project/src/projection.ts:58-77 | the chain goes on exactly while an entry is new, unrivalled and has one child |
| `CommandInvariant.FindIdempotentIsExact` | kernel/src/executor.ts:753-770 | the lookup finds nothing, one or several exactly as the scope is unused, used once or used twice |
| `CommandAnswers.LookDecidesExactly` | kernel/src/executor.ts:110-149 | having scanned, an execution replays the one transaction of its scope if and only if that asked for the same, and builds its own if and only if the scope is unused and the log complete at the expected version |
| `CommandAnswers.RecoveryDecidesExactly` | kernel/src/executor.ts:192-217 | a recovery takes up the one transaction of the command, and fails if there is none or more than one |
| `CommandAnswers.CheckDecidesExactly` | project/src/commit.ts:37-59 | under the lock a call may publish if and only if the log is complete and at the expected version, or at its own transaction |
| `CommandAnswers.ConfirmDecidesExactly` | project/src/commit.ts:74-82 | having published, it goes on with its own transaction if and only if that is the tip of a complete log |
| `CommandAnswers.RescanDecidesExactly` | kernel/src/executor.ts:163-173 | having lost, it takes the one transaction of its scope if that asked for the same, and fails otherwise |
| `CommandInvariant.AdmittedIsFresh` | project/src/commit.ts:37-59 | a log that passes the check under the writer lock holds exactly the files the caller saw, so its lookup still stands |
| `CommandInvariant.PublishKeeps` | kernel/src/executor.ts:153-162 | publishing keeps scopes unique |
| `CommandInvariant.StepKeeps` | kernel/src/executor.ts:93-182 | every step of every call keeps the invariant, and no file ever disappears |
| `CommandInvariant.RunKeeps` | kernel/src/executor.ts:93-218 | so does every interleaving with crashes, faults and partial directory scans |
| `CommandSafety.OneTransactionPerScope` | kernel/src/executor.ts:110-175 | over every run the log holds at most one transaction per project, principal, command name and idempotency key |
| `CommandSafety.CallsAgree` | kernel/src/executor.ts:110-123 | two calls under one scope that both return have returned the same transaction, for the same input and version |
| `CommandSafety.LosingRacerGetsWinner` | kernel/src/executor.ts:163-171 | a racer that finds its scope taken under the lock settles on the winner's transaction, whatever others do before its rescan |
| `LogHealth.LosingRacerReturnsWinner` | kernel/src/executor.ts:163-173 | to its end: it returns the winner's transaction if and only if the materializing scan, which is not atomic, is a complete log |
| `CommandSafety.RetryReplays` | kernel/src/executor.ts:110-123 | once a scope is published a later call with the same input only replays |
| `LogHealth.LogHealthExactly` | project/src/projection.ts:38-56 | in every reachable state the log is complete if and only if no two transactions claim one command or event id |
| `LogHealth.WedgedForever` | kernel/src/executor.ts:125-131 | once two do, nothing is ever published again and no call begun afterwards ever returns |
| `LogHealth.LogStaysComplete` | kernel/src/executor.ts:125-131 | if a command id is never used under a second scope and event ids are fresh per call, the log stays complete for ever |
| `LogHealth.PublishesWhateverItsCommandId` | kernel/src/executor.ts:153-162 | a lone call always publishes, and succeeds if and only if its command and event ids are new |
| `LogHealth.ReusedCommandId` | kernel/src/executor.ts:153-162 | from an empty log, two lone calls with one command id: both publish and the log is incomplete |
| `LogHealth.RecoveryReturnsTheCommand` | kernel/src/executor.ts:184-218 | in a healthy log recovery takes up the published command whatever its scan sees, and returns it if and only if the last scan is a complete log |
| `CommandBuild.MonotonicClock.Next` | kernel/src/executor.ts:862-869 | each stamp is later than the last, at least the reading |
| `CommandBuild.MonotonicClock.constructor` | kernel/src/executor.ts:862-863 | the clock starts before every instant it can hand out |
| `CommandBuild.BuildTransaction` | kernel/src/executor.ts:220-306 | the transaction assembled from the plan, or the builder's refusal |
| `CommandReadBack.CommittedIsLast` | kernel/src/executor.ts:263-268 | accepted before executing before committed, and everything planned before committed, for any clock |
| `CommandReadBack.TimesFitExactly` | protocol/src/project-transactions.ts:154-163 | only effect times and the last stamp can be outside the four-digit years |
| `CommandReadBack.BuildFailsExactly` | kernel/src/executor.ts:220-306 | an accepted plan fails to build if and only if an event id repeats or such a time is out of range |
| `CommandReadBack.SelectAssembled` | kernel/src/executor.ts:294-305 | each kind of event is read back from exactly where it was put |
| `CommandReadBack.BuiltLifecycleReadsBack` | kernel/src/executor.ts:569-626 | the lifecycle read back is the one built |
| `CommandReadBack.BuiltEffectsReadBack` | kernel/src/executor.ts:628-645 | so are the effects, in order |
| `CommandReadBack.BuildReadBackAgree` | kernel/src/executor.ts:569-645 | the lifecycle is in strict time order and its effect count is that of the effects read |
| `CommandReadBack.NormalExactly` | kernel/src/executor.ts:526-567 | a plan is accepted, unchanged, if and only if its events are its own kinds, keys and ids of effects differ, and a repair receipt is there for repairs only and is the request's own; each refusal has its own condition |
| `CommandReadBack.EffectsKeepTheirMeaning` | kernel/src/executor.ts:248-257 | the effects read back say what the plan said, field by field, required or not included |
| `CommandReadBack.TransactionSaysAll` | kernel/src/executor.ts:220-306 | the transaction is the request's, holds the plan's events, effects and repair receipt in order, and counts the required effects |
| `CommandReadBack.LifecycleReadExactly` | kernel/src/executor.ts:569-626 | a lifecycle is read from a transaction if and only if it holds one event of each kind, about its own command, in strict time order, that agree with its fields |
| `CommandReadBack.EffectsReadExactly` | kernel/src/executor.ts:628-645 | effects are read if and only if every declaration agrees with the event that carries it and no two are under one key |
| `CommandReadBack.CheckedExactly` | protocol/src/project-transactions.ts:87-129 | what the builder insists on of any transaction, and that it changes nothing of it |
| `CommandOutcome.Outbox.Dispatch` | kernel/src/types.ts:134-141 | a key answered once is answered with the same receipt |
| `CommandOutcome.DispatchAll` | kernel/src/executor.ts:326-348 | deliveries, pending effects and failures collected over all effects, or a death after some of them |
| `OutcomeRuns.CompletedExactly` | kernel/src/executor.ts:357-367 | completed if and only if every required effect was delivered, if and only if the two counts are equal |
| `OutcomeRuns.OutcomeExactly` | kernel/src/executor.ts:357-367 | needs repair if and only if a required effect failed for good or was dead-lettered; effects pending if and only if none was and one is unanswered; completed otherwise |
| `OutcomeRuns.ResponseExactly` | kernel/src/executor.ts:329-348 | how each effect is answered, told by the receipt the outbox holds and by how the transport behaved |
| `OutcomeRuns.OutcomeOfOutside` | kernel/src/executor.ts:326-367 | the outcome of one materialization, told by what the outbox knew and how the transport behaved |
| `OutcomeRuns.EffectsHappenAtMostOnce` | kernel/src/executor.ts:329-348 | over crashes and retries no effect is carried out twice and no receipt changes |
| `OutcomeRuns.CompletedIsAbsorbing` | kernel/src/executor.ts:308-434 | once completed, always completed, with the same receipts, each required effect carried out exactly once |
| `CrashMachine.RunRefines` | project/src/store.ts:25-78 | staging, link, directory flush, cleaning up, projection and delivery add no behaviour to the executors: every run of these acts is one of theirs |
| `CrashInvariant.ActKeeps` | kernel/src/executor.ts:93-182 | every act of every call keeps what is true of disk and outbox at the boundary each call stands at |
| `CrashTable.TableIsExact` | kernel/src/recovery-proof.ts:35-52 | in every reachable state, at every boundary of an execution nobody interfered with, the four columns of the row hold, and a crash there changes none of them; except, exactly, the last row for a command without effects |
| `CrashTable.RowsBeforeLinkExactly` | kernel/src/recovery-proof.ts:36-43 | whatever others did, a row before the link holds if and only if the scope is unpublished and, where the row says nothing started, no staging file of the command is left |
| `CrashTable.StagingStays` | project/src/store.ts:197-207 | what a dead process has staged stays until its very bytes have been published |
| `CrashTable.LaterExecutionsFindStaging` | kernel/src/recovery-proof.ts:36-40 | after a crash at a staging row every later execution of the command finds staging where its rows say not started |
| `CrashTable.CrashesAreSafe` | kernel/src/recovery-proof.ts:35-52 | over every run of crashes and restarts: one transaction per scope, no effect twice, none that no published command declares, no receipt changed |
| `CrashRestart.RestartsAsTheTableSays` | kernel/src/recovery-proof.ts:35-52 | a call that dies at any boundary and is restarted as its row says, on that disk and outbox, comes to its end: exactly one transaction in the scope, all of its effects offered, none carried out twice |
| `CrashRestart.ReplaysIt` | kernel/src/executor.ts:110-123 | executing again where the table asks for a recovery replays the published transaction: no file is added |
| `CrashRestart.CompletedOnce` | kernel/src/executor.ts:349-367 | if the restart's outcome is completed each required effect was carried out exactly once |
| `CrashRestart.RecoveryLeavesUnconfirmed` | kernel/src/executor.ts:184-218 | a command that died between link and directory flush is still unconfirmed on disk after a recovery has delivered everything |
| `CrashRestart.AcceptedPlansAreReadable` | kernel/src/executor.ts:220-306 | the transaction of an accepted plan reads back, so a restart can deliver its effects |
| `WorkLifecycle.ReduceWorkProjection` | project/src/work.ts:32-90 | the reducer's loop: the state after all events, or the first refusal |
| `WorkSafety.OpenApplies` | kernel/src/work.ts:119-167 | the reducer accepts an opening; what it changes |
| `WorkSafety.FinishApplies` | kernel/src/work.ts:169-230 | the reducer accepts every planned finish; what it changes (who may finish, and when: `WorkAnswers.FinishRefusedExactly`) |
| `WorkSafety.ExpiryApplies` | kernel/src/work.ts:232-253 | the reducer accepts an expiry; what it changes |
| `WorkSafety.CorrectionApplies` | kernel/src/work.ts:255-304 | the reducer accepts a correction; what it changes |
| `WorkSafety.PlannedEventsApply` | project/src/work.ts:32-90 | every event list planned from a state is accepted in that state |
| `WorkAnswers.OpenRefusedExactly` | kernel/src/work.ts:119-129 | an opening is planned if and only if all it names is new, its target is free and its lease ends later than now; each refusal exactly |
| `WorkAnswers.FinishRefusedExactly` | kernel/src/work.ts:169-182 | finishing is planned if and only if intent, episode and lease belong together and are active, claim and receipt are new, and the asking principal holds the lease; each refusal exactly |
| `WorkAnswers.ExpiryRefusedExactly` | kernel/src/work.ts:232-239 | an expiry is planned if and only if the lease is active and had run out by the observed time, and the receipt is new; each refusal exactly |
| `WorkAnswers.CorrectionRefusedExactly` | kernel/src/work.ts:255-272 | a correction is planned if and only if the pair has ended with the very events it names, its target is free, and all it adds is new; each refusal exactly |
| `WorkAnswers.TakesEffectExactly` | kernel/src/work.ts:119-304 | a command changes the state if and only if these conditions hold, and then leaves exactly the records described, field by field, and nothing else |
| `WorkAnswers.OnlyHolderReleases` | kernel/src/work.ts:179-182 | in any state: an active lease is released only by its holder's finish, expires only by an expiry not before its end, and is never revoked |
| `WorkAnswers.ClosedRightfully` | kernel/src/work.ts:169-253 | over any run: a lease that is no longer active was closed by one command of the run that had the right to |
| `WorkAnswers.HolderMismatchIsRefused` | kernel/src/work.ts:181 | a concrete lease that another principal cannot finish and its holder can |
| `WorkAnswers.LifecyclesAreKept` | project/src/work.ts:129-219 | for any accepted event: what has ended comes back only by a correction of the event it ended with, what is added refers only to what is there, and a receipt is of the command that carries it |
| `WorkAnswers.LifecyclesAreOpen` | project/src/work.ts:134-172 | a transition is accepted if and only if it is an edge of the lifecycle from the present state, a correction if and only if it names the last event of what has ended |
| `WorkSafety.OpenKeepsSafe` | kernel/src/work.ts:119-167 | opening keeps lease and pair safety |
| `WorkSafety.FinishKeepsSafe` | kernel/src/work.ts:169-230 | finishing does |
| `WorkSafety.ExpiryKeepsSafe` | kernel/src/work.ts:232-253 | expiring does |
| `WorkSafety.CorrectionKeepsSafe` | kernel/src/work.ts:255-304 | correcting does |
| `WorkSafety.WorkIsAlwaysSafe` | kernel/src/work.ts:119-304 | over every run: the whole log reduces without refusal to the last state, with one active lease per target and per episode, leases only on active pairs, intent and episode always in one phase |
| `WorkSafety.StrandedForever` | kernel/src/work.ts:169-304 | an active pair without an active lease stays so over every later run |
| `WorkSafety.ExpiryStrandsItsPair` | kernel/src/work.ts:232-253 | expiring a lease strands its pair: it is never finished, corrected or leased again |
| `WorkSafety.PairsLeasedExactly` | kernel/src/work.ts:119-304 | over every run from an empty project: every active pair has an active lease at the end if and only if no expiry took effect |
| `WorkSafety.OpenThenExpire` | kernel/src/work.ts:232-253 | a concrete opening and expiry that leave the pair active without a lease |
| `WorkSafety.ReducerGuardsTargets` | project/src/work.ts:201-219 | for any accepted log: one active lease per target, leases keep their record and never come back |
| `WorkSafety.NoEarlyExpiry` | project/src/work.ts:211-219 | for any accepted log: a lease reported expired had run out by the reported time |
| `WorkSafety.ReplayMatches` | project/src/work.ts:32-90 | reducing from the start equals applying command by command |
| `Migration.FreezeProjects` | migration/src/contract.ts:236-251 | repeated projects are refused, with the set of those seen |
| `Migration.MergeStaged` | migration/src/executor.ts:500-508 | the merge of all staged projects, or the refusal of a disagreement |
| `MigrationSafety.CanonicalExactly` | migration/src/executor.ts:510-520 | a project list is accepted if and only if no project occurs twice, and then says of each what the list said |
| `MigrationSafety.TerminalTotals` | migration/src/contract.ts:221-234 | aggregated totals are conserved, and are a valid count if and only if they do not pass 2^53 - 1 |
| `MigrationRuns.TerminalTotalsAreSums` | migration/src/contract.ts:221-234 | records, imported, quarantined and unresolved of the terminal receipt are, each by itself, the sum of what the adapter reported per source |
| `MigrationRuns.KeyNamesTheWork` | migration/src/executor.ts:556-563 | with a collision-free hash an idempotency key names one migration, phase, place and source |
| `MigrationRuns.ReceiptTimes` | migration/src/executor.ts:244-357 | a receipt is dated when a phase is committed, and carried on unchanged in between |
| `MigrationSafety.OversizedIsRefused` | migration/src/contract.ts:221-234 | two sources of 2^53 - 1 records, staged and verified in full: the terminal commit is refused at any time |
| `MigrationSafety.MergeExactly` | migration/src/executor.ts:500-508 | merging succeeds if and only if no two sources disagree about a project, and is then their union |
| `MigrationSafety.StageSourceKeeps` | migration/src/executor.ts:288-302 | staging a source succeeds if and only if its adapter delivers a valid result |
| `MigrationSafety.StageCommitKeeps` | migration/src/executor.ts:303-316 | committing the stage succeeds if and only if the projects agree and the clock is canonical |
| `MigrationSafety.VerifySourceKeeps` | migration/src/executor.ts:324-342 | verifying a source succeeds if and only if its reconciliation is the staged one |
| `MigrationSafety.VerifyCommitKeeps` | migration/src/executor.ts:343-356 | the terminal commit succeeds if and only if the totals are a valid count and the clock is canonical |
| `MigrationSafety.StepExactly` | migration/src/executor.ts:244-357 | from a reachable checkpoint a step succeeds if and only if the outside delivers: no step builds what its own validator refuses |
| `MigrationSafety.CompletableCanStep` | migration/src/executor.ts:63-72 | a completable migration can always take its next step |
| `MigrationSafety.CompleteWasCompletable` | migration/src/executor.ts:343-356 | a complete one was completable, and its terminal receipt accounts for every record |
| `MigrationRuns.PhaseEndsExactly` | migration/src/executor.ts:163-357 | reachable or not, an accepted checkpoint to which the outside delivers comes to the end of its phase if and only if it has not begun the lists of a later phase |
| `MigrationRuns.ValidatorAdmitsDeadEnds` | migration/src/executor.ts:163-232 | two concrete accepted checkpoints, staged too early and verified too early, that cannot advance though everything is delivered |
| `MigrationRuns.JournalIsReachable` | migration/src/executor.ts:394-405 | every checkpoint written stands at the revision of its place and names the one before |
| `MigrationRuns.JournalIsBounded` | migration/src/executor.ts:63-72 | never two checkpoints of one revision; complete exactly at revision 3n + 4 |
| `MigrationRuns.JournalsAgree` | migration/src/executor.ts:49-73 | resume equivalence: however two migrations were interrupted, checkpoint for checkpoint they agree up to time, and entirely under the same times |
| `MigrationRuns.FinishedWasCompletable` | migration/src/executor.ts:343-356 | a finished journal was completable and accounts for every record |
| `RevisionChain.SortedChain` | migration/src/executor.ts:109-124 | sorted by revision, the files of a chain are the chain |
| `RevisionChain.ForkIsNoChain` | migration/src/executor.ts:112-114 | two records of one revision are never part of a chain |
| `RevisionChain.SortedSorts` | migration/src/executor.ts:109 | the sort keeps all records and orders them by revision |
| `CheckpointReader.Collect` | migration/src/executor.ts:88-107 | all entries valid, or the directory is refused |
| `CheckpointReader.Walk` | migration/src/executor.ts:110-125 | the loop over sorted checkpoints succeeds if and only if they are one chain, and returns its last; the first that breaks it is a conflict if and only if it repeats a revision |
| `CheckpointReader.Read` | migration/src/executor.ts:75-126 | reading succeeds if and only if every entry is sound and the checkpoints are one chain; it returns exactly the tip, or says which of the two errors it is |
| `CheckpointReader.ListingOrderIsImmaterial` | migration/src/executor.ts:89-109 | the listing order decides nothing |
| `CheckpointReader.ForkIsForever` | migration/src/executor.ts:112-114 | after two contents for one revision no later read ever succeeds |
| `CheckpointReader.ConcurrentStepsAgreeExactly` | migration/src/executor.ts:49-73 | two executors that read the same tip, or both found an empty directory, write the same file if and only if it carries an unchanged receipt or their clocks agree |
| `MigrationExecutor.ShadowMigration.ReadTip` | migration/src/executor.ts:53 | the reader finds the last checkpoint of what this executor wrote |
| `MigrationExecutor.ShadowMigration.Continue` | migration/src/executor.ts:63-72 | the loop, interrupted after any number of writes: it ends complete, or has written exactly its budget, or was stopped from outside; every checkpoint written saw the admitted corpus, after an adapter's work too; and it stops for changed sources if and only if the next step observes another corpus |
| `MigrationExecutor.ShadowMigration.Execute` | migration/src/executor.ts:49-73 | a finished run stands at 3n + 4 and accounts for every record; another corpus changes nothing; in a favourable world nothing but an interruption stops it; whatever is written, the corpus was observed unchanged; and changed sources are reported if and only if another corpus was offered or observed |
| `MigrationExecutor.JournalIsReadable` | migration/src/executor.ts:75-126 | everything a sequential executor writes stays readable |
| `MigrationExecutor.FavourableNeverStops` | migration/src/executor.ts:63-72 | with nothing in the way an unfinished journal always gets its next checkpoint |
| `MigrationExecutor.AdapterWorksExactly` | migration/src/executor.ts:284-374 | the steps with a second look at the corpus are exactly those in which an adapter that always throws is noticed; no other step depends on the adapters |
| `MigrationExecutor.StepNeverDrifts` | migration/src/executor.ts:244-357 | no step of its own accord says that the sources have changed |
| `ContinuityAck.CreatedTokenIsAccepted` | cli/src/continuity-ack.ts:89-133 | a page offers a token if and only if it is complete, acknowledgeable and well-timed, and its payload is valid if and only if its identifiers are well-formed |
| `ContinuityAck.DecodedExactly` | cli/src/continuity-ack.ts:213-239 | a token text is decoded if and only if its payload is that of a valid token and its checksum follows, with an empty third part or none |
| `ContinuityAck.OfferedTextIsDecoded` | cli/src/continuity-ack.ts:115-133 | the text a page offers is decoded to just the token of that page |
| `ContinuityAck.ChangedTextIsRefused` | cli/src/continuity-ack.ts:215-216 | a payload with any other checksum is refused |
| `ContinuityAck.TextIsNotUnique` | cli/src/continuity-ack.ts:215-216 | a further full stop, and anything behind yet another, leaves a text good for its page |
| `ContinuityAck.ContinuityStore.Acknowledge` | cli/src/continuity-ack.ts:135-204 | one attempt, dying after the presence call or not: the files and the answer are those specified; each answer is given if and only if its condition on token, agent and disk holds, and what is then on disk is said field by field |
| `ContinuityAck.AnswersExactly` | cli/src/continuity-ack.ts:135-204 | wrong agent if and only if the token is valid and names another; incomplete page, watermark conflict, untrusted state, failed presence and success likewise; every success, replays included, is of this agent's page |
| `ContinuityAck.PageIdBindsIdentity` | cli/src/continuity-ack.ts:231-232 | with any part of its identity changed a token is refused |
| `ContinuityRuns.EffectsAreOwn` | cli/src/continuity-ack.ts:140-148 | over any run on any disk, what took effect was attempted and was a valid, complete, acknowledgeable page of this very agent |
| `ContinuityRuns.OthersNeverCommit` | cli/src/continuity-ack.ts:142-144 | any number of attempts with other agents' pages change nothing |
| `ContinuityRuns.WrongAgentIsRefused` | cli/src/continuity-ack.ts:142-144 | a concrete valid page that its agent can acknowledge and another cannot |
| `ContinuityRuns.WriterSatisfiesParserExactly` | cli/src/continuity-ack.ts:183-192 | the parser accepts what is written if and only if the counter had room and the clock was well-formed |
| `ContinuityRuns.YearTenThousand` | cli/src/continuity-ack.ts:401-403 | a concrete acknowledgement on a clock in the year 10000, never read again |
| `ContinuityRuns.FullCounter` | cli/src/continuity-ack.ts:183-192 | a concrete acknowledgement on a full counter, never read again |
| `ContinuityRuns.UnreadableForever` | cli/src/continuity-ack.ts:255-289 | an unparsable state file blocks every later attempt |
| `ContinuityRuns.RunIsRecorded` | cli/src/continuity-ack.ts:149-204 | over any run: the counter, the last 128 pages and the watermark are those of the pages that took effect, which form a chain of watermarks |
| `ContinuityRuns.RetainedTokenReplays` | cli/src/continuity-ack.ts:152-164 | a retained token is acknowledged again without presence and without a write |
| `ContinuityRuns.AtMostOnce` | cli/src/continuity-ack.ts:152-172 | if every page strictly advances the watermark, no token takes effect twice over unbounded runs |
| `ContinuityRuns.TakesEffectAgainExactly` | cli/src/continuity-ack.ts:152-182 | over any run, a page that last took effect k pages ago takes effect again if and only if k exceeds 128 and the committed watermark is where the page starts |
| `ContinuityRuns.EvictedPageTakesEffectAgain` | cli/src/continuity-ack.ts:179-182 | without strict advance a page evicted from the history takes effect a second time |
| `ContinuityRuns.OneHundredAndThirtieth` | cli/src/continuity-ack.ts:179-182 | 129 concrete pages and the first of them again: it takes effect twice |
| `ContinuityRuns.PresenceIsAccountedFor` | cli/src/continuity-ack.ts:174-192 | presence is called once per page that took effect and once per death before the write, never otherwise |
| `ContinuityRuns.WatermarksAgreeExactly` | cli/src/continuity-ack.ts:166-167 | the two readings of the watermark differ if and only if the state file holds none while the older file does |
| `ContinuityRuns.WatermarksAlwaysAgree` | cli/src/continuity-ack.ts:166-167 | no acknowledgement ever writes such a state |
| `JsonText.EscapeIsPrefixFree` | id/src/audit.ts:30-31 | no escape begins another, unpaired surrogates included |
| `JsonText.InsideIsPrefixFree` | id/src/audit.ts:30-31 | a string literal determines its text and where it ends |
| `JsonText.DecimalIsPrefixFree` | id/src/audit.ts:24-29 | a printed integer determines its value and where it ends |
| `KeyOrder.SortForgetsOrder` | id/src/audit.ts:38 | sorting keys by code unit forgets the order they were given in |
| `KeyOrder.AscendingIsUnique` | id/src/audit.ts:38 | there is only one ascending list of given entries |
| `CanonicalJson.PrintIsPrefixFree` | id/src/audit.ts:22-49 | a printed value, followed by anything that can follow one, determines its own text |
| `CanonicalJson.PrintDeterminesMeaning` | id/src/audit.ts:22-49 | values that print alike mean the same |
| `CanonicalJson.MeaningDeterminesPrint` | id/src/audit.ts:22-49 | values that mean the same print alike, in whatever key order |
| `CanonicalJson.PrintsAlikeExactly` | id/src/audit.ts:22-49 | two values print alike if and only if they mean the same JSON |
| `CanonicalJson.HashIdentifiesMeaning` | id/src/audit.ts:51-53 | with a collision-free hash, equal hashes mean equal passports |
| `CanonicalJson.EscapesAsWritten` | id/src/audit.ts:30-31 | every kind of escape, letter for letter |
| `CanonicalJson.ScalarsAsWritten` | id/src/audit.ts:23-31 | the literals and some integers, letter for letter |
| `CanonicalJson.ListsAsWritten` | id/src/audit.ts:33-35 | lists of none, one and two values, whatever these print as |
| `CanonicalJson.RecordsAsWritten` | id/src/audit.ts:36-47 | an object with its keys out of order and one field undefined, whatever the others print as |
| `JsonComments.SkipLine` | cli/src/clients.ts:362-366 | the inner loop skips to just behind the line break |
| `JsonComments.SkipBlock` | cli/src/clients.ts:368-373 | the inner loop skips to just behind the closing mark, or to the end |
| `JsonComments.StripJsonComments` | cli/src/clients.ts:332-379 | the loop computes the automaton's output |
| `JsonComments.StripIsUncommenting` | cli/src/clients.ts:332-379 | stripping is reading the tokens, dropping the comments and writing the rest back |
| `JsonComments.TokensOfStripped` | cli/src/clients.ts:332-379 | every literal stays verbatim, every other character in place, and no comment opener remains outside a literal |
| `JsonComments.StrippingTwice` | cli/src/clients.ts:332-379 | stripping again changes nothing |
| `JsonComments.IdentityExactly` | cli/src/clients.ts:332-379 | stripping is the identity on exactly the texts without comments |
| `TomlSection.FindHeader` | cli/src/clients.ts:405 | the first line that is the header, spaces aside, or none |
| `TomlSection.SectionEnd` | cli/src/clients.ts:414-420 | the next line that opens a section, or the end |
| `TomlSection.FirstOf` | cli/src/clients.ts:426-432 | the first line that assigns the key, or none |
| `TomlSection.AppendSection` | cli/src/clients.ts:406-412 | without the header: trailing blank lines go, one blank line, the header and the assignments are added |
| `TomlSection.PutOne` | cli/src/clients.ts:426-436 | one assignment replaces the first of its key or is spliced in at the end; the parts before and after stay |
| `TomlSection.UpsertTomlSection` | cli/src/clients.ts:404-439 | the splicing loop computes the specified file |
| `TomlRuns.OneKeyPerLine` | cli/src/clients.ts:427 | no line assigns two keys, one of them a prefix of the other or not |
| `TomlRuns.UpsertInPlace` | cli/src/clients.ts:404-439 | outside the section the file stays line for line |
| `TomlRuns.PutAllKeepsOthers` | cli/src/clients.ts:422-437 | inside it, apart from the first assignment of each key, the lines stay in order |
| `TomlRuns.UpsertAtEnd` | cli/src/clients.ts:406-412 | a new section comes after all lines but trailing blank ones |
| `TomlRuns.UpsertSets` | cli/src/clients.ts:404-439 | afterwards the first assignment of each key is the given one, and doing it again changes nothing |
| `TomlRuns.UpsertKeepsOthers` | cli/src/clients.ts:404-439 | the section's other lines are all still there, in order |
| `TomlServer.UpsertKeepsOther` | cli/src/clients.ts:246-252 | setting one section leaves another one set |
| `TomlServer.WrittenLines` | cli/src/clients.ts:253 | the text written consists of exactly the lines computed, with one line break at the end |
| `TomlServer.RegisteringTwice` | cli/src/clients.ts:242-254 | for single-line values both sections are set and registering again writes the same text |
| `TomlServer.SectionsAreProper` | cli/src/clients.ts:244-252 | the three assignments written are found by their own keys, under two different headers |
| `TomlServer.ServerRegisteredTwice` | cli/src/clients.ts:242-254 | registering a server whose values hold no line break twice is registering it once |
| `TomlOthers.UpsertStripped` | cli/src/clients.ts:404-439 | without what it assigns, setting a section has added a missing header after one blank line, and otherwise nothing |
| `TomlOthers.RegisteringKeepsOthers` | cli/src/clients.ts:242-254 | apart from the first assignment of each written key and trailing blank lines, the new text is the old one line for line, followed only by missing headers in order and blank lines |
| `TomlOthers.ServerKeepsOthers` | cli/src/clients.ts:242-254 | the same for the three keys of a registered server |
| `TomlServer.UpsertTomlServer` | cli/src/clients.ts:242-254 | the registration computes that text |

## Left out

- File-system detail below one atomic step: flushing to disk, torn appends, staging file names, path resolution, file modes.
- SHA-256, UUIDs, base64 decoding, JSON parsing and schema checks of field shapes: identifiers and digests are plain values, and texts that only have to be non-empty are not modelled.
- Command ids containing unpaired surrogates: a command id is its UTF-8 bytes, and two such ids can share them.
- project/src/commit.ts:101-226: the protocol of the writer lock, which is taken as a mutual exclusion that a dead holder's successor may break.
- kernel/src/executor.ts:93-182: execution is modelled as the steps of a state machine rather than as a method, because other executors act between any two of them; authorization, validation and planning are an arbitrary fault or an arbitrary event list.
- kernel/src/executor.ts:460-524: the audit trail and the commit receipt assembled after the outcome, and the check of the repair journal in line 151.
- project/src/work.ts:129-219: the maps the reducer updates in place are values here, so aliasing between records is not captured.
- project/src/work.ts:92-114: receipt queries, which filter one list.
- kernel/src/work.ts:209-222: the handoff effect of finishing, which is an ordinary effect of the outcome model.
- Command definitions other than the four native ones: they may emit any event, and for those only what the reducer alone guarantees is proved.
- migration/src/executor.ts:586-595: fault hooks appear as a budget of writes; a fault before and one after a step that writes nothing are the same.
- migration/src/contract.ts:36-45: the order of sources by locale and the file and byte totals of a corpus.
- migration/src/view-history.ts, migration/src/coordination.ts and migration/src/compatibility.ts: classification record by record.
- cli/src/continuity-ack.ts:318-395: the acknowledgement's lock is the protocol of `FileLock`; its waiting time is not modelled.
- cli/src/continuity-ack.ts:68-71: two agents whose names share one file name.
- Numbers that are not integers, and integers that JSON prints with an exponent, in the canonical printing.
- protocol/src/canonical-json.ts: the second canonical printer, which differs only in what it refuses.
- cli/src/clients.ts:215-240 and 381-402: merging a server into a JSON file.
- kernel/src/executor.ts:336-346: a crash inside a dispatch is one after it, or one before it when the outbox was not reached.
- The table has one row for `before_effect` and one for `after_effect`; for a command with several effects each is read effect by effect, and speaks of that one.
- The table's rows as passed by a recovery or a replay: they are stated for executions, which is what the table is published for.
- The ranking and rendering of boot and continuity pages, routing, the observer, and everything that talks to a network or to git.
