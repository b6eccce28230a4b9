# A model of Plus One's durable state

Plus One keeps a household's books and memory. What it promises is about money and durable state
surviving crashes, retries and concurrency. This Dafny project models those parts of the repository
and proves what they promise for all inputs, all runs or all reachable states. `dafny verify
dfyconfig.toml` checks all of it.

**Checked mutations.** `MutationProtocol` is a step system: any number of executors of one command,
cancellations and other writers of its task, crashes before any step, replies that are lost, and a
COMMIT that may still be carried out after its client is gone. Each awaited call is one step, with
the statements of the database package behind it (`mutation-command-repository.ts`,
`domain-command-bridge.ts`, `verification-ledger.ts`; migration `0005_checked_mutations.sql`).
`MutationSafety` proves its invariant, `MutationRuns` the promises over whole runs, and
`MutationCompletion` that a lone executor finishes what any run left behind; `MutationErrors` says
what an executor does when a call fails.
`CommandStateResolver` and `SerializableRunner` are the two loops themselves, as methods over a
database that others change between the calls. `Readback` and `TaskStateMachine` are the pure rules
below them.

**Working Memory.** `WorkingMemoryDocument` holds the mutations on values (`Resolve`, `Apply`,
`VerifyReadback`, `EffectIsPresent`), `Json` the canonical form they compare by. `ResourceMutex` is
the promise-chain mutex, specified by a queue for each resource. `MemorySession` runs the operations
under it, cut at every await, so that the methods of different calls alternate in any way the mutex
allows; `MemoryCalls` says what one call comes to when it is alone. `ConversationRouter` is the
confirmation router as a step system over one proposal, with `ConversationSafety` and
`ConversationRuns` for what every step keeps and what holds over runs, `ConversationTurns` for what
one message does when nobody interferes, `ConversationTruth` for when the recorded status is true,
and `ConversationLimits` for the runs in which it is not. `WorkingMemoryReview` specifies the review
over the set of visible entries, `ReviewFindings` says what each finding means for the entries it
names, and `WorkingMemoryReviewer` proves the loops against the specification. `Ulid` is the
identifier generator.

**Money.** `Decimal` is the arithmetic on decimal strings. `Ledger` and `Projections` state the
balance tables as folds over all postings; `ProjectionTables` is the tables with their operations;
`Reversals` covers corrections and the trial balance.

**Dates and follow-ups.** `Calendar` and `AccountingPeriods` model local dates over the day
arithmetic of sections 21.4.1 and 21.4.3.4 of ECMA-262, month bounds and the periods table.
`Budgeting` models which retained facts a follow-up may change.

## What the proofs found

Where a promise is false of the code, the code is modelled as it is, with a run or an input that
shows it and the exact condition under which it holds.

- After `markExecutionPending` the resolver returns the record it reads again without reconciling it
  (`command-state-resolver.ts`, line 56). If another executor commits in between, the first one
  records its read-back while the task is still `execution_pending`: a pair outside the resolver's
  table, which no later execution repairs (`StrandingHappens`, `StrandedForever`). A step leaves the
  table if and only if it records a read-back at that task status (`LeavesTableIff`); runs in which
  the second read never returns a record past `execution_pending` stay inside (`OrderlyStaysInTable`).
- Of the serialization failures within an attempt the runner retries, while attempts are left,
  exactly those raised by BEGIN, by the timeout settings, by the ROLLBACK or the receipt lookup for
  a command that is already committed, or by a handler that passes them on (`RetriedIff`, over the
  attempts of `Run`); another attempt follows unless the time is up or no connection is to be
  had. One raised by the claim or the bridge arrives normalized, as does one of a
  journal posting (`journal-posting-service.ts`, line 98); one raised by the receipt lookup of the
  catch block leaves it at once. A claim that meets contention therefore ends the run at its first
  attempt with an error that asks for no receipt lookup, and the executor marks the command as
  failed, which is final (`ContendedClaimIsFinal`, `ContendedClaimLosesTheCommand`, `FailedIsFinal`).
- The confirmation router changes the document at most once for each time the base revision was
  there; a writer that restores the base document makes a second change possible
  (`ChangesAtMostOncePerBase`, `RestoredBaseIsChangedTwice`).
- "No change without a recorded approval" needs an engine clock that is not behind the database's:
  it holds for every run then, and for every clock that is behind there is a run that breaks it
  (`NoChangeWithoutApproval`, `SlowClockChangesAgainstRejection`), and one that records `applied`
  beside a rejection (`AppliedWasApproved`, `AppliedThoughRejected`). The expired path resolves
  without a claim and relies on the second expiry check. All other evidence on the row, and the
  agreement of all handlers on the response, do not depend on the clocks (`RunKeepsInv`,
  `RunIsStable`, `FinishersAgree`).
- The recorded status tells whether the change was made under six rules: the engine's clock is not
  behind the database's, the proposal does not replace an entry by the content it has, no two
  handlers are past the claim at once, no other writer undoes the change before a result is
  recorded, a write that lands is reported, and recovery can read the document. In every run that
  obeys them `stale`, `failed` and `rejected` mean that nothing was changed, and a change that was
  made is recorded as `expired` exactly if an expiry check came upon it first and as `applied`
  otherwise (`StatusTellsOfTheChange`, `LateChecks`). None of the rules can be left out: for each
  there is a run that breaks no other one and whose row denies a change that was made
  (`EveryRuleIsNeeded`). That an effect recorded as `applied` was in the stored document at some
  moment holds in every run, whatever the clocks say (`AppliedWasPresent`).
- `clear` erases the entries of other members (`OnlyClearTouchesOthers`).
- The rebuild guards the native column by currency and the writer guards the reporting column: for
  accounts in another currency a rebuild exchanges the two, and the drift check then reports exactly
  those with a balance (`RebuildAgainstIncremental`, `RebuildDriftsOnForeignAccounts`). Later
  postings neither heal nor worsen this (`UpsertKeepsErrors`, `ErrorsOfRebuilt`).
- Closing a day after a later-dated posting leaves that account out of the day's balances and net
  worth, and both daily checks still report nothing (`ClosedNetWorthMissesTheOmitted`,
  `Tables.FinalizeDay`).
- The age order of duplicates is strict and total exactly if no entry without a lifecycle has an
  identifier between those of two entries with one of which the one with the smaller identifier was
  created later. Decoded documents satisfy this, since all their entries have a lifecycle
  (`AgeOrdersIff`, `AgeOrders`, `AgeMayGoRound`).

## Model

| member | source | states |
|---|---|---|
| TaskStateMachine.TransitionIff | packages/runtime/src/state-machine.ts:3-43 | the whole table as a law: stage by stage until checked, then a decision, a revision back to the maker, one way to succeed and one to fail for each step of execution, and giving up exactly while open and not executing |
| TaskStateMachine.TerminalIffNoSuccessor | packages/runtime/src/state-machine.ts:3-60 | the table of transitions and the set of terminal statuses agree: a status is terminal exactly when nothing follows it |
| TaskStateMachine.CommitIsPrecededByMakerAndChecker | packages/runtime/src/state-machine.ts:3-43 | every history from `created` to `committed` ends with maker, validation, checker, acceptance, execution, commit, in that order |
| TaskStateMachine.LaneOnlyAdvances | packages/runtime/src/state-machine.ts:19-22 | from `execution_pending` on, a task only moves forward and ends verified or failed |
| Readback.ObservedIsSound | packages/mutations/src/checked-mutation-executor.ts:220-287 | whatever the handler answers, what is recorded satisfies the read-back schema, and an ok result shows every required check and the receipt check as passed |
| Readback.FailureNamesTheRequired | packages/mutations/src/checked-mutation-executor.ts:289-318 | a read-back that threw is recorded with every kind once: the required ones as failed for that reason, the others as not applicable |
| Readback.ObservedOkIff | packages/mutations/src/checked-mutation-executor.ts:220-318 | ok exactly when the handler answered without mismatches, reported each kind once and none as failed, the receipt carries the command's identity and every required kind passed |
| Readback.RequiredFailuresEmptyIff | packages/mutations/src/checked-mutation-executor.ts:276-287 | no required failure is reported exactly when the first report of every required kind is a pass |
| Readback.FailuresNameTheMissing | packages/mutations/src/checked-mutation-executor.ts:276-287 | the mismatches name exactly the required kinds whose first report is missing or not a pass |
| MutationRuns.EffectAtMostOnce | packages/mutations/src/checked-mutation-executor.ts:74-153 | over any interleaving of executors, crashes, in-doubt commits and cancellations: at most one effect, a receipt exactly when there is one, with the command's identity, never beside `execution_failed`; and the pair of statuses stays in the joint relation |
| MutationRuns.RunNeverGoesBack | packages/mutations/src/command-state-resolver.ts:47-98 | between any two points of a run the command only develops, receipt and read-back stay as written, and a task in the mutation lane only moves forward |
| MutationRuns.ReturnedIsVerified | packages/mutations/src/checked-mutation-executor.ts:154-182 | `execute` returns only with a stored receipt of the caller's own command and a stored, accepting read-back, both equal to what it returns |
| MutationRuns.CancelledNeverCommits | apps/engine/src/accounting/chart-mutation-runtime.ts:56-140 | once a cancellation has won the task, nothing is committed at any time and no executor is ever in the runner |
| MutationRuns.ResumedNeverCancelled | apps/engine/src/accounting/chart-mutation-runtime.ts:56-140 | once a resumed execution has taken the task, no cancellation succeeds, and none had |
| MutationCompletion.LoneExecutorFinishes | packages/mutations/src/checked-mutation-executor.ts:39-182 | from every reachable state whose pair of statuses is in the table and whose command has not failed, a lone executor of the command with a working handler ends with command and task verified and returns |
| MutationCompletion.WorkingHandlerIsAccepted | packages/mutations/src/checked-mutation-executor.ts:220-318 | an answer that reports every kind of check once and as passed is accepted whatever kinds the command requires |
| MutationCompletion.ReachesTheClaim | packages/mutations/src/checked-mutation-executor.ts:39-73 | the first executor of any command on an accepted task comes to the claim with the command pending |
| MutationCompletion.ContendedClaimLosesTheCommand | packages/mutations/src/checked-mutation-executor.ts:74-113 | wherever an executor is about to claim a pending command, an error that asks for no receipt lookup leads to a command and a task that failed without any effect |
| MutationCompletion.FailedIsFinal | packages/mutations/src/command-state-resolver.ts:47-98 | a command that has failed stays failed in every later state, and nothing is ever committed for it |
| MutationSafety.NextKeepsInv | packages/mutations/src/checked-mutation-executor.ts:39-182 | every step of every process, crash, server decision or cancellation keeps the joint invariant of store, lock and program counters |
| MutationStranding.StrandingHappens | packages/mutations/src/command-state-resolver.ts:55-56 | for every command: a run of two executors and one crash ends with the command `readback_verified` beside a task still at `execution_pending`, a pair outside the resolver's table |
| MutationStranding.LeavesTableIff | packages/mutations/src/command-state-resolver.ts:47-98 | from any reachable state in the table a step leaves it if and only if it records a read-back while the task is at `execution_pending` |
| MutationStranding.StrandedForever | packages/mutations/src/command-state-resolver.ts:73-80 | a stranded pair stays for ever, whatever executes later, unless a resolver call already holds the status `committed` |
| MutationFreshReads.OrderlyStaysInTable | packages/mutations/src/command-state-resolver.ts:29-98 | in runs where the second read of line 56 never returns a record past `execution_pending`, every reachable pair is in the table and `finalize` never refuses |
| CommandStateResolver.UndisturbedReconcile | packages/mutations/src/command-state-resolver.ts:47-98 | left alone, a reconcile succeeds exactly on the pairs of its table, brings the task level with the command and writes nothing else; on any other pair it throws and writes nothing |
| CommandStateResolver.SwitchIsTheTable | packages/mutations/src/command-state-resolver.ts:55-97 | the pairs the protocol repairs or finds level are those of the switch, case by case, and each case leaves the task where the switch does |
| CommandStateResolver.LevelTask | packages/mutations/src/command-state-resolver.ts:47-98 | the switch amid other writers: it refuses a pair exactly if it is in no case, gives up if the task moved under it, and otherwise leaves the task level |
| CommandStateResolver.ReconcileIsIdempotent | packages/mutations/src/command-state-resolver.ts:29-98 | reconciling twice leaves the store of reconciling once, on every pair of statuses |
| CommandStateResolver.ReconcileOnce | packages/mutations/src/command-state-resolver.ts:29-98 | amid other writers: nothing goes back, the task is level with the returned status unless the record was merely read again, `missing` exactly without a row, `inconsistent` only for a pair in no case of the switch, a retryable error only if another writer came first; with nobody else the answer and the store are those of the switch, both ways |
| CommandStateResolver.Reconcile | packages/mutations/src/command-state-resolver.ts:14-27 | one to three attempts, each after the first following a lost race for the task or for the command; the errors as for one attempt; with nobody else one attempt with the answer and the store of the switch |
| CommandStateResolver.SyncedIsStable | packages/mutations/src/command-state-resolver.ts:47-98 | once the task is level with a status it stays level with it under all later progress of others |
| MutationErrors.ClaimIff | packages/mutations/src/serializable-runner.ts:65-94 | a claim goes through exactly if nobody holds the row and the command is pending, which locks it, or committed already, which ends in the receipt on record |
| MutationErrors.ReplayIff | packages/mutations/src/checked-mutation-executor.ts:318-340 | a replay finishes with what is on record, exactly if there are a receipt and an accepting read-back |
| MutationErrors.LostReplyTookEffect | packages/mutations/src/checked-mutation-executor.ts:74-182 | a reply is lost exactly where a write takes effect, and the store is then as after the write; the caller gives up, but for the reconcile made while an error of the run is handled |
| MutationErrors.LostRaceStartsAgain | packages/mutations/src/command-state-resolver.ts:14-27 | a resolver write that finds the row or the task moved on starts the reconcile again |
| MutationErrors.RunErrorComesTo | packages/mutations/src/checked-mutation-executor.ts:101-117 | after an error of the run a command found committed or verified is gone on with, whatever the error was; otherwise the executor gives up if the error asks for a receipt lookup and marks the command as failed if not |
| MutationErrors.ReceiptIsLookedFor | packages/mutations/src/serializable-runner.ts:111-138 | a connection lost before COMMIT and any error of COMMIT are followed by a lookup; what it finds is gone on with, and without it the error asks for a lookup exactly if a COMMIT was sent |
| MutationErrors.PastCommitNeverMarksFailed | packages/mutations/src/checked-mutation-executor.ts:101-182 | an executor that has sent COMMIT never marks its command as failed, unless the lookup of its receipt fails with an error that asks for none |
| MutationErrors.RecordingIsLookedUp | packages/mutations/src/checked-mutation-executor.ts:154-172 | a read-back that could not be recorded is looked up: one on record is gone on with, without one the executor gives up |
| MutationErrors.MarkFailedIff | packages/mutations/src/checked-mutation-executor.ts:108-115 | marking as failed concerns a pending command and no other |
| MutationErrors.StatusLeadsTo | packages/mutations/src/checked-mutation-executor.ts:78-182 | what each reconciled status leads to after registration, after the run and after the read-back |
| MutationErrors.CancellationWinsIff | packages/runtime/src/verification-runtime.ts:151-184 | alone, a cancellation succeeds exactly on an accepted task that is not being executed |
| MutationErrors.FinalizeIff | packages/mutations/src/checked-mutation-work-cell-coordinator.ts:171-190 | finalizing completes a task whose read-back is on record, accepts a verified one and refuses every other |
| SerializableRunner.Run | packages/mutations/src/serializable-runner.ts:60-144 | at most one COMMIT, on the last connection, and one effect; if no call raises, one attempt that returns a receipt: the command's own after a COMMIT, or the one that was durable without any; every connection released, every begun transaction ended; bounded attempts and waiting; a returned receipt is durable; the ambiguous error means a COMMIT was sent; the log of its attempts explains the outcome; a claim that meets contention at once makes it the only attempt |
| SerializableRunner.TryOnce | packages/mutations/src/serializable-runner.ts:65-110 | one attempt: the error it reports is that of the first call that raised; without one it returns the durable receipt, or executes and commits exactly if there was none; a receipt that fails its schema after COMMIT is durable |
| SerializableRunner.Attempted | packages/mutations/src/serializable-runner.ts:65-141 | try, catch and finally: the connection is given back and the transaction ended; after a receipt that fails its schema the lookup returns it, unless the lookup itself fails |
| SerializableRunner.HandleCaught | packages/mutations/src/serializable-runner.ts:111-138 | the catch block returns only durable receipts, goes round exactly for retriable failures with attempts left, throws what its branch throws, and rolls back exactly what was not committed |
| SerializableRunner.RetriedIff | packages/mutations/src/serializable-runner.ts:65-138 | in every run a serialization failure is answered with a backoff exactly if BEGIN, the timeouts, the rollback or the receipt lookup for a committed command, or a handler that does not normalize raised it with attempts left; another attempt follows unless the time is up or no connection is to be had; a failing lookup of the catch block ends the run |
| SerializableRunner.ThrownErrorIs | packages/mutations/src/serializable-runner.ts:112-138 | what a run throws: an ambiguous COMMIT, retries used up, or the error raised, driver errors as ones that ask for no receipt lookup; and which of them do |
| SerializableRunner.ContendedClaimIsFinal | packages/mutations/src/serializable-runner.ts:72-138 | in every run an attempt whose claim raises one is the last, and the run throws an error that asks for no receipt lookup |
| SerializableRunner.BackoffIsTriangular | packages/mutations/src/serializable-runner.ts:129-132 | the waiting before attempt n is retryDelay times n(n-1)/2 |
| Json.CanonicalDecidesEquality | apps/engine/src/memory/working-memory-taxonomy.ts:89-100 | two values have the same canonical form exactly when they are equal as JSON values, at any depth |
| Json.CanonicalKeepsValue | apps/engine/src/memory/working-memory-taxonomy.ts:89-100 | canonicalizing is idempotent and keeps a value well-formed |
| Json.SameIsSymmetric | apps/engine/src/memory/working-memory-review.ts:163-166 | equality of canonical values does not depend on which comes first |
| WorkingMemoryDocument.DraftIsCarriedOut | apps/engine/src/memory/working-memory-document.ts:235-340 | after resolving and applying a draft: delete took that one entry away, create added one of the drafted content, the principal's own if it is a member's, replace put the drafted content in place, and only clear empties the document |
| WorkingMemoryDocument.RefusedIff | apps/engine/src/memory/working-memory-document.ts:243-297 | which error refuses a draft, exactly when: another revision, an entry that is not there, another member's entry |
| WorkingMemoryDocument.ConfirmationIff | apps/engine/src/memory/working-memory-document.ts:235-297 | everything but a create needs a confirmation, and a create exactly if the principal sees an entry of its kind |
| WorkingMemoryDocument.ApplyRefusedIff | apps/engine/src/memory/working-memory-document.ts:299-340 | which error refuses a mutation, and when |
| WorkingMemoryDocument.ResolvedApplies | apps/engine/src/memory/working-memory-document.ts:235-340 | what resolves on a document applies to it for the same principal, unless the size bounds or a taken identifier reject it; exactly then it is rejected |
| WorkingMemoryDocument.ApplyKeepsTheRest | apps/engine/src/memory/working-memory-document.ts:299-340 | create, replace and delete leave all other entries alone; replace keeps scope, owner and creation time; the result is valid again |
| WorkingMemoryDocument.ApplyWritesTheEntry | apps/engine/src/memory/working-memory-document.ts:310-340 | the entry written is the proposed one with the right lifecycle: new for a create, updated now and otherwise kept for a replace |
| WorkingMemoryDocument.OnlyClearTouchesOthers | apps/engine/src/memory/working-memory-document.ts:309 | an entry the principal may not access survives every mutation except `clear`, which erases it |
| WorkingMemoryDocument.AppliedEffectIsPresent | apps/engine/src/memory/working-memory-document.ts:372-386 | the effect of an applied mutation is visible in the document it produced |
| WorkingMemoryDocument.ReadbackSeesTheChange | apps/engine/src/memory/working-memory-document.ts:348-370 | read-back accepts exactly the documents that show the effect, provided it was not there before |
| WorkingMemoryDocument.ReadbackFailsOnlyOnNoChange | apps/engine/src/memory/working-memory-document.ts:348-370 | after an undisturbed write read-back fails exactly for a replacement by equal content and the clearing of an empty document |
| WorkingMemoryDocument.DecodingSettles | apps/engine/src/memory/working-memory-document.ts:135-145 | decoding adds nothing but lifecycles, reports a migration exactly when it changed something, and leaves nothing to migrate |
| WorkingMemoryDocument.LegacyFactsStandForFields | apps/engine/src/memory/working-memory-document.ts:166-228 | every legacy fact stands for the field of its kind with that field's content, and there is one for each field |
| WorkingMemoryDocument.LegacyFactsAreOwned | apps/engine/src/memory/working-memory-document.ts:166-228 | every legacy fact is a valid entry with a lifecycle, and the facts a principal may not access are exactly the contexts of the other members |
| WorkingMemoryDocument.DecodeLegacy | apps/engine/src/memory/working-memory-document.ts:147-232 | succeeds exactly if the unknown fields are an acceptable value and the document keeps its bounds; it then holds every legacy fact once, each under an identifier of its own, even if the generator repeats itself |
| ResourceMutex.Mutex.Enter | apps/engine/src/memory/orchestrator-session-memory.ts:571-577 | a call joins the end of its resource's queue and of no other |
| ResourceMutex.Mutex.Start | apps/engine/src/memory/orchestrator-session-memory.ts:578-580 | the call the chain lets go on begins; the queues stay |
| ResourceMutex.Mutex.Settle | apps/engine/src/memory/orchestrator-session-memory.ts:581-584 | a call that returns or throws leaves the head of its queue, and the map entry goes with the last one |
| ResourceMutex.OnlyTheHeadMayStart | apps/engine/src/memory/orchestrator-session-memory.ts:572-578 | arrival order: a waiting call may go on exactly when it is the first in its queue |
| ResourceMutex.RunningIsTheHead | apps/engine/src/memory/orchestrator-session-memory.ts:571-584 | mutual exclusion: a running call is the first in its queue and the only one running on the resource |
| ResourceMutex.TailsHoldTheLastInQueue | apps/engine/src/memory/orchestrator-session-memory.ts:569-583 | the map has an entry exactly while a call on the resource is outstanding, and it is the last in the queue |
| ResourceMutex.SomeoneCanProceed | apps/engine/src/memory/orchestrator-session-memory.ts:571-584 | while calls are outstanding, the first is running or may start |
| ResourceMutex.SettlingTheHeadLeavesTheRest | apps/engine/src/memory/orchestrator-session-memory.ts:581-584 | settling the first call removes it and nothing else from the queue |
| MemorySession.SameRevisionTwiceMeansRestored | apps/engine/src/memory/orchestrator-session-memory.ts:390-450 | no lost update: two mutations that name the same revision both take effect only if the first one changed nothing, or a write strictly between them brought the resource back to that revision from another one |
| MemorySession.TwoSuccessesMeanRestored | apps/engine/src/memory/orchestrator-session-memory.ts:390-450 | two calls both told of success on the same revision: between their two writes that revision was left and brought back |
| MemorySession.SuccessTookEffectOnItsBase | apps/engine/src/memory/orchestrator-session-memory.ts:398-448 | a reported success took effect exactly once, on the document whose revision the caller named, and its effect is in the document reported |
| MemorySession.ReadbackSeesOnlyOwnWrite | apps/engine/src/memory/orchestrator-session-memory.ts:434-448 | where the stored documents were valid at first: under the mutex a written migration is always accepted, and a written mutation is reported a success exactly when read-back accepts what was applied, whenever the storage answers |
| MemorySession.WritesAreValid | apps/engine/src/memory/orchestrator-session-memory.ts:390-517 | where the stored documents were valid at first, every call loads and stores valid documents |
| MemorySession.WriteKeepsSound | apps/engine/src/memory/orchestrator-session-memory.ts:390-517 | a write by the call whose turn it is extends the chain in which every write replaces exactly what its writer loaded |
| MemoryCalls.CallComesTo | apps/engine/src/memory/orchestrator-session-memory.ts:390-517 | what a call that is alone answers and leaves behind, for every request and document: inspection, refusals, validation, mutation, and the migration before any of them |
| MemoryCalls.FaultsAreNamed | apps/engine/src/memory/orchestrator-session-memory.ts:399-517 | what it answers when the storage fails it |
| MemorySession.Session.Load | apps/engine/src/memory/orchestrator-session-memory.ts:399-418 | what one load, decode, compare and apply leads to, for any other calls under way |
| MemorySession.Session.WriteMutation | apps/engine/src/memory/orchestrator-session-memory.ts:422-432 | the write may land without being reported; either way the history stays sound |
| MemorySession.Session.ReadMutation | apps/engine/src/memory/orchestrator-session-memory.ts:434-448 | the outcome reported after reading back |
| MemorySession.Session.WriteMigration | apps/engine/src/memory/orchestrator-session-memory.ts:486-502 | the migrated document is written before anything else is done with it |
| MemorySession.Session.ReadMigration | apps/engine/src/memory/orchestrator-session-memory.ts:503-517 | a migration is gone on with only after reading back the same revision |
| ConversationTurns.TurnAlone | apps/engine/src/workflows/conversation-turn-router.ts:41-296 | the row, the document and the answer after one message, for every row, time, document and disposition, when nobody interferes, no call fails and the clocks agree about the deadline |
| ConversationTurns.FailedWriteIsRecorded | apps/engine/src/workflows/conversation-turn-router.ts:254-296 | a write that fails before it began leaves the document alone and is recorded as failed |
| ConversationTurns.LostRecordingIsLookedUp | apps/engine/src/workflows/conversation-turn-router.ts:254-296 | a result that could not be recorded, came too late or whose reply was lost changes nothing more and leads to a lookup |
| ConversationTurns.ResponseIsLookedUp | apps/engine/src/workflows/conversation-turn-router.ts:254-296 | the lookup answers with the response on record if there is one, and gives up exactly if there is none |
| ConversationTurns.CountersCount | apps/engine/src/workflows/conversation-turn-router.ts:41-296 | what the bounds below count: changes of the document by the proposal, and restorations of its base revision by others |
| ConversationSafety.ChangesAtMostOncePerBase | apps/engine/src/workflows/conversation-turn-router.ts:41-296 | over any schedule of deliveries, crashes and redeliveries the proposal changes the document at most once more often than other writers restored its base revision |
| ConversationSafety.StepKeepsInv | apps/engine/src/workflows/conversation-turn-router.ts:41-296 | every step of every handler keeps the evidence on the row and what each handler relies on, whatever the clocks say, and the consent to what was done if the engine's clock is not behind |
| ConversationRuns.AtMostOneChange | apps/engine/src/workflows/conversation-turn-router.ts:41-296 | without such a restoration: at most one change |
| ConversationRuns.NoChangeWithoutApproval | apps/engine/src/workflows/conversation-turn-router.ts:81-127 | for an engine clock that is not behind the database's: the document is changed only under a recorded approval; once a rejection is on record it never is |
| ConversationRuns.RunIsStable | packages/database/src/repositories/operations/pending-interactions.ts:239-375 | the recorded decision and claiming message never change, and a completed row never does |
| ConversationRuns.FinishersAgree | apps/engine/src/workflows/conversation-turn-router.ts:254-296 | all handlers that finish with the interaction's response, whenever they do, return the one on record |
| ConversationRuns.AppliedWasPresent | apps/engine/src/workflows/conversation-turn-router.ts:219-233 | whatever the clocks say, `applied` is recorded only if the effect was in the stored document at some moment |
| ConversationRuns.AppliedWasApproved | apps/engine/src/workflows/conversation-turn-router.ts:81-127 | for an engine clock that is not behind the database's: `applied` is recorded only after an approval |
| ConversationRuns.RunKeepsInv | packages/contracts/src/pending-interaction.ts:102-125 | in every reachable state, whatever the clocks say, the row carries the evidence its status must and must not carry |
| ConversationRuns.RedeliveryRecordsTheChange | apps/engine/src/workflows/conversation-turn-router.ts:219-233 | after a crash past the change, redelivering the message records it as applied without touching the document again |
| ConversationRuns.RedeliveryMakesTheChange | apps/engine/src/workflows/conversation-turn-router.ts:219-247 | after a crash before the change, redelivering the message makes it |
| ConversationRuns.ExpiryComesFirst | apps/engine/src/workflows/conversation-turn-router.ts:150-160 | once the proposal has expired the same redelivery records `expired`, whether or not the change is there |
| ConversationTruth.StatusTellsOfTheChange | apps/engine/src/workflows/conversation-turn-router.ts:81-296 | in every run that obeys the six rules: `stale`, `failed` and `rejected` mean no change was made, and a change that was made is recorded as expired exactly if an expiry check came upon it first, otherwise as applied |
| ConversationTruth.LateChecks | apps/engine/src/workflows/conversation-turn-router.ts:81-160 | the expiry checks that may come upon a change are recovery's, the one before an answer is acted on, and the search for an expired proposal when the message is about something else |
| ConversationTruth.ReportedWriteIsSeen | apps/engine/src/memory/orchestrator-session-memory.ts:422-448 | a reported write of a mutation that was not there before is accepted by read-back, or changed nothing |
| ConversationLimits.EveryRuleIsNeeded | apps/engine/src/workflows/conversation-turn-router.ts:81-296 | for each of the six rules a run that breaks no other one and whose row says `stale`, `failed` or `rejected` for a change that was made |
| ConversationLimits.StaleBesideAnother | apps/engine/src/workflows/conversation-turn-router.ts:219-247 | two live handlers: the slower one records `stale` for the change of the faster one |
| ConversationLimits.StaleAfterAnotherWrite | apps/engine/src/workflows/conversation-turn-router.ts:234-244 | one handler at a time: another writer undoes the change, and the redelivered message records `stale` |
| ConversationLimits.FailedForLackOfReply | apps/engine/src/memory/orchestrator-session-memory.ts:422-432 | a write that lands without being reported is recorded as failed |
| ConversationLimits.FailedForLackOfInspection | apps/engine/src/workflows/conversation-turn-router.ts:219-233 | a change made before a crash is recorded as failed when the redelivered message cannot read the document |
| ConversationLimits.FailedForLackOfDifference | apps/engine/src/memory/working-memory-document.ts:348-370 | replacing an entry by the content it has changes the document and is recorded as failed |
| ConversationLimits.RejectedThoughChanged | apps/engine/src/workflows/conversation-turn-router.ts:81-101 | for every engine clock that is behind the database's: a run that makes the change against a recorded rejection and then records the rejection |
| ConversationLimits.ExpiredThoughChanged | apps/engine/src/workflows/conversation-turn-router.ts:150-160 | a run that obeys all six rules and records `expired` for a change made in time |
| ConversationLimits.RestoredBaseIsChangedTwice | apps/engine/src/workflows/conversation-turn-router.ts:219-247 | a run where another member deletes the added entry again and the redelivered message adds it once more |
| ConversationLimits.SlowClockChangesAgainstRejection | apps/engine/src/workflows/conversation-turn-router.ts:81-101 | for every engine clock that is behind the database's: a run that makes the change although the rejection is on record |
| ConversationLimits.AppliedThoughRejected | apps/engine/src/workflows/conversation-turn-router.ts:81-101 | for every such clock: a run that records `applied` beside the rejection |
| Decimal.WrittenIsRead | packages/accounting/src/amounts.ts:3-8 | a string of the pattern is accepted, with its sign, its integer part without leading zeros, and its fraction |
| Decimal.ReadIsWritten | packages/accounting/src/amounts.ts:3-8 | nothing else is accepted |
| Decimal.StripsZeros | packages/accounting/src/amounts.ts:3-8 | stripping takes leading zeros away and no other digit, as many as it can without taking the last |
| Decimal.CompareIsExact | packages/accounting/src/amounts.ts:23-27 | comparison is the order of the rationals the two strings denote, at any length |
| Decimal.FormatRoundTrips | packages/accounting/src/amounts.ts:10-21 | what is formatted is canonical, has the asked scale and aligns back to the same number |
| Decimal.AligningScales | packages/accounting/src/amounts.ts:10-14 | aligning to a finer scale multiplies by a power of ten, so it changes no value |
| Decimal.NegationIsExact | packages/accounting/src/amounts.ts:29-31 | negation negates the value at every scale, keeps the scale, and is an involution |
| Decimal.SumSignedPostings | packages/accounting/src/amounts.ts:33-43 | fails exactly on a malformed amount; otherwise both totals denote the true sums, at every scale fine enough for the amounts, with as many decimals as the amount that has the most |
| Ledger.SumIgnoresOrder | packages/reporting/src/projection-health-repository.ts:19-27 | the authoritative sum does not depend on the order of the postings |
| Projections.UpsertRefinesFold | packages/reporting/src/projection-writer.ts:10-43 | the upsert of one journal takes the table of the fold over the earlier postings to the fold over all: accounts, amounts, dates and last journals |
| Projections.DriftIsWhatComesLater | packages/reporting/src/projection-health-repository.ts:16-36 | on a maintained table the drift check at a date reports exactly the projected accounts whose postings dated later do not net to zero |
| Projections.RebuildAgainstIncremental | packages/reporting/src/projection-rebuilder.ts:9-41 | a rebuild on or after every journal has the accounts, amounts and last journals of the incremental table for accounts in the reporting currency, and the two amounts exchanged for all others |
| Projections.RebuildDriftsOnForeignAccounts | packages/reporting/src/projection-rebuilder.ts:19-27 | after a rebuild the drift check at that date reports exactly the accounts in another currency whose balance is not zero |
| Projections.FoldHasNoErrors | packages/reporting/src/projection-writer.ts:10-43 | the table that holds the fold over all postings has no such errors, so incremental upkeep from the start has none |
| Projections.UpsertKeepsErrors | packages/reporting/src/projection-writer.ts:10-43 | whatever the table holds, one more journal leaves every account's amounts as far from its postings as they were |
| Projections.ErrorsOfRebuilt | packages/reporting/src/projection-rebuilder.ts:9-41 | a rebuild leaves own-currency amounts short of what is dated later, and for others the native amount short of everything and the reporting amount in excess by all up to the date |
| ProjectionTables.Tables.Post | packages/accounting/src/posting/journal-posting-service.ts:45-109 | posting appends the journal and its postings in order, updates the projection, keeps a maintained table maintained and every account's errors as they are, and changes nothing if an account is unknown |
| ProjectionTables.Tables.CheckCurrentBalanceDrift | packages/reporting/src/projection-health-repository.ts:4-63 | each drifted account is reported and recorded once with both amounts, and the health row counts them |
| ProjectionTables.Tables.RebuildCurrentBalances | packages/reporting/src/projection-rebuilder.ts:5-48 | the table is what the postings up to the date give, with the errors of every account stated, and exactly the records of this projection are closed |
| ProjectionTables.Tables.FinalizeDay | packages/reporting/src/projection-finalizer.ts:4-51 | assets and liabilities are the sums over the day's rows of the accounts of that class, net worth is their difference, both daily checks have nothing to report right after it, other days stay |
| ProjectionTables.Tables.CheckDailyBalanceDrift | packages/reporting/src/projection-health-repository.ts:65-111 | each daily row that differs from the balance table is reported and recorded once with both amounts |
| ProjectionTables.Tables.CheckNetWorthDrift | packages/reporting/src/projection-health-repository.ts:113-161 | reports exactly when the stored net worth differs from the day's rows |
| ProjectionTables.RowMovesTotals | packages/reporting/src/projection-finalizer.ts:25-49 | a row for one more account moves assets, liabilities and net worth as the account's class says |
| ProjectionTables.TotalsAreByClass | packages/reporting/src/projection-finalizer.ts:25-49 | the two sums are over the rows of the accounts of that class |
| ProjectionTables.DailyDriftAfterPosting | packages/reporting/src/projection-health-repository.ts:65-111 | after the close of a day the check reports an account exactly if a journal dated by then moved it, unless the account had something dated later: then never |
| ProjectionTables.NetWorthIsAssetsMinusLiabilities | packages/reporting/src/projection-finalizer.ts:25-49 | the signed sum over the day's rows is the asset sum less the liability sum |
| ProjectionTables.ClosedRowIsTheDaysBalance | packages/reporting/src/projection-finalizer.ts:8-23 | a daily row written for a day is the account's balance at the end of that day; accounts with a later posting get none |
| ProjectionTables.ClosedNetWorthMissesTheOmitted | packages/reporting/src/projection-finalizer.ts:25-49 | the net worth of a day closed for the first time is the true one less what those accounts held |
| Reversals.ReversingTwice | packages/accounting/src/posting/corrections.ts:12-22 | reversing twice gives back every account, direction and amount in its place |
| Reversals.ReversalRestoresBalances | database/migrations/0004_accounting_ledger.sql:668-718 | any journal that passes the reversal constraint cancels the original on every account, whatever was posted around them, in every window that holds both or neither |
| Reversals.ReversalNegates | packages/accounting/src/posting/corrections.ts:12-22 | the built reversal adds the opposite of the original to every account |
| Reversals.ReversalExchangesTotals | packages/accounting/src/posting/corrections.ts:12-22 | reversing exchanges debit and credit totals |
| Reversals.LineTotalAdds | database/migrations/0004_accounting_ledger.sql:598-612 | the totals the balance constraint compares are additive, and a line counts for its own direction |
| Reversals.LedgerTrialBalance | database/migrations/0004_accounting_ledger.sql:598-612 | over every run of balanced journals in one currency, debit-normal balances and credit-normal balances have the same total |
| Calendar.DayNumberInClosedForm | packages/contracts/src/time.ts:12-18 | the day number of any date in closed form, by years that begin with March, without a table of months: day 0 is 1 January 1970 |
| Calendar.MonthStarts | packages/contracts/src/time.ts:12-18 | where each month begins within its year, by the rule of 153 days for five months |
| Calendar.RealIsGregorian | packages/contracts/src/time.ts:3-19 | a string is accepted exactly if it writes a Gregorian date of the years 100 to 9999 with four, two and two digits |
| Calendar.DecodeInverts | packages/contracts/src/time.ts:12-18 | the day number of a date that exists decodes to that date |
| Calendar.Decode | packages/contracts/src/time.ts:12-18 | every day number decodes to a date that exists and encodes back to it |
| AccountingPeriods.AddLocalDaysShifts | apps/engine/src/accounting/accounting-request-materializers.ts:701-708 | days are added, or taken, across months and years; refused exactly for a year below 100 or above 9999 |
| AccountingPeriods.BoundsRefusedIff | apps/engine/src/accounting/accounting-request-materializers.ts:1029-1042 | bounds are refused for what is no date, and for nothing else |
| AccountingPeriods.BoundsAreTheMonth | apps/engine/src/accounting/accounting-request-materializers.ts:1029-1042 | the bounds of a date's month are its first and its last day, also in December 9999 |
| AccountingPeriods.BoundsHoldTheDate | apps/engine/src/accounting/accounting-request-materializers.ts:1029-1042 | as days they are that whole month and contain the date |
| AccountingPeriods.OnlyOwnMonthContains | database/migrations/0004_accounting_ledger.sql:104-108 | a whole month contains a day exactly if it is the day's own month: months are equal or disjoint |
| AccountingPeriods.MonthsTile | apps/engine/src/accounting/accounting-request-materializers.ts:1029-1042 | the day after a month starts the next whole month, the day before ends the previous one |
| AccountingPeriods.PeriodsAreDisjoint | database/migrations/0004_accounting_ledger.sql:101-108 | under the table's constraints no day lies in two periods |
| AccountingPeriods.PeriodTable.Find | apps/engine/src/accounting/accounting-request-materializers.ts:1008-1027 | finds a period that contains the day, and none only if there is none |
| AccountingPeriods.PeriodTable.Resolve | apps/engine/src/accounting/accounting-request-materializers.ts:969-997 | yields the one period that contains the date whatever other sessions insert meanwhile, exactly if the date is real and one exists or an identifier can be allocated; keeps the constraints |
| AccountingPeriods.TextReadsBack | apps/engine/src/accounting/accounting-request-materializers.ts:701-708 | a date of the years 100 to 9999 is written so that it reads back as the same date |
| Ulid.NewUlid | apps/engine/src/memory/working-memory-document.ts:67-88 | the result is the ten base-32 digits of the time and the sixteen of the first 80 random bits; 26 characters of the alphabet |
| Ulid.AppendRandomPart | apps/engine/src/memory/working-memory-document.ts:75-86 | the unmasked 32-bit buffer, wrapping, emits exactly those sixteen digits |
| Ulid.WrappingKeepsDigits | apps/engine/src/memory/working-memory-document.ts:80-84 | nothing the mask lets through is lost to the wrap-around |
| Ulid.LaterIsGreater | apps/engine/src/memory/working-memory-document.ts:67-74 | below 32^10 milliseconds identifiers order lexicographically by time, whatever the random bits |
| WorkingMemoryReviewer.Review | apps/engine/src/memory/working-memory-review.ts:25-129 | the report holds the first fifty of exactly the specified findings, in order |
| WorkingMemoryReviewer.ReportIgnoresEntryOrder | apps/engine/src/memory/working-memory-review.ts:25-129 | the report is determined by the set of visible entries; their stored order does not matter |
| WorkingMemoryReviewer.FindingsMentionOnlyVisible | apps/engine/src/memory/working-memory-review.ts:31-33 | every identifier in a finding is that of a visible entry |
| WorkingMemoryReviewer.DuplicatesDoNotContradict | apps/engine/src/memory/working-memory-review.ts:57-120 | no two entries are both named as duplicates and as a contradiction |
| WorkingMemoryReviewer.KeyDetermines | apps/engine/src/memory/working-memory-review.ts:188-193 | category and identifiers determine a finding, so the order of findings is total |
| WorkingMemoryReviewer.ItemFindings | apps/engine/src/memory/working-memory-review.ts:36-55 | exactly the scope and staleness findings, each once |
| WorkingMemoryReviewer.DuplicateFindings | apps/engine/src/memory/working-memory-review.ts:57-83 | exactly one finding for each group of entries with the same fingerprint, oldest first |
| WorkingMemoryReviewer.PairFindings | apps/engine/src/memory/working-memory-review.ts:96-120 | the nested loops find each contradicting pair of a group once |
| WorkingMemoryReviewer.ContradictionFindings | apps/engine/src/memory/working-memory-review.ts:85-120 | exactly one finding for each contradicting pair |
| ReviewFindings.ScopeMismatchIff | apps/engine/src/memory/working-memory-review.ts:36-44 | an entry is reported for its scope exactly if it is a member's context kept for the household or a convention kept for one member |
| ReviewFindings.StaleIff | apps/engine/src/memory/working-memory-review.ts:142-151 | an entry is reported as due exactly if its own expiry has come, or 90, 180 or 365 days by its kind have gone by since its last review or update |
| ReviewFindings.SameFactIff | apps/engine/src/memory/working-memory-taxonomy.ts:103-120 | entries count as the same fact exactly if kind, scope and owner agree and their values are equal as JSON |
| ReviewFindings.DuplicateSays | apps/engine/src/memory/working-memory-review.ts:57-83 | a finding of duplicates names the ten oldest, oldest first, and proposes to delete exactly if the oldest was created before all others |
| ReviewFindings.ContradictIff | apps/engine/src/memory/working-memory-review.ts:96-120 | two entries contradict each other exactly if kind, scope and owner agree, their values are not equal, and they disagree on a shared field or their kind allows one value only |
| ReviewFindings.ContradictionSays | apps/engine/src/memory/working-memory-review.ts:96-120 | the finding names both in order, and exactly the fields they disagree on in order, or asks for a choice if there are none |
| ReviewFindings.FieldsAreTheDisagreements | apps/engine/src/memory/working-memory-review.ts:168-174 | the fields listed are exactly the shared ones with unequal values, ascending |
| ReviewFindings.CategoriesInOrder | apps/engine/src/memory/working-memory-review.ts:188-193 | duplicates come first, then contradictions, scopes and what is due, whatever they name |
| WorkingMemoryReview.AgeOrdersIff | apps/engine/src/memory/working-memory-review.ts:153-161 | age with the identifier as tie-break is a strict total order exactly if no entry without a lifecycle comes, by identifier, between two with one of which the smaller was created later |
| WorkingMemoryReview.AgeOrders | apps/engine/src/memory/working-memory-review.ts:153-161 | so it is one on decoded documents, whose entries all have a lifecycle |
| WorkingMemoryReview.AgeGoesRoundIff | apps/engine/src/memory/working-memory-review.ts:153-161 | three entries go round in a circle exactly if one of them comes between the two others in this sense |
| WorkingMemoryReview.AgeMayGoRound | apps/engine/src/memory/working-memory-review.ts:153-161 | three entries that do |
| WorkingMemoryReview.DifferingFieldsAreSymmetric | apps/engine/src/memory/working-memory-review.ts:168-174 | the fields two entries disagree on do not depend on which comes first |
| Sorting.SortAscends | apps/engine/src/memory/working-memory-review.ts:125-127 | sorting by a strict total order puts distinct elements in ascending order |
| Sorting.AscendingIsUnique | apps/engine/src/memory/working-memory-review.ts:125-127 | two ascending sequences of the same elements are the same |
| Budgeting.Prepare | apps/engine/src/budgeting/budgeting-request.ts:43-67 | a follow-up is taken over whole or not at all; a retained fact changes only where a grounded span of the evidence covers its path; no fact disappears |
| Budgeting.ChangedBudgetFactPaths | apps/engine/src/budgeting/budgeting-request.ts:138-177 | lists a path for each place where the follow-up states something else, and no other |
| Budgeting.MergeChangesTheChangedPlaces | apps/engine/src/budgeting/budgeting-request.ts:179-247 | merging changes a retained fact exactly at the places reported as changed |
| Budgeting.MergeKeepsAndAdopts | apps/engine/src/budgeting/budgeting-request.ts:179-247 | no list gets shorter and what the follow-up states is what stands there; a category without a target keeps its old one |
| Budgeting.MergedIsUnchanged | apps/engine/src/budgeting/budgeting-request.ts:138-247 | a fixpoint: nothing that was merged is reported as changed again |
| Budgeting.PreparingTwice | apps/engine/src/budgeting/budgeting-request.ts:43-67 | resending the same follow-up changes nothing more, whether it was taken over or not |
| Budgeting.CoversIff | apps/engine/src/budgeting/budgeting-request.ts:130-136 | a path covers another exactly if they are the same or one lies inside the other |
| Budgeting.PlacesDoNotCoverEachOther | apps/engine/src/budgeting/budgeting-request.ts:130-136 | evidence for one place covers no other place, not even categories[1] and categories[10] |

## Left out

- SQL text, pools, isolation levels and timeouts: a transaction takes effect whole or not at all, with an explicit in-doubt COMMIT; the clock is a parameter or a step.
- Several commands on one task: the protocol follows one command; its retry budgets are left open, so its runs include all runs of the code.
- Hashes: SHA-256 over canonical JSON is taken as injective, so a revision or fingerprint is the canonical content itself.
- `MutationProtocol` takes one receipt for one command: the receipt's own identifier is derived from the command's.
- The maker and checker stages of the verification runtime, the command registry and the work-cell coordinator's checks that a command is unchanged: finite case checks.
- ConversationRuns.AtMostOneChange: counts changes of the document's revision, and applying to memory is one step; several engine processes that share a document without sharing the mutex are not modelled.
- Classification, prompts and reply wording: a nondeterministic choice and an opaque response.
- More than one interaction in a conversation, and messages of other speakers.
- WorkingMemoryDocument.DecodeLegacy: takes the stored object after the schema has parsed its known fields; JSON.parse and the schema are not part of the model, and the test of the unknown fields is a parameter.
- JSON objects with integer-like keys, which a JavaScript engine lists in numeric order, and negative zero.
- MemorySession.ReadbackSeesOnlyOwnWrite: takes what was stored at first as valid; that a read of a malformed document fails is one of the replies the storage may give.
- Text lengths and value depth of the schemas; keys such as `__proto__`, on which canonicalizing throws.
- Identifier comparison uses code units where the source uses `localeCompare`; identifiers all have the same length and alphabet.
- `reviewDue`, prompt projection and logging around Working Memory.
- Ledger amounts are whole numbers of the smallest unit of the NUMERIC columns; exchange rates, tags, memos and the deferred constraints other than balance and exact reversal are left out; the trial balance is over journals in one currency.
- Order of concurrent transactions: journals are numbered in the order in which they take effect.
- Time zones and the conversion of instants to local dates.
- Budgeting.Prepare: the normalization of quoted text is a parameter, and continuation compatibility is taken as given.
- Duplicate scoring, payload details, transport, terminal and daemon code.
