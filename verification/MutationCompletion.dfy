/** Runs of the protocol that go somewhere: what one executor does when nobody disturbs it. */
module MutationCompletion {
  import opened Wrappers
  import opened TaskStateMachine
  import opened MutationProtocol
  import opened MutationSafety
  import opened MutationRuns
  import Readback

  /** The store and the process after the given outcomes of its awaited calls, if possible. */
  function Drive(store: Store, id: nat, process: Process, outcomes: seq<Outcome>): Option<(Store, Process)>
    decreases outcomes
  {
    if outcomes == [] then Some((store, process))
    else
      match ProcessStep(store, id, process, outcomes[0])
      case None => None
      case Some(reply) => Drive(reply.0, id, reply.1, outcomes[1..])
  }

  /** The process alone can get from the one pair to the other. */
  ghost predicate Leads(id: nat, store: Store, process: Process, store': Store, process': Process) {
    exists outcomes :: Drive(store, id, process, outcomes) == Some((store', process'))
  }

  lemma OneStep(id: nat, store: Store, process: Process, outcome: Outcome)
    requires ProcessStep(store, id, process, outcome).Some?
    ensures var reply := ProcessStep(store, id, process, outcome).value;
      Leads(id, store, process, reply.0, reply.1)
  {
    hide ProcessStep;
    var reply := ProcessStep(store, id, process, outcome).value;
    assert Drive(reply.0, id, reply.1, [outcome][1..]) == Some(reply);
    assert Drive(store, id, process, [outcome]) == Some(reply);
  }

  lemma {:induction false} DriveOn(id: nat, store: Store, process: Process, first: seq<Outcome>, second: seq<Outcome>)
    requires Drive(store, id, process, first).Some?
    ensures var reply := Drive(store, id, process, first).value;
      Drive(store, id, process, first + second) == Drive(reply.0, id, reply.1, second)
    decreases first
  {
    hide ProcessStep;
    if first == [] {
      assert first + second == second;
    } else {
      var reply := ProcessStep(store, id, process, first[0]).value;
      DriveOn(id, reply.0, reply.1, first[1..], second);
      assert (first + second)[1..] == first[1..] + second;
    }
  }

  lemma LeadsOn(id: nat, a: Store, p: Process, b: Store, q: Process, c: Store, r: Process)
    requires Leads(id, a, p, b, q) && Leads(id, b, q, c, r)
    ensures Leads(id, a, p, c, r)
  {
    hide Drive;
    var first :| Drive(a, id, p, first) == Some((b, q));
    var second :| Drive(b, id, q, second) == Some((c, r));
    DriveOn(id, a, p, first, second);
  }

  lemma {:induction false} DrivesRun(run0: seq<State>, id: nat, outcomes: seq<Outcome>) returns (run: seq<State>)
    requires IsRun(run0) && id in Last(run0).processes
    requires Drive(Last(run0).store, id, Last(run0).processes[id], outcomes).Some?
    ensures IsRun(run) && |run| >= |run0| && run[..|run0|] == run0
    ensures var reply := Drive(Last(run0).store, id, Last(run0).processes[id], outcomes).value;
      Last(run) == State(reply.0, Last(run0).processes[id := reply.1])
    decreases outcomes
  {
    hide ProcessStep;
    if outcomes == [] {
      run := run0;
      assert Last(run0).processes[id := Last(run0).processes[id]] == Last(run0).processes;
    } else {
      var one := Extend(run0, Advance(id, outcomes[0]));
      run := DrivesRun(one, id, outcomes[1..]);
      assert run[..|run0|] == run[..|one|][..|run0|];
    }
  }

  lemma LeadsRun(run0: seq<State>, id: nat, store: Store, process: Process) returns (run: seq<State>)
    requires IsRun(run0) && id in Last(run0).processes
    requires Leads(id, Last(run0).store, Last(run0).processes[id], store, process)
    ensures IsRun(run) && |run| >= |run0| && run[..|run0|] == run0
    ensures Last(run) == State(store, Last(run0).processes[id := process])
  {
    hide Drive;
    var outcomes :| Drive(Last(run0).store, id, Last(run0).processes[id], outcomes) == Some((store, process));
    run := DrivesRun(run0, id, outcomes);
  }

  // ---------------------------------------------------------------- the pieces of `execute`

  lemma Enters(id: nat, store: Store, process: Process)
    requires process.pc == Register && (store.row.Some? ==> store.row.value.command == process.command)
    ensures Leads(id, store, process,
      if store.row.Some? then store else store.(row := Some(Row(process.command, CmdRegistered))),
      process.(pc := ReadCommand(AfterRegister)))
  {
    hide ResolverStep, RunnerStep, ReadbackStep, CompletionStep;
    OneStep(id, store, process, Returns);
  }

  function TaskLeveled(seen: CommandStatus, task: TaskStatus): TaskStatus {
    if task == RepairFrom(seen) then RepairTo(seen) else task
  }

  // The resolver finds a pair of its table and brings the task level with the command.
  lemma Levels(id: nat, store: Store, process: Process, site: Site)
    requires store.row.Some? && process.pc == ReadCommand(site)
    requires Reconcilable(store.row.value.status, store.task)
    ensures var seen := store.row.value.status;
      Leads(id, store, process, store.(task := TaskLeveled(seen, store.task)), AfterTaskMoved(process, site, seen))
  {
    hide RunnerStep, ReadbackStep, CompletionStep, ExecutorStep, AfterTaskMoved, Resolved, Unresolved;
    var seen := store.row.value.status;
    var reading, moving := process.(pc := ReadTask(site, seen)), process.(pc := MoveTask(site, seen));
    OneStep(id, store, process, Returns);
    OneStep(id, store, reading, Returns);
    SameProcess(process, reading, site, seen);
    if store.task == RepairFrom(seen) {
      NotLevelYet(seen);
      OneStep(id, store, moving, Returns);
      SameProcess(process, moving, site, seen);
      var leveled := store.(task := RepairTo(seen));
      LeadsOn(id, store, process, store, reading, store, moving);
      LeadsOn(id, store, process, store, moving, leveled, AfterTaskMoved(process, site, seen));
    } else {
      LeadsOn(id, store, process, store, reading, store, AfterTaskMoved(process, site, seen));
      assert store.(task := store.task) == store;
    }
  }

  lemma NotLevelYet(seen: CommandStatus)
    ensures !Level(seen, RepairFrom(seen))
  {
  }

  // Where the resolver's answer leads does not depend on the program counter it is given at.
  lemma SameProcess(process: Process, other: Process, site: Site, seen: CommandStatus)
    requires other == process.(pc := other.pc)
    ensures AfterTaskMoved(other, site, seen) == AfterTaskMoved(process, site, seen)
  {
  }

  lemma MarksPending(id: nat, store: Store, process: Process, site: Site)
    requires store.row.Some? && store.row.value.status == CmdRegistered && Free(store)
      && process.pc == MarkPending(site)
    ensures Leads(id, store, process, WithStatus(store, CmdPending), process.(pc := RereadCommand(site)))
  {
    hide RunnerStep, ReadbackStep, CompletionStep, ExecutorStep;
    OneStep(id, store, process, Returns);
  }

  lemma Rereads(id: nat, store: Store, process: Process, site: Site)
    requires store.row.Some? && process.pc == RereadCommand(site)
    ensures Leads(id, store, process, store, Resolved(process, site, store.row.value.status))
  {
    hide RunnerStep, ReadbackStep, CompletionStep, ExecutorStep, Resolved;
    OneStep(id, store, process, Returns);
  }

  /** The store once the command's effect is committed. */
  function Effected(store: Store, command: Command): Store
    requires store.row.Some?
  {
    WithStatus(store, CmdCommitted).(receipt := Some(ReceiptFor(command, 0)), effects := store.effects + 1)
  }

  lemma Claims(id: nat, store: Store, process: Process)
    requires store.row == Some(Row(process.command, CmdPending)) && Free(store) && process.pc == FindReceipt(CmdPending)
    ensures Leads(id, store, process, store.(lock := Executing(id, None, false)),
                  process.(receipt := store.receipt, pc := Execute))
  {
    hide ResolverStep, ReadbackStep, CompletionStep;
    var found := process.(receipt := store.receipt, pc := Claim);
    OneStep(id, store, process, Returns);
    OneStep(id, store, found, Returns);
    LeadsOn(id, store, process, store, found, store.(lock := Executing(id, None, false)), found.(pc := Execute));
  }

  lemma Commits(id: nat, store: Store, process: Process)
    requires store.row == Some(Row(process.command, CmdPending)) && store.lock == Executing(id, None, false)
    requires process.pc == Execute
    ensures Leads(id, store, process, Effected(store, process.command).(lock := NoTransaction),
                  process.(receipt := Some(ReceiptFor(process.command, 0)), pc := ReadCommand(AfterRun)))
  {
    hide ResolverStep, ReadbackStep, CompletionStep, ExecutorStep;
    var receipt := Some(ReceiptFor(process.command, 0));
    var staged, sent := store.(lock := Executing(id, receipt, false)), store.(lock := Executing(id, receipt, true));
    var sending, waiting := process.(pc := SendCommit), process.(pc := AwaitCommit);
    OneStep(id, store, process, Outputs(0));
    OneStep(id, staged, sending, Returns);
    OneStep(id, sent, waiting, Returns);
    var done := CommitTransaction(sent);
    var after := process.(receipt := receipt, pc := ReadCommand(AfterRun));
    assert ProcessStep(sent, id, waiting, Returns).value == (done, after);
    LeadsOn(id, store, process, staged, sending, sent, waiting);
    LeadsOn(id, store, process, sent, waiting, done, after);
    assert done == Effected(store, process.command).(lock := NoTransaction);
  }

  lemma FindsReceipt(id: nat, store: Store, process: Process)
    requires store.row.Some? && store.receipt.Some? && process.pc == FindReceipt(CmdCommitted)
    ensures Leads(id, store, process, store, process.(receipt := store.receipt, pc := PerformReadback))
  {
    hide ResolverStep, RunnerStep, ReadbackStep, CompletionStep;
    OneStep(id, store, process, Returns);
  }

  /** What a handler reports when everything it wrote is there: every kind of check as passed. */
  const EVERYTHING_PASSED := Readback.DomainReadback(
    [Readback.Check(Readback.Identifiers, Readback.Passed, None),
     Readback.Check(Readback.RowValues, Readback.Passed, None),
     Readback.Check(Readback.Balances, Readback.Passed, None),
     Readback.Check(Readback.SourceLinks, Readback.Passed, None),
     Readback.Check(Readback.ArtifactLinks, Readback.Passed, None)],
    [])

  function Verdict(required: seq<Readback.CheckKind>): Readback.ReadbackResult {
    Readback.Observe(required, Some(EVERYTHING_PASSED), true, "")
  }

  // Whatever the command requires, such a report is accepted.
  lemma WorkingHandlerIsAccepted(required: seq<Readback.CheckKind>)
    ensures Verdict(required).ok
  {
    hide Readback.Observe;
    var checks := EVERYTHING_PASSED.checks;
    Readback.ObservedOkIff(required, Some(EVERYTHING_PASSED), true, "");
    forall kind | kind in required && kind != Readback.IdempotencyReceipt
      ensures Readback.HasStatus(checks, kind, Readback.Passed)
    {
      match kind
      case Identifiers => assert checks[0].kind == kind;
      case RowValues => assert checks[1].kind == kind;
      case Balances => assert checks[2].kind == kind;
      case SourceLinks => assert checks[3].kind == kind;
      case ArtifactLinks => assert checks[4].kind == kind;
    }
  }

  lemma ReadsBack(id: nat, store: Store, process: Process)
    requires store.row == Some(Row(process.command, CmdCommitted)) && Free(store) && store.readback.None?
    requires store.receipt.Some? && store.receipt == process.receipt
    requires HasIdentity(store.receipt.value, process.command) && process.pc == PerformReadback
    ensures var result := Verdict(process.command.requiredChecks);
      Leads(id, store, process, WithStatus(store, CmdVerified).(readback := Some(result)),
            process.(pc := ReadCommand(AfterReadback(result))))
  {
    hide ResolverStep, RunnerStep, CompletionStep, ExecutorStep, Readback.Observe;
    var result := Verdict(process.command.requiredChecks);
    WorkingHandlerIsAccepted(process.command.requiredChecks);
    var recording, waiting := process.(pc := RecordReadback(result)), process.(pc := AwaitReadback(result));
    var locked := store.(lock := RecordingReadback(id, result));
    OneStep(id, store, process, Answers(Some(EVERYTHING_PASSED), ""));
    OneStep(id, store, recording, Returns);
    OneStep(id, locked, waiting, Returns);
    var done := WithStatus(store, CmdVerified).(readback := Some(result));
    assert CommitTransaction(locked) == done;
    LeadsOn(id, store, process, store, recording, locked, waiting);
    LeadsOn(id, store, process, locked, waiting, done, process.(pc := ReadCommand(AfterReadback(result))));
  }

  lemma Replays(id: nat, store: Store, process: Process)
    requires store.row.Some? && store.receipt.Some? && store.readback.Some? && store.readback.value.ok
    requires process.pc == ReplayReceipt
    ensures Leads(id, store, process, store,
                  process.(receipt := store.receipt, pc := FinalizeTask(store.readback.value)))
  {
    hide ResolverStep, RunnerStep, ReadbackStep, CompletionStep;
    var found := process.(receipt := store.receipt, pc := ReplayReadback);
    OneStep(id, store, process, Returns);
    OneStep(id, store, found, Returns);
    LeadsOn(id, store, process, store, found, store, found.(pc := FinalizeTask(store.readback.value)));
  }

  lemma Finalizes(id: nat, store: Store, process: Process, result: Readback.ReadbackResult)
    requires process.pc == FinalizeTask(result) && (store.task == ReadbackVerified || store.task == Verified)
    ensures Leads(id, store, process, store.(task := Verified), process.(pc := Finished(result)))
  {
    hide ResolverStep, RunnerStep, ReadbackStep, ExecutorStep;
    OneStep(id, store, process, Returns);
    if store.task == ReadbackVerified {
      var completing := process.(pc := CompleteTask(result));
      var moving := process.(pc := CompleteMove(result, ReadbackVerified));
      OneStep(id, store, completing, Returns);
      OneStep(id, store, moving, Returns);
      LeadsOn(id, store, process, store, completing, store, moving);
      LeadsOn(id, store, process, store, moving, store.(task := Verified), process.(pc := Finished(result)));
    } else {
      assert store.(task := Verified) == store;
    }
  }

  // ---------------------------------------------------------------- a lone executor finishes

  ghost predicate FinishedPair(store: Store, process: Process) {
    process.pc.Finished? && Statuses(store.row) == Some(CmdVerified) && store.task == Verified
  }

  ghost predicate Finishes(id: nat, store: Store, process: Process) {
    exists store', process' :: Leads(id, store, process, store', process') && FinishedPair(store', process')
  }

  lemma FinishesAfter(id: nat, a: Store, p: Process, b: Store, q: Process)
    requires Leads(id, a, p, b, q) && Finishes(id, b, q)
    ensures Finishes(id, a, p)
  {
    hide Leads;
    var c, r :| Leads(id, b, q, c, r) && FinishedPair(c, r);
    LeadsOn(id, a, p, b, q, c, r);
  }

  lemma FromFinalize(id: nat, store: Store, process: Process, result: Readback.ReadbackResult)
    requires process.pc == FinalizeTask(result) && Statuses(store.row) == Some(CmdVerified)
    requires store.task == ReadbackVerified || store.task == Verified
    ensures Finishes(id, store, process)
  {
    hide Leads;
    Finalizes(id, store, process, result);
    assert FinishedPair(store.(task := Verified), process.(pc := Finished(result)));
  }

  lemma FromRecorded(id: nat, store: Store, process: Process, result: Readback.ReadbackResult)
    requires process.pc == ReadCommand(AfterReadback(result)) && result.ok
    requires Statuses(store.row) == Some(CmdVerified) && Reconcilable(CmdVerified, store.task)
    ensures Finishes(id, store, process)
  {
    hide Leads, Finishes;
    var leveled, next := store.(task := TaskLeveled(CmdVerified, store.task)), process.(pc := FinalizeTask(result));
    Levels(id, store, process, AfterReadback(result));
    FromFinalize(id, leveled, next, result);
    FinishesAfter(id, store, process, leveled, next);
  }

  /** What Inv knows of the evidence beside a committed command that waits for its read-back. */
  predicate AwaitsReadback(store: Store, command: Command) {
    && store.row == Some(Row(command, CmdCommitted)) && Free(store) && store.readback.None?
    && store.receipt.Some? && HasIdentity(store.receipt.value, command)
  }

  lemma FromCommitted(id: nat, store: Store, process: Process)
    requires AwaitsReadback(store, process.command) && store.task == Committed
    requires process.pc == PerformReadback && process.receipt == store.receipt
    ensures Finishes(id, store, process)
  {
    hide Leads, Finishes, Verdict;
    var result := Verdict(process.command.requiredChecks);
    var recorded := WithStatus(store, CmdVerified).(readback := Some(result));
    var next := process.(pc := ReadCommand(AfterReadback(result)));
    WorkingHandlerIsAccepted(process.command.requiredChecks);
    ReadsBack(id, store, process);
    FromRecorded(id, recorded, next, result);
    FinishesAfter(id, store, process, recorded, next);
  }

  lemma FromRun(id: nat, store: Store, process: Process)
    requires AwaitsReadback(store, process.command) && Reconcilable(CmdCommitted, store.task)
    requires process.pc == ReadCommand(AfterRun) && process.receipt == store.receipt
    ensures Finishes(id, store, process)
  {
    hide Leads, Finishes;
    var leveled, next := store.(task := Committed), process.(pc := PerformReadback);
    Levels(id, store, process, AfterRun);
    FromCommitted(id, leveled, next);
    FinishesAfter(id, store, process, leveled, next);
  }

  /** A pending command that nobody has executed. */
  predicate AwaitsExecution(store: Store, command: Command, status: CommandStatus) {
    && store.row == Some(Row(command, status)) && Free(store) && store.receipt.None? && store.readback.None?
  }

  lemma FromPending(id: nat, store: Store, process: Process)
    requires AwaitsExecution(store, process.command, CmdPending) && store.task == ExecutionPending
    requires process.pc == FindReceipt(CmdPending)
    ensures Finishes(id, store, process)
  {
    hide Leads, Finishes;
    var locked := store.(lock := Executing(id, None, false));
    var executing := process.(receipt := store.receipt, pc := Execute);
    var done := Effected(locked, process.command).(lock := NoTransaction);
    var next := executing.(receipt := Some(ReceiptFor(process.command, 0)), pc := ReadCommand(AfterRun));
    Claims(id, store, process);
    Commits(id, locked, executing);
    LeadsOn(id, store, process, locked, executing, done, next);
    FromRun(id, done, next);
    FinishesAfter(id, store, process, done, next);
  }

  lemma RegisteredFinishes(id: nat, store: Store, process: Process)
    requires AwaitsExecution(store, process.command, CmdRegistered) && Reconcilable(CmdRegistered, store.task)
    requires process.pc == ReadCommand(AfterRegister)
    ensures Finishes(id, store, process)
  {
    hide Leads, Finishes;
    var leveled := store.(task := ExecutionPending);
    var marking, rereading := process.(pc := MarkPending(AfterRegister)), process.(pc := RereadCommand(AfterRegister));
    var pending, next := WithStatus(leveled, CmdPending), process.(pc := FindReceipt(CmdPending));
    Levels(id, store, process, AfterRegister);
    MarksPending(id, leveled, marking, AfterRegister);
    Rereads(id, pending, rereading, AfterRegister);
    LeadsOn(id, store, process, leveled, marking, pending, rereading);
    LeadsOn(id, store, process, pending, rereading, pending, next);
    FromPending(id, pending, next);
    FinishesAfter(id, store, process, pending, next);
  }

  lemma PendingFinishes(id: nat, store: Store, process: Process)
    requires AwaitsExecution(store, process.command, CmdPending) && Reconcilable(CmdPending, store.task)
    requires process.pc == ReadCommand(AfterRegister)
    ensures Finishes(id, store, process)
  {
    hide Leads, Finishes;
    var leveled, next := store.(task := ExecutionPending), process.(pc := FindReceipt(CmdPending));
    Levels(id, store, process, AfterRegister);
    FromPending(id, leveled, next);
    FinishesAfter(id, store, process, leveled, next);
  }

  lemma CommittedFinishes(id: nat, store: Store, process: Process)
    requires AwaitsReadback(store, process.command) && Reconcilable(CmdCommitted, store.task)
    requires process.pc == ReadCommand(AfterRegister)
    ensures Finishes(id, store, process)
  {
    hide Leads, Finishes;
    var leveled, finding := store.(task := Committed), process.(pc := FindReceipt(CmdCommitted));
    var next := process.(receipt := store.receipt, pc := PerformReadback);
    Levels(id, store, process, AfterRegister);
    FindsReceipt(id, leveled, finding);
    LeadsOn(id, store, process, leveled, finding, leveled, next);
    FromCommitted(id, leveled, next);
    FinishesAfter(id, store, process, leveled, next);
  }

  lemma VerifiedFinishes(id: nat, store: Store, process: Process)
    requires Statuses(store.row) == Some(CmdVerified) && Reconcilable(CmdVerified, store.task)
    requires store.receipt.Some? && store.readback.Some? && store.readback.value.ok
    requires process.pc == ReadCommand(AfterRegister)
    ensures Finishes(id, store, process)
  {
    hide Leads, Finishes;
    var leveled := store.(task := TaskLeveled(CmdVerified, store.task));
    var replaying := process.(pc := ReplayReceipt);
    var next := process.(receipt := store.receipt, pc := FinalizeTask(store.readback.value));
    Levels(id, store, process, AfterRegister);
    Replays(id, leveled, replaying);
    LeadsOn(id, store, process, leveled, replaying, leveled, next);
    FromFinalize(id, leveled, next, store.readback.value);
    FinishesAfter(id, store, process, leveled, next);
  }

  /** The pairs the resolver's switch accepts whose command has not failed, and an accepted task
      whose command is still to be registered. */
  predicate CanFinish(store: Store) {
    match Statuses(store.row)
    case None => store.task == CheckerValidated
    case Some(CmdExecutionFailed) => false
    case Some(CmdReadbackFailed) => false
    case Some(status) => Reconcilable(status, store.task)
  }

  lemma EnteredFinishes(id: nat, store: Store, process: Process)
    requires StoreInv(store) && Free(store) && CanFinish(store) && process.pc == ReadCommand(AfterRegister)
    requires store.row.Some? && store.row.value.command == process.command
    ensures Finishes(id, store, process)
  {
    hide Leads, Finishes;
    match store.row.value.status
    case CmdRegistered => RegisteredFinishes(id, store, process);
    case CmdPending => PendingFinishes(id, store, process);
    case CmdCommitted => CommittedFinishes(id, store, process);
    case CmdVerified => VerifiedFinishes(id, store, process);
  }

  lemma ExecutorFinishes(id: nat, store: Store, command: Command)
    requires StoreInv(store) && Free(store) && CanFinish(store)
    requires store.row.Some? ==> store.row.value.command == command
    ensures Finishes(id, store, Process(command, None, Register))
  {
    hide Leads, Finishes, Reconcilable;
    var process := Process(command, None, Register);
    var entered := if store.row.Some? then store else store.(row := Some(Row(command, CmdRegistered)));
    var next := process.(pc := ReadCommand(AfterRegister));
    Enters(id, store, process);
    if store.row.Some? {
      EnteredFinishes(id, store, next);
    } else {
      FirstIsReconcilable(store.task);
      RegisteredFinishes(id, entered, next);
    }
    FinishesAfter(id, store, process, entered, next);
  }

  lemma FirstIsReconcilable(task: TaskStatus)
    requires task == CheckerValidated
    ensures Reconcilable(CmdRegistered, task)
  {
  }

  // Recovery: whatever happened before, if the stored pair is in the resolver's table and the
  // command has not failed, a new executor of that command with a working handler carries it to
  // `verified`, once the server has dropped what a dead one left open.
  lemma LoneExecutorFinishes(run0: seq<State>, id: nat, command: Command) returns (run: seq<State>)
    requires IsRun(run0) && id !in Last(run0).processes && CanFinish(Last(run0).store)
    requires Last(run0).store.row.Some? ==> Last(run0).store.row.value.command == command
    ensures IsRun(run) && |run| > |run0| && run[..|run0|] == run0
    ensures id in Last(run).processes && FinishedPair(Last(run).store, Last(run).processes[id])
  {
    hide Leads;
    var freed := Extend(run0, ServerAborts);
    RunKeepsInv(freed, |freed| - 1);
    var started := Extend(freed, StartExecute(id, command));
    ExecutorFinishes(id, Last(freed).store, command);
    var store, process :| Leads(id, Last(freed).store, Process(command, None, Register), store, process)
                       && FinishedPair(store, process);
    run := LeadsRun(started, id, store, process);
    assert run[..|run0|] == run[..|started|][..|freed|][..|run0|];
  }

  // ---------------------------------------------------------------- a contended claim

  lemma MarksFailed(id: nat, store: Store, process: Process)
    requires store.row.Some? && store.row.value.status == CmdPending && Free(store) && process.pc == MarkFailed
    ensures Leads(id, store, process, WithStatus(store, CmdExecutionFailed),
                  process.(pc := ReadCommand(AfterMarkFailed)))
  {
    hide ResolverStep, RunnerStep, ReadbackStep, CompletionStep;
    OneStep(id, store, process, Returns);
  }

  /** The command has failed for good, and the task with it. */
  function GivenUp(store: Store): Store
    requires store.row.Some?
  {
    WithStatus(store, CmdExecutionFailed).(task := ExecutionFailed)
  }

  // The runner's claim raises an error that asks for no receipt lookup: the executor finds the
  // command pending still, marks it as failed and throws.
  lemma ClaimErrorFailsTheCommand(id: nat, store: Store, process: Process)
    requires store.row.Some? && store.row.value.status == CmdPending && Free(store)
    requires store.task == ExecutionPending && process.pc == Claim
    ensures Leads(id, store, process, GivenUp(store), process.(pc := Threw))
  {
    hide Leads, ResolverStep, ReadbackStep, CompletionStep, ExecutorStep;
    var raised, marking := process.(pc := ReadCommand(AfterRunError(false))), process.(pc := MarkFailed);
    var failed, reading := WithStatus(store, CmdExecutionFailed), process.(pc := ReadCommand(AfterMarkFailed));
    OneStep(id, store, process, Throws(false));
    Levels(id, store, raised, AfterRunError(false));
    assert store.(task := ExecutionPending) == store;
    MarksFailed(id, store, marking);
    Levels(id, failed, reading, AfterMarkFailed);
    LeadsOn(id, store, process, store, raised, store, marking);
    LeadsOn(id, store, process, store, marking, failed, reading);
    LeadsOn(id, store, process, failed, reading, GivenUp(store), process.(pc := Threw));
  }

  // At any point of any run at which an executor is about to claim a pending command, such an
  // error leads to a command that has failed without any effect.
  lemma ContendedClaimLosesTheCommand(run0: seq<State>, id: nat) returns (run: seq<State>)
    requires IsRun(run0) && id in Last(run0).processes && Last(run0).processes[id].pc == Claim
    requires Statuses(Last(run0).store.row) == Some(CmdPending) && Free(Last(run0).store)
    ensures IsRun(run) && |run| >= |run0| && run[..|run0|] == run0
    ensures Statuses(Last(run).store.row) == Some(CmdExecutionFailed) && Last(run).store.task == ExecutionFailed
    ensures Last(run).store.effects == 0 && id in Last(run).processes && Last(run).processes[id].pc == Threw
  {
    hide Leads;
    var store, process := Last(run0).store, Last(run0).processes[id];
    RunKeepsInv(run0, |run0| - 1);
    ClaimErrorFailsTheCommand(id, store, process);
    run := LeadsRun(run0, id, GivenUp(store), process.(pc := Threw));
  }

  // From there on the command stays failed and nothing is ever committed for it.
  lemma FailedIsFinal(run: seq<State>, i: nat, j: nat)
    requires IsRun(run) && i <= j < |run| && Statuses(run[i].store.row) == Some(CmdExecutionFailed)
    ensures Statuses(run[j].store.row) == Some(CmdExecutionFailed)
    ensures run[j].store.effects == 0 && run[j].store.receipt.None?
  {
    hide IsRun;
    RunNeverGoesBack(run, i, j);
    RunKeepsInv(run, j);
  }

  const READY := Store(None, CheckerValidated, None, None, 0, NoTransaction)

  // Such a point is reached: by the first executor of any command on an accepted task.
  lemma ReachesTheClaim(command: Command) returns (run: seq<State>)
    ensures IsRun(run) && 0 in Last(run).processes && Last(run).processes[0] == Process(command, None, Claim)
    ensures Last(run).store == READY.(row := Some(Row(command, CmdPending)), task := ExecutionPending)
  {
    hide Leads;
    var process := Process(command, None, Register);
    var registered, pending := READY.(row := Some(Row(command, CmdRegistered))),
                               READY.(row := Some(Row(command, CmdPending)));
    run := [State(READY, map[])];
    run := Extend(run, StartExecute(0, command));
    ReachesTheMark(0, command);
    MarksPending(0, registered.(task := ExecutionPending), process.(pc := MarkPending(AfterRegister)), AfterRegister);
    var store := pending.(task := ExecutionPending);
    var rereading, finding := process.(pc := RereadCommand(AfterRegister)), process.(pc := FindReceipt(CmdPending));
    Rereads(0, store, rereading, AfterRegister);
    FindsNone(0, store, finding);
    LeadsOn(0, READY, process, registered.(task := ExecutionPending), process.(pc := MarkPending(AfterRegister)),
            store, rereading);
    LeadsOn(0, READY, process, store, rereading, store, finding);
    LeadsOn(0, READY, process, store, finding, store, process.(pc := Claim));
    run := LeadsRun(run, 0, store, process.(pc := Claim));
  }

  lemma ReachesTheMark(id: nat, command: Command)
    ensures var process := Process(command, None, Register);
      Leads(id, READY, process, READY.(row := Some(Row(command, CmdRegistered)), task := ExecutionPending),
            process.(pc := MarkPending(AfterRegister)))
  {
    hide Leads;
    var process := Process(command, None, Register);
    var registered, reading := READY.(row := Some(Row(command, CmdRegistered))),
                               process.(pc := ReadCommand(AfterRegister));
    Enters(id, READY, process);
    Levels(id, registered, reading, AfterRegister);
    LeadsOn(id, READY, process, registered, reading, registered.(task := ExecutionPending),
            process.(pc := MarkPending(AfterRegister)));
  }

  lemma FindsNone(id: nat, store: Store, process: Process)
    requires store.row.Some? && process.pc == FindReceipt(CmdPending)
    ensures Leads(id, store, process, store, process.(receipt := store.receipt, pc := Claim))
  {
    hide ResolverStep, RunnerStep, ReadbackStep, CompletionStep;
    OneStep(id, store, process, Returns);
  }
}
