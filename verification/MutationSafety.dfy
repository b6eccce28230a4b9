/** What every run of the checked-mutation protocol keeps: one effect at most, a receipt exactly
    when it was committed, evidence behind every verified outcome, and no way back. */
module MutationSafety {
  import opened Wrappers
  import opened TaskStateMachine
  import opened MutationProtocol
  import Readback

  /** The order in which a command status may develop. */
  predicate Reaches(earlier: CommandStatus, later: CommandStatus) {
    || earlier == later
    || earlier == CmdRegistered
    || (earlier == CmdPending && later != CmdRegistered)
    || (earlier == CmdCommitted && later in {CmdVerified, CmdReadbackFailed})
  }

  predicate HasCommitted(status: CommandStatus) {
    Reaches(CmdCommitted, status)
  }

  function Statuses(row: Option<Row>): Option<CommandStatus> {
    if row.Some? then Some(row.value.status) else None
  }

  /** The pairs of command and task status that runs can reach. The two that pair a finished
      read-back with `execution_pending` are outside the resolver's table; see MutationStranding. */
  predicate Joint(status: Option<CommandStatus>, task: TaskStatus) {
    match status
    case None => !InMutationLane(task)
    case Some(CmdRegistered) => task == ExecutionPending || !InMutationLane(task)
    case Some(CmdPending) => task == ExecutionPending
    case Some(CmdCommitted) => task in {ExecutionPending, Committed}
    case Some(CmdVerified) => task in {ExecutionPending, Committed, ReadbackVerified, Verified}
    case Some(CmdExecutionFailed) => task in {ExecutionPending, ExecutionFailed}
    case Some(CmdReadbackFailed) => task in {ExecutionPending, Committed, ReadbackFailed}
  }

  predicate LockInv(store: Store, row: Row) {
    match store.lock
    case NoTransaction => true
    case Executing(_, staged, commitSent) =>
      && row.status == CmdPending
      && (commitSent ==> staged.Some?)
      && (staged.Some? ==> HasIdentity(staged.value, row.command))
    case RecordingReadback(_, result) =>
      && row.status == CmdCommitted
      && (result.ok ==> Readback.Accepts(row.command.requiredChecks, result))
  }

  predicate RowInv(store: Store, row: Row) {
    && LockInv(store, row)
    && store.effects == (if HasCommitted(row.status) then 1 else 0)
    && (store.receipt.Some? <==> HasCommitted(row.status))
    && (store.receipt.Some? ==> HasIdentity(store.receipt.value, row.command))
    && (store.readback.Some? <==> row.status in {CmdVerified, CmdReadbackFailed})
    && (store.readback.Some? ==>
          && (store.readback.value.ok <==> row.status == CmdVerified)
          && (store.readback.value.ok ==> Readback.Accepts(row.command.requiredChecks, store.readback.value)))
  }

  predicate StoreInv(store: Store) {
    && Joint(Statuses(store.row), store.task)
    && (store.row.None? ==>
          store.receipt.None? && store.readback.None? && store.effects == 0 && store.lock == NoTransaction)
    && (store.row.Some? ==> RowInv(store, store.row.value))
  }

  predicate Evidence(store: Store, process: Process, result: Readback.ReadbackResult) {
    && process.receipt.Some?
    && store.readback == Some(result)
    && result.ok
    && Statuses(store.row) == Some(CmdVerified)
  }

  predicate SiteInv(store: Store, process: Process, site: Site) {
    site.AfterReadback? ==> process.receipt.Some? && store.readback == Some(site.recorded)
  }

  /** What a process that has registered its command may rely on at each program counter. */
  predicate PcInv(store: Store, process: Process)
    requires store.row.Some?
  {
    var status := store.row.value.status;
    match process.pc
    case ReadCommand(site) => SiteInv(store, process, site)
    case ReadTask(site, seen) => SiteInv(store, process, site) && Reaches(seen, status)
    case MoveTask(site, seen) => SiteInv(store, process, site) && Reaches(seen, status)
    case MarkPending(site) =>
      SiteInv(store, process, site) && (status == CmdRegistered ==> store.task == ExecutionPending)
    case RereadCommand(site) => SiteInv(store, process, site) && status != CmdRegistered
    case FindReceipt(seen) => Reaches(seen, status)
    case FindReceiptAgain(seen) => Reaches(seen, status)
    case PerformReadback => process.receipt.Some?
    case RecordReadback(result) =>
      process.receipt.Some? && (result.ok ==> Readback.Accepts(process.command.requiredChecks, result))
    case AwaitReadback(result) => process.receipt.Some?
    case LookupReadback => process.receipt.Some?
    case ReplayReceipt => status == CmdVerified
    case ReplayReadback => status == CmdVerified
    case FinalizeTask(result) => Evidence(store, process, result)
    case CompleteTask(result) => Evidence(store, process, result)
    case CompleteMove(result, expected) =>
      Evidence(store, process, result) && expected in {CheckerValidated, ReadbackVerified}
    case Finished(result) => Evidence(store, process, result) && store.task == Verified
    case _ => InRunner(process.pc) ==> status != CmdRegistered
  }

  predicate ProcessInv(store: Store, process: Process) {
    match process.pc
    case Register => process.receipt.None?
    case CancelTask => true
    case CancelMove(expected) => expected in {CheckerValidated, ReadbackVerified}
    case Cancelled => store.task == Partial
    case Threw => true
    case _ =>
      && store.row.Some?
      && store.row.value.command == process.command
      && (process.receipt.Some? ==> store.receipt == process.receipt)
      && PcInv(store, process)
  }

  ghost predicate Inv(state: State) {
    && StoreInv(state.store)
    && forall id :: id in state.processes ==> ProcessInv(state.store, state.processes[id])
  }

  /** What any step, of whichever process, does at most to the durable state. */
  predicate Rely(before: Store, after: Store) {
    && (before.row.Some? ==>
          && after.row.Some?
          && after.row.value.command == before.row.value.command
          && Reaches(before.row.value.status, after.row.value.status))
    && (before.receipt.Some? ==> after.receipt == before.receipt)
    && (before.readback.Some? ==> after.readback == before.readback)
    && before.effects <= after.effects
    && (before.task == after.task || IsAllowedTransition(before.task, after.task))
  }

  lemma ReachesTransitive(a: CommandStatus, b: CommandStatus, c: CommandStatus)
    requires Reaches(a, b) && Reaches(b, c)
    ensures Reaches(a, c)
  {
  }

  // Facts one process relies on survive the steps of all others.
  lemma Stable(before: Store, after: Store, process: Process)
    requires StoreInv(before) && StoreInv(after) && Rely(before, after)
    requires ProcessInv(before, process)
    ensures ProcessInv(after, process)
  {
  }

  lemma CommitKeeps(store: Store)
    requires StoreInv(store) && CanCommit(store)
    ensures StoreInv(CommitTransaction(store)) && Rely(store, CommitTransaction(store))
  {
  }

  /** The part of ProcessInv that does not depend on the program counter. */
  predicate Enrolled(store: Store, process: Process) {
    && store.row.Some?
    && store.row.value.command == process.command
    && (process.receipt.Some? ==> store.receipt == process.receipt)
  }

  lemma ResolvedKeeps(store: Store, process: Process, site: Site, seen: CommandStatus)
    requires StoreInv(store) && Enrolled(store, process) && SiteInv(store, process, site)
    requires Reaches(seen, store.row.value.status)
    ensures ProcessInv(store, Resolved(process, site, seen))
  {
  }

  lemma UnresolvedKeeps(store: Store, process: Process, site: Site)
    requires Enrolled(store, process)
    ensures ProcessInv(store, Unresolved(process, site))
  {
  }

  lemma ReadStepKeeps(store: Store, process: Process, outcome: Outcome)
    requires StoreInv(store) && ProcessInv(store, process) && store.row.Some?
    requires process.pc.ReadCommand? || process.pc.ReadTask? || process.pc.RereadCommand?
    requires ResolverStep(store, process, outcome).Some?
    ensures var (store', process') := ResolverStep(store, process, outcome).value;
      store' == store && ProcessInv(store', process')
  {
    hide Resolved, Unresolved, RowInv, Readback.Accepts;
    UnresolvedKeeps(store, process, process.pc.site);
    if process.pc.ReadTask? {
      ResolvedKeeps(store, process, process.pc.site, process.pc.seen);
    } else {
      ResolvedKeeps(store, process, process.pc.site, store.row.value.status);
    }
  }

  lemma MoveStepKeeps(store: Store, process: Process, outcome: Outcome)
    requires StoreInv(store) && ProcessInv(store, process) && store.row.Some? && process.pc.MoveTask?
    requires ResolverStep(store, process, outcome).Some?
    ensures var (store', process') := ResolverStep(store, process, outcome).value;
      StoreInv(store') && Rely(store, store') && ProcessInv(store', process')
  {
    hide Resolved, Unresolved, Readback.Accepts;
    var (store', process') := ResolverStep(store, process, outcome).value;
    assert StoreInv(store') && Rely(store, store');
    UnresolvedKeeps(store', process, process.pc.site);
    ResolvedKeeps(store', process, process.pc.site, process.pc.seen);
  }

  lemma MarkStepKeeps(store: Store, process: Process, outcome: Outcome)
    requires StoreInv(store) && ProcessInv(store, process) && store.row.Some? && process.pc.MarkPending?
    requires ResolverStep(store, process, outcome).Some?
    ensures var (store', process') := ResolverStep(store, process, outcome).value;
      StoreInv(store') && Rely(store, store') && ProcessInv(store', process')
  {
    UnresolvedKeeps(store, process, process.pc.site);
    var (store', process') := ResolverStep(store, process, outcome).value;
    UnresolvedKeeps(store', process, process.pc.site);
  }

  lemma ResolverStepKeeps(store: Store, process: Process, outcome: Outcome)
    requires StoreInv(store) && ProcessInv(store, process) && store.row.Some? && InResolver(process.pc)
    requires ResolverStep(store, process, outcome).Some?
    ensures var (store', process') := ResolverStep(store, process, outcome).value;
      StoreInv(store') && Rely(store, store') && ProcessInv(store', process')
  {
    hide StoreInv, ProcessInv, ResolverStep;
    if process.pc.MoveTask? {
      MoveStepKeeps(store, process, outcome);
    } else if process.pc.MarkPending? {
      MarkStepKeeps(store, process, outcome);
    } else {
      ReadStepKeeps(store, process, outcome);
    }
  }

  lemma RunnerStepKeeps(store: Store, id: nat, process: Process, outcome: Outcome)
    requires StoreInv(store) && ProcessInv(store, process) && store.row.Some? && InRunner(process.pc)
    requires RunnerStep(store, id, process, outcome).Some?
    ensures var (store', process') := RunnerStep(store, id, process, outcome).value;
      StoreInv(store') && Rely(store, store') && ProcessInv(store', process')
  {
    if process.pc.AwaitCommit? && outcome == Returns {
      CommitKeeps(store);
    }
  }

  lemma ReadbackStepKeeps(store: Store, id: nat, process: Process, outcome: Outcome)
    requires StoreInv(store) && ProcessInv(store, process) && store.row.Some? && InReadback(process.pc)
    requires ReadbackStep(store, id, process, outcome).Some?
    ensures var (store', process') := ReadbackStep(store, id, process, outcome).value;
      StoreInv(store') && Rely(store, store') && ProcessInv(store', process')
  {
    if process.pc.AwaitReadback? && outcome == Returns {
      CommitKeeps(store);
    }
    if process.pc.PerformReadback? && outcome.Answers? {
      var receiptOk := store.receipt.Some? && HasIdentity(store.receipt.value, process.command)
        && store.receipt.value.receiptId == process.receipt.value.receiptId;
      Readback.ObservedIsSound(process.command.requiredChecks, outcome.domain, receiptOk, outcome.failureCode);
    }
  }

  lemma CompletionCallKeeps(store: Store, process: Process, outcome: Outcome)
    requires StoreInv(store) && ProcessInv(store, process)
    requires process.pc.FinalizeTask? || process.pc.CompleteTask? || process.pc.CancelTask?
    requires CompletionStep(store, process, outcome).Some?
    ensures var (store', process') := CompletionStep(store, process, outcome).value;
      StoreInv(store') && Rely(store, store') && ProcessInv(store', process')
  {
    hide RowInv, Readback.Accepts, HasIdentity;
  }

  lemma CompleteMoveKeeps(store: Store, process: Process, outcome: Outcome)
    requires StoreInv(store) && ProcessInv(store, process)
    requires process.pc.CompleteMove?
    requires CompletionStep(store, process, outcome).Some?
    ensures var (store', process') := CompletionStep(store, process, outcome).value;
      StoreInv(store') && Rely(store, store') && ProcessInv(store', process')
  {
    hide RowInv, Readback.Accepts, HasIdentity;
    var (store', process') := CompletionStep(store, process, outcome).value;
    TaskMoveKeepsRow(store, store'.task);
  }

  lemma CancelMoveKeeps(store: Store, process: Process, outcome: Outcome)
    requires StoreInv(store) && ProcessInv(store, process)
    requires process.pc.CancelMove?
    requires CompletionStep(store, process, outcome).Some?
    ensures var (store', process') := CompletionStep(store, process, outcome).value;
      StoreInv(store') && Rely(store, store') && ProcessInv(store', process')
  {
    hide RowInv, Readback.Accepts, HasIdentity;
    var (store', process') := CompletionStep(store, process, outcome).value;
    TaskMoveKeepsRow(store, store'.task);
  }

  // The evidence beside a row does not depend on where the task stands.
  lemma TaskMoveKeepsRow(store: Store, task: TaskStatus)
    ensures store.row.Some? ==> (RowInv(store.(task := task), store.row.value) <==> RowInv(store, store.row.value))
  {
  }

  lemma CompletionStepKeeps(store: Store, process: Process, outcome: Outcome)
    requires StoreInv(store) && ProcessInv(store, process)
    requires InCompletion(process.pc)
    requires CompletionStep(store, process, outcome).Some?
    ensures var (store', process') := CompletionStep(store, process, outcome).value;
      StoreInv(store') && Rely(store, store') && ProcessInv(store', process')
  {
    hide StoreInv, ProcessInv, Rely, CompletionStep;
    if process.pc.CompleteMove? {
      CompleteMoveKeeps(store, process, outcome);
    } else if process.pc.CancelMove? {
      CancelMoveKeeps(store, process, outcome);
    } else {
      CompletionCallKeeps(store, process, outcome);
    }
  }

  lemma RegisterKeeps(store: Store, process: Process, outcome: Outcome)
    requires StoreInv(store) && ProcessInv(store, process)
    requires process.pc.Register?
    requires ExecutorStep(store, process, outcome).Some?
    ensures var (store', process') := ExecutorStep(store, process, outcome).value;
      StoreInv(store') && Rely(store, store') && ProcessInv(store', process')
  {
    hide Readback.Accepts, HasIdentity;
  }

  lemma LookupKeeps(store: Store, process: Process, outcome: Outcome)
    requires StoreInv(store) && ProcessInv(store, process)
    requires !process.pc.Register? && !process.pc.MarkFailed?
    requires ExecutorStep(store, process, outcome).Some?
    ensures var (store', process') := ExecutorStep(store, process, outcome).value;
      StoreInv(store') && Rely(store, store') && ProcessInv(store', process')
  {
    hide RowInv, Readback.Accepts, HasIdentity;
    assert store.row.Some? ==> RowInv(store, store.row.value);
    EvidenceOfRow(store);
  }

  lemma EvidenceOfRow(store: Store)
    requires StoreInv(store) && store.row.Some?
    ensures store.receipt.Some? <==> HasCommitted(store.row.value.status)
    ensures store.readback.Some? && store.readback.value.ok ==> store.row.value.status == CmdVerified
  {
  }

  lemma MarkFailedKeeps(store: Store, process: Process, outcome: Outcome)
    requires StoreInv(store) && ProcessInv(store, process)
    requires process.pc.MarkFailed?
    requires ExecutorStep(store, process, outcome).Some?
    ensures var (store', process') := ExecutorStep(store, process, outcome).value;
      StoreInv(store') && Rely(store, store') && ProcessInv(store', process')
  {
    hide Readback.Accepts, HasIdentity;
  }

  lemma ExecutorStepKeeps(store: Store, process: Process, outcome: Outcome)
    requires StoreInv(store) && ProcessInv(store, process)
    requires ExecutorStep(store, process, outcome).Some?
    ensures var (store', process') := ExecutorStep(store, process, outcome).value;
      StoreInv(store') && Rely(store, store') && ProcessInv(store', process')
  {
    hide StoreInv, ProcessInv, Rely, ExecutorStep;
    if process.pc.Register? {
      RegisterKeeps(store, process, outcome);
    } else if process.pc.MarkFailed? {
      MarkFailedKeeps(store, process, outcome);
    } else {
      LookupKeeps(store, process, outcome);
    }
  }

  lemma ProcessStepKeeps(store: Store, id: nat, process: Process, outcome: Outcome)
    requires StoreInv(store) && ProcessInv(store, process)
    requires ProcessStep(store, id, process, outcome).Some?
    ensures var (store', process') := ProcessStep(store, id, process, outcome).value;
      StoreInv(store') && Rely(store, store') && ProcessInv(store', process')
  {
    hide StoreInv, ProcessInv, Rely, CompletionStep, ResolverStep, RunnerStep, ReadbackStep, ExecutorStep;
    if InCompletion(process.pc) {
      CompletionStepKeeps(store, process, outcome);
    } else if store.row.Some? && InResolver(process.pc) {
      ResolverStepKeeps(store, process, outcome);
    } else if store.row.Some? && InRunner(process.pc) {
      RunnerStepKeeps(store, id, process, outcome);
    } else if store.row.Some? && InReadback(process.pc) {
      ReadbackStepKeeps(store, id, process, outcome);
    } else {
      ExecutorStepKeeps(store, process, outcome);
    }
  }

  // A step that keeps the durable invariant keeps the whole one, provided the processes it
  // changed are accounted for.
  lemma OthersKeep(before: State, after: State)
    requires Inv(before) && StoreInv(after.store) && Rely(before.store, after.store)
    requires forall id :: id in after.processes ==>
      || ProcessInv(after.store, after.processes[id])
      || (id in before.processes && after.processes[id] == before.processes[id])
    ensures Inv(after)
  {
    hide StoreInv, ProcessInv, Rely;
    forall id | id in after.processes
      ensures ProcessInv(after.store, after.processes[id])
    {
      if id in before.processes && after.processes[id] == before.processes[id] {
        Stable(before.store, after.store, before.processes[id]);
      }
    }
  }

  lemma AdvanceKeepsInv(before: State, id: nat, outcome: Outcome)
    requires Inv(before) && id in before.processes
    requires ProcessStep(before.store, id, before.processes[id], outcome).Some?
    ensures var (store', process') := ProcessStep(before.store, id, before.processes[id], outcome).value;
      Inv(State(store', before.processes[id := process'])) && Rely(before.store, store')
  {
    hide StoreInv, ProcessInv, Rely, ProcessStep;
    ProcessStepKeeps(before.store, id, before.processes[id], outcome);
    var (store', process') := ProcessStep(before.store, id, before.processes[id], outcome).value;
    OthersKeep(before, State(store', before.processes[id := process']));
  }

  lemma StepKeepsInv(before: State, step: Step)
    requires Inv(before) && Apply(before, step).Some?
    ensures Inv(Apply(before, step).value) && Rely(before.store, Apply(before, step).value.store)
  {
    var after := Apply(before, step).value;
    match step
    case Advance(id, outcome) =>
      AdvanceKeepsInv(before, id, outcome);
    case ServerCommits =>
      CommitKeeps(before.store);
      OthersKeep(before, after);
    case _ =>
      OthersKeep(before, after);
  }

  lemma NextKeepsInv(before: State, after: State)
    requires Inv(before) && Next(before, after)
    ensures Inv(after) && Rely(before.store, after.store)
  {
    var step :| Apply(before, step) == Some(after);
    StepKeepsInv(before, step);
  }

  lemma {:induction false} RunKeepsInv(run: seq<State>, i: nat)
    requires IsRun(run) && i < |run|
    ensures Inv(run[i])
  {
    if i > 0 {
      RunKeepsInv(run, i - 1);
      assert Next(run[i - 1], run[i - 1 + 1]);
      NextKeepsInv(run[i - 1], run[i]);
    }
  }
}
