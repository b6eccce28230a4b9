/** Where the protocol leaves the resolver's table, and exactly when.

    After marking a command pending, the resolver reads it once more and hands that record back
    without looking at the task again (command-state-resolver.ts:55-56). If another executor has
    committed in between, the first one reads back and records on a task that still stands at
    `execution_pending`. The command is then finished and the task can no longer follow it. */
module MutationStranding {
  import opened Wrappers
  import opened TaskStateMachine
  import opened MutationProtocol
  import opened MutationSafety
  import opened MutationRuns
  import opened MutationCompletion
  import Readback

  /** The joint relation of the resolver's switch; a registered command may also sit beside a task
      that another component has ended. */
  predicate Tabled(store: Store) {
    match Statuses(store.row)
    case None => !InMutationLane(store.task)
    case Some(CmdRegistered) => Reconcilable(CmdRegistered, store.task) || !InMutationLane(store.task)
    case Some(status) => Reconcilable(status, store.task)
  }

  /** A finished read-back beside a task that was never moved to `committed`. */
  predicate Stranded(store: Store) {
    && Statuses(store.row) in {Some(CmdVerified), Some(CmdReadbackFailed)}
    && store.task == ExecutionPending
  }

  // Of the pairs that runs can reach, the stranded ones are exactly those outside the table.
  lemma OutsideTableIsStranded(store: Store)
    requires Joint(Statuses(store.row), store.task)
    ensures !Tabled(store) <==> Stranded(store)
  {
  }

  /** The step makes a read-back durable. */
  predicate RecordsReadback(before: Store, after: Store) {
    before.readback.None? && after.readback.Some?
  }

  // Exactly one kind of step leaves the table: recording a read-back while the task is still
  // at execution_pending.
  lemma LeavesTableIff(before: State, step: Step)
    requires Inv(before) && Tabled(before.store) && Apply(before, step).Some?
    ensures var after := Apply(before, step).value;
      !Tabled(after.store) <==>
      RecordsReadback(before.store, after.store) && before.store.task == ExecutionPending
  {
    hide ProcessStep, ProcessInv;
    var after := Apply(before, step).value;
    StepKeepsInv(before, step);
    if before.store.task != after.store.task && RecordsReadback(before.store, after.store) {
      OneWriteAtATime(before, step);
    }
  }

  // A step that records a read-back does not move the task.
  lemma OneWriteAtATime(before: State, step: Step)
    requires Inv(before) && Apply(before, step).Some?
    requires RecordsReadback(before.store, Apply(before, step).value.store)
    ensures before.store.task == Apply(before, step).value.store.task
  {
  }

  // ---------------------------------------------------------------- a run that leaves it

  // Process 0 registers and marks the command pending; process 1 replays it, commits and dies;
  // process 0 then reads the command again, reads back and records.
  lemma StrandingHappens(command: Command) returns (run: seq<State>)
    ensures IsRun(run) && !Tabled(Last(run).store)
    ensures Statuses(Last(run).store.row) == Some(CmdVerified) && Last(run).store.task == ExecutionPending
    ensures !SomeoneSawCommitted(Last(run))
  {
    hide Leads, IsRun, Apply;
    var done := Effected(PendingStore(command), command);
    run := OneWaitsOtherCommits(command);
    RecordsLate(command, done);
    var result := Verdict(command.requiredChecks);
    var recording := Process(command, Some(ReceiptFor(command, 0)), ReadCommand(AfterReadback(result)));
    run := LeadsRun(run, 0, WithStatus(done, CmdVerified).(readback := Some(result)), recording);
    assert Last(run).processes == map[0 := recording];
  }

  function PendingStore(command: Command): Store {
    READY.(row := Some(Row(command, CmdPending)), task := ExecutionPending)
  }

  lemma OneWaitsOtherCommits(command: Command) returns (run: seq<State>)
    ensures IsRun(run) && |run| > 0
    ensures Last(run) == State(Effected(PendingStore(command), command),
                               map[0 := Process(command, None, RereadCommand(AfterRegister))])
  {
    hide Leads, ProcessStep;
    var pending, rereading := PendingStore(command), Process(command, None, RereadCommand(AfterRegister));
    run := Extend([State(READY, map[])], StartExecute(0, command));
    MarksFirst(command);
    run := LeadsRun(run, 0, pending, rereading);
    assert Last(run).processes == map[0 := rereading];
    run := Extend(run, StartExecute(1, command));
    OtherCommits(command, pending);
    var committed := Process(command, Some(ReceiptFor(command, 0)), ReadCommand(AfterRun));
    run := LeadsRun(run, 1, Effected(pending, command), committed);
    run := Extend(run, Crash(1));
    assert Last(run).processes == map[0 := rereading];
  }

  lemma MarksFirst(command: Command)
    ensures Leads(0, READY, Process(command, None, Register),
                  READY.(row := Some(Row(command, CmdPending)), task := ExecutionPending),
                  Process(command, None, RereadCommand(AfterRegister)))
  {
    hide Leads;
    var process := Process(command, None, Register);
    var marking := process.(pc := MarkPending(AfterRegister));
    var registered := READY.(row := Some(Row(command, CmdRegistered)), task := ExecutionPending);
    ReachesTheMark(0, command);
    MarksPending(0, registered, marking, AfterRegister);
    LeadsOn(0, READY, process, registered, marking, WithStatus(registered, CmdPending),
            process.(pc := RereadCommand(AfterRegister)));
  }

  lemma OtherCommits(command: Command, pending: Store)
    requires pending == READY.(row := Some(Row(command, CmdPending)), task := ExecutionPending)
    ensures Leads(1, pending, Process(command, None, Register), Effected(pending, command),
                  Process(command, Some(ReceiptFor(command, 0)), ReadCommand(AfterRun)))
  {
    hide Leads;
    var process := Process(command, None, Register);
    var reading, finding := process.(pc := ReadCommand(AfterRegister)), process.(pc := FindReceipt(CmdPending));
    var locked, executing := pending.(lock := Executing(1, None, false)), process.(pc := Execute);
    var last := process.(receipt := Some(ReceiptFor(command, 0)), pc := ReadCommand(AfterRun));
    Enters(1, pending, process);
    Levels(1, pending, reading, AfterRegister);
    assert pending.(task := ExecutionPending) == pending;
    Claims(1, pending, finding);
    Commits(1, locked, executing);
    LeadsOn(1, pending, process, pending, reading, pending, finding);
    LeadsOn(1, pending, process, pending, finding, locked, executing);
    LeadsOn(1, pending, process, locked, executing, Effected(pending, command), last);
  }

  lemma RecordsLate(command: Command, done: Store)
    requires AwaitsReadback(done, command)
    ensures var result := Verdict(command.requiredChecks);
      Leads(0, done, Process(command, None, RereadCommand(AfterRegister)),
            WithStatus(done, CmdVerified).(readback := Some(result)),
            Process(command, done.receipt, ReadCommand(AfterReadback(result))))
  {
    hide Leads, Verdict;
    var process := Process(command, None, RereadCommand(AfterRegister));
    var finding := process.(pc := FindReceipt(CmdCommitted));
    var performing := process.(receipt := done.receipt, pc := PerformReadback);
    var result := Verdict(command.requiredChecks);
    Rereads(0, done, process, AfterRegister);
    FindsReceipt(0, done, finding);
    ReadsBack(0, done, performing);
    LeadsOn(0, done, process, done, finding, done, performing);
    LeadsOn(0, done, process, done, performing, WithStatus(done, CmdVerified).(readback := Some(result)),
            Process(command, done.receipt, ReadCommand(AfterReadback(result))));
  }

  // ---------------------------------------------------------------- no repair afterwards

  /** Some resolver call still holds the status `committed` it read earlier. */
  ghost predicate SomeoneSawCommitted(state: State) {
    exists id :: id in state.processes && SawCommitted(state.processes[id].pc)
  }

  predicate SawCommitted(pc: Pc) {
    (pc.ReadTask? || pc.MoveTask?) && pc.seen == CmdCommitted
  }

  /** The pair stays, and the process does not learn `committed`. */
  ghost predicate StaysStranded(before: Store, reply: (Store, Process)) {
    reply.0.row == before.row && reply.0.task == before.task && !SawCommitted(reply.1.pc)
  }

  lemma StrandedResolverStep(store: Store, process: Process, outcome: Outcome)
    requires StoreInv(store) && ProcessInv(store, process) && Stranded(store) && !SawCommitted(process.pc)
    requires InResolver(process.pc) && store.row.Some? && ResolverStep(store, process, outcome).Some?
    ensures StaysStranded(store, ResolverStep(store, process, outcome).value)
  {
    hide Readback.Observe, Readback.Accepts;
  }

  lemma StrandedRunnerStep(store: Store, id: nat, process: Process, outcome: Outcome)
    requires StoreInv(store) && ProcessInv(store, process) && Stranded(store)
    requires InRunner(process.pc) && store.row.Some? && RunnerStep(store, id, process, outcome).Some?
    ensures StaysStranded(store, RunnerStep(store, id, process, outcome).value)
  {
    hide Readback.Observe, Readback.Accepts;
  }

  lemma StrandedReadbackStep(store: Store, id: nat, process: Process, outcome: Outcome)
    requires StoreInv(store) && ProcessInv(store, process) && Stranded(store)
    requires InReadback(process.pc) && store.row.Some? && ReadbackStep(store, id, process, outcome).Some?
    ensures StaysStranded(store, ReadbackStep(store, id, process, outcome).value)
  {
    hide Readback.Observe, Readback.Accepts;
  }

  // One step of any process from a stranded pair keeps it, and no process learns `committed`.
  lemma StrandedStep(store: Store, id: nat, process: Process, outcome: Outcome)
    requires StoreInv(store) && ProcessInv(store, process) && Stranded(store) && !SawCommitted(process.pc)
    requires ProcessStep(store, id, process, outcome).Some?
    ensures StaysStranded(store, ProcessStep(store, id, process, outcome).value)
  {
    hide Readback.Observe, Readback.Accepts, ResolverStep, RunnerStep, ReadbackStep;
    if store.row.Some? && InResolver(process.pc) {
      StrandedResolverStep(store, process, outcome);
    } else if store.row.Some? && InRunner(process.pc) {
      StrandedRunnerStep(store, id, process, outcome);
    } else if store.row.Some? && InReadback(process.pc) {
      StrandedReadbackStep(store, id, process, outcome);
    }
  }

  lemma StrandedNext(before: State, step: Step)
    requires Inv(before) && Stranded(before.store) && !SomeoneSawCommitted(before)
    requires Apply(before, step).Some?
    ensures var after := Apply(before, step).value;
      && after.store.row == before.store.row
      && after.store.task == before.store.task
      && !SomeoneSawCommitted(after)
  {
    hide ProcessStep, ProcessInv;
    var after := Apply(before, step).value;
    if step.Advance? {
      StrandedStep(before.store, step.process, before.processes[step.process], step.outcome);
    }
    forall id | id in after.processes
      ensures !SawCommitted(after.processes[id].pc)
    {
      if id in before.processes {
        assert !SawCommitted(before.processes[id].pc);
      }
    }
  }

  // Unless a resolver call already holds `committed`, a stranded pair stays as it is for ever:
  // later executions of the command, however many, neither finish nor move the task.
  lemma {:induction false} StrandedForever(run: seq<State>, i: nat, j: nat)
    requires IsRun(run) && i <= j < |run|
    requires Stranded(run[i].store) && !SomeoneSawCommitted(run[i])
    ensures run[j].store.row == run[i].store.row && run[j].store.task == ExecutionPending
    ensures !SomeoneSawCommitted(run[j])
    ensures forall id :: id in run[j].processes ==> !run[j].processes[id].pc.Finished?
    decreases j - i
  {
    hide Apply, StoreInv, PcInv;
    RunKeepsInv(run, i);
    if i < j {
      StrandedForever(run, i, j - 1);
      RunKeepsInv(run, j - 1);
      assert Next(run[j - 1], run[j - 1 + 1]);
      var step :| Apply(run[j - 1], step) == Some(run[j]);
      StrandedNext(run[j - 1], step);
    }
    RunKeepsInv(run, j);
    forall id | id in run[j].processes
      ensures !run[j].processes[id].pc.Finished?
    {
      FinishedIsVerified(run[j].store, run[j].processes[id]);
    }
  }

  lemma FinishedIsVerified(store: Store, process: Process)
    requires ProcessInv(store, process)
    ensures process.pc.Finished? ==> store.task == Verified
  {
  }
}
