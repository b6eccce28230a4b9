/** Runs in which the resolver's second read of a command (command-state-resolver.ts:56) never
    returns a record that another executor has already moved past `execution_pending`. In these
    the two records stay within the resolver's table throughout. */
module MutationFreshReads {
  import opened Wrappers
  import opened TaskStateMachine
  import opened MutationProtocol
  import opened MutationSafety
  import opened MutationStranding
  import Readback

  /** The resolver hands back, unreconciled, a record it did not just mark pending itself. */
  predicate ReturnsUnchecked(before: State, step: Step) {
    && step.Advance? && step.outcome == Returns
    && step.process in before.processes
    && before.processes[step.process].pc.RereadCommand?
    && Statuses(before.store.row) != Some(CmdPending)
  }

  predicate TaskVerified(store: Store) {
    store.task in {ReadbackVerified, Verified}
  }

  predicate FreshPc(store: Store, pc: Pc) {
    match pc
    case ReadTask(site, seen) => site.AfterReadback? ==> seen in {CmdVerified, CmdReadbackFailed}
    case MoveTask(site, seen) => site.AfterReadback? ==> seen in {CmdVerified, CmdReadbackFailed}
    case MarkPending(site) => !site.AfterReadback?
    case RereadCommand(site) => !site.AfterReadback?
    case FindReceipt(seen) => seen != CmdVerified && (seen == CmdCommitted ==> store.task != ExecutionPending)
    case FindReceiptAgain(seen) => seen == CmdCommitted ==> store.task != ExecutionPending
    case PerformReadback => store.task != ExecutionPending
    case RecordReadback(_) => store.task != ExecutionPending
    case AwaitReadback(_) => store.task != ExecutionPending
    case LookupReadback => store.task != ExecutionPending
    case ReplayReceipt => TaskVerified(store)
    case ReplayReadback => TaskVerified(store)
    case FinalizeTask(_) => TaskVerified(store)
    case CompleteTask(_) => TaskVerified(store)
    case CompleteMove(_, _) => TaskVerified(store)
    case _ => true
  }

  predicate FreshStore(store: Store) {
    Tabled(store) && (store.lock.RecordingReadback? ==> store.task != ExecutionPending)
  }

  ghost predicate FreshInv(state: State) {
    && Inv(state)
    && FreshStore(state.store)
    && forall id :: id in state.processes ==> FreshPc(state.store, state.processes[id].pc)
  }

  lemma FreshStable(before: Store, after: Store, process: Process)
    requires StoreInv(before) && StoreInv(after) && Rely(before, after)
    requires ProcessInv(before, process) && FreshPc(before, process.pc)
    ensures FreshPc(after, process.pc)
  {
    hide Readback.Accepts;
  }

  lemma FreshResolved(store: Store, process: Process, site: Site, seen: CommandStatus)
    requires Level(seen, store.task)
    requires site.AfterReadback? ==> seen in {CmdVerified, CmdReadbackFailed}
    ensures FreshPc(store, Resolved(process, site, seen).pc)
  {
  }

  lemma FreshResolverStep(store: Store, process: Process, outcome: Outcome)
    requires StoreInv(store) && ProcessInv(store, process) && store.row.Some? && InResolver(process.pc)
    requires FreshStore(store) && FreshPc(store, process.pc)
    requires process.pc.RereadCommand? && outcome == Returns ==> store.row.value.status == CmdPending
    requires ResolverStep(store, process, outcome).Some?
    ensures var (store', process') := ResolverStep(store, process, outcome).value;
      FreshStore(store') && FreshPc(store', process'.pc)
  {
    hide Resolved, Readback.Accepts, RowInv;
    var (store', process') := ResolverStep(store, process, outcome).value;
    if process.pc.ReadTask? && Level(process.pc.seen, store.task) {
      FreshResolved(store, process, process.pc.site, process.pc.seen);
    }
    if process.pc.MoveTask? && Level(process.pc.seen, store'.task) {
      FreshResolved(store', process, process.pc.site, process.pc.seen);
    }
    if process.pc.RereadCommand? && outcome == Returns {
      FreshResolved(store, process, process.pc.site, CmdPending);
    }
    if process.pc.ReadCommand? && process.pc.site.AfterReadback? {
      AfterReadbackIsFinal(store, process);
    }
    if process.pc.MoveTask? && store' != store {
      MoveStepKeeps(store, process, outcome);
    }
    if process.pc.MarkPending? && store' != store {
      MarkStepKeeps(store, process, outcome);
    }
    FreshWhenCommitted(store, store');
  }

  lemma FreshWhenCommitted(before: Store, after: Store)
    requires StoreInv(before) && StoreInv(after) && Rely(before, after) && FreshStore(before)
    requires before.lock == after.lock && before.readback == after.readback
    ensures FreshStore(after)
  {
    hide Readback.Accepts;
    OutsideTableIsStranded(after);
  }

  lemma AfterReadbackIsFinal(store: Store, process: Process)
    requires StoreInv(store) && ProcessInv(store, process)
    requires process.pc.ReadCommand? && process.pc.site.AfterReadback?
    ensures store.row.value.status in {CmdVerified, CmdReadbackFailed}
  {
  }

  lemma FreshRunnerStep(store: Store, id: nat, process: Process, outcome: Outcome)
    requires StoreInv(store) && ProcessInv(store, process) && store.row.Some? && InRunner(process.pc)
    requires FreshStore(store) && FreshPc(store, process.pc)
    requires RunnerStep(store, id, process, outcome).Some?
    ensures var (store', process') := RunnerStep(store, id, process, outcome).value;
      FreshStore(store') && FreshPc(store', process'.pc)
  {
    hide Readback.Accepts, Readback.Observe;
  }

  lemma FreshReadbackStep(store: Store, id: nat, process: Process, outcome: Outcome)
    requires StoreInv(store) && ProcessInv(store, process) && store.row.Some? && InReadback(process.pc)
    requires FreshStore(store) && FreshPc(store, process.pc)
    requires ReadbackStep(store, id, process, outcome).Some?
    ensures var (store', process') := ReadbackStep(store, id, process, outcome).value;
      FreshStore(store') && FreshPc(store', process'.pc)
  {
    hide Readback.Accepts, Readback.Observe;
  }

  lemma FreshCompletionStep(store: Store, process: Process, outcome: Outcome)
    requires StoreInv(store) && ProcessInv(store, process) && InCompletion(process.pc)
    requires FreshStore(store) && FreshPc(store, process.pc)
    requires CompletionStep(store, process, outcome).Some?
    ensures var (store', process') := CompletionStep(store, process, outcome).value;
      FreshStore(store') && FreshPc(store', process'.pc)
  {
    hide Readback.Accepts, Readback.Observe;
  }

  lemma FreshExecutorStep(store: Store, process: Process, outcome: Outcome)
    requires StoreInv(store) && ProcessInv(store, process)
    requires FreshStore(store) && FreshPc(store, process.pc)
    requires ExecutorStep(store, process, outcome).Some?
    ensures var (store', process') := ExecutorStep(store, process, outcome).value;
      FreshStore(store') && FreshPc(store', process'.pc)
  {
    hide Readback.Accepts, Readback.Observe;
  }

  lemma FreshStep(before: State, step: Step)
    requires FreshInv(before) && Apply(before, step).Some? && !ReturnsUnchecked(before, step)
    ensures FreshInv(Apply(before, step).value)
  {
    hide StoreInv, ProcessInv, ProcessStep, FreshStore, FreshPc, CommitTransaction;
    var after := Apply(before, step).value;
    StepKeepsInv(before, step);
    if step.Advance? {
      var process := before.processes[step.process];
      FreshProcessStep(before.store, step.process, process, step.outcome);
    } else {
      FreshSystemStep(before, step);
    }
    forall id | id in after.processes
      ensures FreshPc(after.store, after.processes[id].pc)
    {
      if id in before.processes && after.processes[id] == before.processes[id] {
        FreshStable(before.store, after.store, before.processes[id]);
      }
    }
  }

  lemma FreshProcessStep(store: Store, id: nat, process: Process, outcome: Outcome)
    requires StoreInv(store) && ProcessInv(store, process)
    requires FreshStore(store) && FreshPc(store, process.pc)
    requires process.pc.RereadCommand? && outcome == Returns ==> Statuses(store.row) == Some(CmdPending)
    requires ProcessStep(store, id, process, outcome).Some?
    ensures var (store', process') := ProcessStep(store, id, process, outcome).value;
      FreshStore(store') && FreshPc(store', process'.pc)
  {
    hide FreshPc, FreshStore, StoreInv, ProcessInv,
      ResolverStep, RunnerStep, ReadbackStep, CompletionStep, ExecutorStep;
    if InCompletion(process.pc) {
      FreshCompletionStep(store, process, outcome);
    } else if store.row.Some? && InResolver(process.pc) {
      FreshResolverStep(store, process, outcome);
    } else if store.row.Some? && InRunner(process.pc) {
      FreshRunnerStep(store, id, process, outcome);
    } else if store.row.Some? && InReadback(process.pc) {
      FreshReadbackStep(store, id, process, outcome);
    } else {
      FreshExecutorStep(store, process, outcome);
    }
  }

  // Steps that are not taken by a process, and new processes.
  lemma FreshSystemStep(before: State, step: Step)
    requires FreshInv(before) && Apply(before, step).Some? && !step.Advance?
    ensures FreshStore(Apply(before, step).value.store)
    ensures var after := Apply(before, step).value;
      forall id :: id in after.processes && id !in before.processes ==>
        FreshPc(after.store, after.processes[id].pc)
  {
    hide ProcessInv;
  }

  /** A run together with the steps that make it, none of which returns an unchecked record. */
  ghost predicate IsOrderly(run: seq<State>, steps: seq<Step>) {
    && |run| == |steps| + 1
    && Initial(run[0])
    && (forall i :: 0 <= i < |steps| ==> Apply(run[i], steps[i]) == Some(run[i + 1]))
    && (forall i :: 0 <= i < |steps| ==> !ReturnsUnchecked(run[i], steps[i]))
  }

  // In an orderly run every reachable pair lies in the resolver's table, and `finalize` always
  // finds the task read back as verified, so it never refuses.
  lemma {:induction false} OrderlyStaysInTable(run: seq<State>, steps: seq<Step>, i: nat)
    requires IsOrderly(run, steps) && i < |run|
    ensures FreshInv(run[i])
    ensures Tabled(run[i].store)
    ensures forall id :: id in run[i].processes && run[i].processes[id].pc.FinalizeTask? ==>
      TaskVerified(run[i].store)
  {
    hide Apply, StoreInv, ProcessInv, Tabled;
    if i > 0 {
      OrderlyStaysInTable(run, steps, i - 1);
      assert Apply(run[i - 1], steps[i - 1]) == Some(run[i - 1 + 1]);
      FreshStep(run[i - 1], steps[i - 1]);
    } else {
      InitialIsFresh(run[0]);
    }
    assert FreshStore(run[i].store);
  }

  lemma InitialIsFresh(state: State)
    requires Initial(state)
    ensures FreshInv(state)
  {
  }
}
