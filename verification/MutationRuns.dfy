/** The protocol's promises over whole runs, in terms of the durable state alone. */
module MutationRuns {
  import opened Wrappers
  import opened TaskStateMachine
  import opened MutationProtocol
  import opened MutationSafety
  import Readback

  // However executors, crashes, in-doubt commits and cancellations interleave, the domain effect
  // is committed at most once, a receipt exists exactly when it was, the receipt carries the
  // registered command's own identity, and a failed execution has neither.
  lemma EffectAtMostOnce(run: seq<State>, i: nat)
    requires IsRun(run) && i < |run|
    ensures run[i].store.effects <= 1
    ensures run[i].store.receipt.Some? <==> run[i].store.effects == 1
    ensures run[i].store.receipt.Some? ==>
      run[i].store.row.Some? && HasIdentity(run[i].store.receipt.value, run[i].store.row.value.command)
    ensures run[i].store.row.Some? ==>
      (HasCommitted(run[i].store.row.value.status) <==> run[i].store.effects == 1)
    ensures Statuses(run[i].store.row) == Some(CmdExecutionFailed) ==> run[i].store.receipt.None?
    ensures Joint(Statuses(run[i].store.row), run[i].store.task)
  {
    RunKeepsInv(run, i);
  }

  ghost predicate NoWayBack(before: Store, after: Store) {
    && (before.row.Some? ==>
          && after.row.Some?
          && after.row.value.command == before.row.value.command
          && Reaches(before.row.value.status, after.row.value.status))
    && (before.receipt.Some? ==> after.receipt == before.receipt)
    && (before.readback.Some? ==> after.readback == before.readback)
    && before.effects <= after.effects
    && (InMutationLane(before.task) ==>
          && (InMutationLane(after.task) || (after.task == Verified && Statuses(after.row) == Some(CmdVerified)))
          && LaneRank(before.task) <= LaneRank(after.task))
    && (IsTerminalStatus(before.task) ==> after.task == before.task)
  }

  // Between any two points of a run the command status only develops, receipt and read-back stay
  // as they were written, and a task in the mutation lane only moves forward in it.
  lemma {:induction false} RunNeverGoesBack(run: seq<State>, i: nat, j: nat)
    requires IsRun(run) && i <= j < |run|
    ensures NoWayBack(run[i].store, run[j].store)
    decreases j - i
  {
    hide StoreInv, ProcessInv, Apply;
    if i < j {
      RunNeverGoesBack(run, i, j - 1);
      RunKeepsInv(run, j - 1);
      assert Next(run[j - 1], run[j - 1 + 1]);
      NextKeepsInv(run[j - 1], run[j]);
      LaneStep(run[j - 1].store, run[j].store);
      NoWayBackTransitive(run[i].store, run[j - 1].store, run[j].store);
    }
  }

  lemma NoWayBackTransitive(a: Store, b: Store, c: Store)
    requires NoWayBack(a, b) && NoWayBack(b, c)
    ensures NoWayBack(a, c)
  {
    if a.row.Some? {
      ReachesTransitive(a.row.value.status, b.row.value.status, c.row.value.status);
    }
  }

  lemma LaneStep(before: Store, after: Store)
    requires StoreInv(before) && StoreInv(after) && Rely(before, after)
    ensures NoWayBack(before, after)
  {
    hide RowInv;
  }

  /** `execute` has returned `readback_verified` with this read-back. */
  predicate Returned(pc: Pc) {
    pc.FinalizeTask? || pc.CompleteTask? || pc.CompleteMove? || pc.Finished?
  }

  // `execute` returns only with durable evidence: the stored receipt is the returned one and
  // carries the caller's own command, the stored read-back is the returned one, and it accepts.
  lemma ReturnedIsVerified(run: seq<State>, i: nat, id: nat)
    requires IsRun(run) && i < |run| && id in run[i].processes
    requires Returned(run[i].processes[id].pc)
    ensures var store, process := run[i].store, run[i].processes[id];
      && Statuses(store.row) == Some(CmdVerified)
      && process.receipt.Some? && store.receipt == process.receipt
      && HasIdentity(process.receipt.value, process.command)
      && store.readback == Some(process.pc.result)
      && Readback.Accepts(process.command.requiredChecks, process.pc.result)
      && store.effects == 1
  {
    RunKeepsInv(run, i);
  }

  /** The process may still reach the domain database to change it, or has. */
  predicate ReachedRunner(process: Process) {
    InRunner(process.pc) || InReadback(process.pc) || Returned(process.pc)
  }

  // Once a cancellation has won the task, nothing is ever committed, before or after, and no
  // executor ever reaches the runner.
  lemma CancelledNeverCommits(run: seq<State>, i: nat, j: nat, id: nat)
    requires IsRun(run) && i < |run| && j < |run|
    requires id in run[i].processes && run[i].processes[id].pc == Cancelled
    ensures run[j].store.effects == 0 && run[j].store.receipt.None?
    ensures forall other :: other in run[j].processes ==> !ReachedRunner(run[j].processes[other])
  {
    RunKeepsInv(run, i);
    RunKeepsInv(run, j);
    if i <= j {
      RunNeverGoesBack(run, i, j);
      assert run[j].store.task == Partial;
    } else {
      RunNeverGoesBack(run, j, i);
      assert run[i].store.task == Partial;
    }
  }

  // Once a resumed execution has moved the task to execution_pending, no cancellation succeeds,
  // and none had.
  lemma ResumedNeverCancelled(run: seq<State>, i: nat, j: nat, id: nat)
    requires IsRun(run) && i < |run| && j < |run|
    requires InMutationLane(run[i].store.task)
    requires id in run[j].processes
    ensures run[j].processes[id].pc != Cancelled
  {
    hide StoreInv, IsRun;
    RunKeepsInv(run, i);
    RunKeepsInv(run, j);
    assert run[j].processes[id].pc == Cancelled ==> run[j].store.task == Partial;
    if i <= j {
      RunNeverGoesBack(run, i, j);
    } else {
      RunNeverGoesBack(run, j, i);
    }
  }

  // ---------------------------------------------------------------- runs exist

  ghost function Last(run: seq<State>): State
    requires |run| > 0
  {
    run[|run| - 1]
  }

  lemma Extend(run: seq<State>, step: Step) returns (longer: seq<State>)
    requires IsRun(run) && Apply(Last(run), step).Some?
    ensures IsRun(longer) && |longer| == |run| + 1 && longer[..|run|] == run
    ensures Last(longer) == Apply(Last(run), step).value
  {
    longer := run + [Apply(Last(run), step).value];
    forall i | 0 <= i < |longer| - 1
      ensures Next(longer[i], longer[i + 1])
    {
      if i < |run| - 1 {
        assert longer[i] == run[i] && longer[i + 1] == run[i + 1];
      } else {
        assert Apply(longer[i], step) == Some(longer[i + 1]);
      }
    }
  }
}
