/** What an executor does when a call fails, and what it never does: the paths around the one that
    succeeds. */
module MutationErrors {
  import opened Wrappers
  import opened TaskStateMachine
  import opened MutationProtocol
  import opened CommandStateResolver
  import Readback

  /** Two consecutive calls of a process that return. */
  function Twice(store: Store, id: nat, process: Process): Reply {
    match ProcessStep(store, id, process, Returns)
    case None => None
    case Some(reply) => ProcessStep(reply.0, id, reply.1, Returns)
  }

  // ---------------------------------------------------------------- reads and attempts

  /** The calls that only read. */
  predicate Reads(pc: Pc) {
    || pc.ReadCommand? || pc.ReadTask? || pc.RereadCommand? || pc.FindReceipt? || pc.FindReceiptAgain?
    || pc.LookupReceipt? || pc.RequireExistingReceipt? || pc.LookupReadback? || pc.ReplayReceipt? || pc.ReplayReadback?
  }

  // A read returns or throws, and changes nothing.
  lemma ReadReturnsOrThrows(store: Store, id: nat, process: Process, outcome: Outcome)
    requires store.row.Some? && Reads(process.pc)
    ensures ProcessStep(store, id, process, outcome).Some? <==> outcome == Returns || outcome.Throws?
    ensures outcome == Returns || outcome.Throws? ==> ProcessStep(store, id, process, outcome).value.0 == store
  {
  }

  // What is on record is what a replay finishes with, exactly if there are a receipt and an accepting
  // read-back. Without a receipt in hand it is looked up, and helps a committed command only.
  lemma ReplayIff(store: Store, id: nat, process: Process)
    requires store.row.Some?
    ensures process.pc.ReplayReceipt? ==>
      Twice(store, id, process) ==
        Some((store, process.(
          receipt := store.receipt,
          pc := if store.receipt.Some? && store.readback.Some? && store.readback.value.ok
                then FinalizeTask(store.readback.value) else Threw)))
    ensures process.pc.FindReceiptAgain? ==>
      ProcessStep(store, id, process, Returns) ==
        Some((store, process.(
          receipt := store.receipt,
          pc := if process.pc.seen == CmdCommitted && store.receipt.Some? then PerformReadback else Threw)))
  {
  }

  // A claim goes through exactly if nobody holds the row and the command is pending or committed
  // already. It locks the row of a pending command; for a committed one it ends in the receipt on
  // record, with no lock taken.
  lemma ClaimIff(store: Store, id: nat, process: Process)
    requires store.row.Some? && process.pc.Claim?
    ensures var status := store.row.value.status;
      && (ProcessStep(store, id, process, Returns).Some? <==>
            Free(store) && status in {CmdPending, CmdCommitted, CmdVerified})
      && (Free(store) && status == CmdPending ==>
            ProcessStep(store, id, process, Returns) ==
              Some((store.(lock := Executing(id, None, false)), process.(pc := Execute))))
      && (Free(store) && status in {CmdCommitted, CmdVerified} && store.receipt.Some? ==>
            Twice(store, id, process) ==
              Some((store, process.(receipt := store.receipt, pc := ReadCommand(AfterRun)))))
  {
  }

  // Exactly the calls before COMMIT are tried again, and then from the claim.
  lemma RetryIsFromTheClaim(store: Store, id: nat, process: Process)
    requires store.row.Some?
    ensures ProcessStep(store, id, process, Retries) ==
      if process.pc.Claim? || process.pc.Execute? then Some((store, process.(pc := Claim))) else None
  {
  }

  // ---------------------------------------------------------------- replies that are lost

  /** The calls that write and may lose their reply; those of the runner are looked up instead. */
  predicate Writes(pc: Pc) {
    pc.Register? || pc.MoveTask? || pc.MarkPending? || pc.MarkFailed? || pc.CompleteMove? || pc.CancelMove?
  }

  // A reply can be lost exactly where a write takes effect; the store is then as after the write, and
  // the caller gives up, but for the resolver call that is made while a run error is handled.
  lemma LostReplyTookEffect(store: Store, id: nat, process: Process)
    requires Writes(process.pc)
    ensures var returned, lost := ProcessStep(store, id, process, Returns), ProcessStep(store, id, process, ReplyLost);
      && (lost.Some? <==> returned.Some? && returned.value.0 != store)
      && (lost.Some? ==>
            && lost.value.0 == returned.value.0
            && lost.value.1.pc ==
               if (process.pc.MoveTask? || process.pc.MarkPending?) && process.pc.site == AfterRunError(false)
               then MarkFailed else Threw)
  {
  }

  // A resolver write that finds the row or the task moved on starts the reconcile again.
  lemma LostRaceStartsAgain(store: Store, id: nat, process: Process)
    requires store.row.Some? && Free(store) && (process.pc.MoveTask? || process.pc.MarkPending?)
    requires if process.pc.MoveTask? then store.task != RepairFrom(process.pc.seen)
             else store.row.value.status != CmdRegistered
    ensures ProcessStep(store, id, process, Returns) == Some((store, process.(pc := ReadCommand(process.pc.site))))
  {
  }

  // Nobody writes a row that another transaction holds: the call waits, or fails.
  lemma HeldRowIsNotWritten(store: Store, id: nat, process: Process, outcome: Outcome)
    requires store.row.Some? && !Free(store)
    requires process.pc.Claim? || process.pc.MarkPending? || process.pc.MarkFailed? || process.pc.RecordReadback?
    ensures outcome == Returns ==> ProcessStep(store, id, process, outcome).None?
    ensures ProcessStep(store, id, process, outcome).Some? ==>
      ProcessStep(store, id, process, outcome).value.0 == store
  {
  }

  // Only a transaction whose COMMIT was sent can take effect after its client is gone.
  lemma UnsentNeverCommits(state: State)
    ensures Apply(state, ServerCommits).Some? ==>
      && state.store.row.Some? && !Free(state.store)
      && (state.store.lock.Executing? ==> state.store.lock.staged.Some? && state.store.lock.commitSent)
  {
  }

  // ---------------------------------------------------------------- errors of the runner

  // After an error of the runner the command is reconciled. If it turns out to be committed the
  // executor goes on with it, whatever the error was; otherwise it gives up if the error asks for a
  // receipt lookup, and marks the command as failed if not, also when the reconcile fails.
  lemma RunErrorComesTo(store: Store, process: Process, lookup: bool)
    requires store.row.Some? && Free(store) && process.pc == ReadCommand(AfterRunError(lookup))
    ensures var status := store.row.value.status;
      var (after, handled) := Alone(store, process, RECONCILE_CALLS);
      handled.pc ==
        if status == CmdCommitted && InSwitch(status, store.task) then
          (if process.receipt.None? then FindReceiptAgain(CmdCommitted) else PerformReadback)
        else if status == CmdVerified && InSwitch(status, store.task) then ReplayReceipt
        else if lookup then Threw
        else MarkFailed
  {
    hide Alone;
    UndisturbedReconcile(store, process, AfterRunError(lookup));
    SwitchIsTheTable(store.row.value.status, store.task);
  }

  lemma ReconcileThatThrows(store: Store, id: nat, process: Process)
    requires store.row.Some? && InResolver(process.pc)
    ensures ProcessStep(store, id, process, Throws(false)) ==
      Some((store, process.(pc := if process.pc.site == AfterRunError(false) then MarkFailed else Threw)))
  {
  }

  // A connection lost before COMMIT, and any error of COMMIT, are followed by a lookup: a receipt that
  // is found is gone on with, and without one the error is of the kind that asks for a lookup exactly
  // if a COMMIT had been sent. So is the error of a committed command without a receipt.
  lemma ReceiptIsLookedFor(store: Store, id: nat, process: Process, outcome: Outcome)
    requires store.row.Some?
    ensures process.pc.Claim? || process.pc.Execute? ==>
      ProcessStep(store, id, process, ReplyLost) == Some((store, process.(pc := LookupReceipt(false))))
    ensures (process.pc.SendCommit? || process.pc.AwaitCommit?) && outcome.Throws? ==>
      ProcessStep(store, id, process, outcome) == Some((store, process.(pc := LookupReceipt(true))))
    ensures process.pc.LookupReceipt? || process.pc.RequireExistingReceipt? ==>
      var lookup := process.pc.LookupReceipt? ==> process.pc.commitAttempted;
      ProcessStep(store, id, process, Returns) ==
        Some((store,
              if store.receipt.Some? then process.(receipt := store.receipt, pc := ReadCommand(AfterRun))
              else process.(pc := ReadCommand(AfterRunError(lookup)))))
    ensures InRunner(process.pc) && !process.pc.SendCommit? && !process.pc.AwaitCommit? && outcome.Throws? ==>
      ProcessStep(store, id, process, outcome) ==
        Some((store, process.(pc := ReadCommand(AfterRunError(outcome.receiptLookupRequired)))))
  {
  }

  // Marking as failed concerns a pending command and no other.
  lemma MarkFailedIff(store: Store, id: nat, process: Process)
    requires store.row.Some? && Free(store) && process.pc.MarkFailed?
    ensures ProcessStep(store, id, process, Returns) ==
      if store.row.value.status == CmdPending
      then Some((WithStatus(store, CmdExecutionFailed), process.(pc := ReadCommand(AfterMarkFailed))))
      else Some((store, process.(pc := Threw)))
  {
  }

  /** Once a COMMIT has been sent: its outcome is not known, or is being looked up, or is known. */
  predicate PastCommit(pc: Pc) {
    || pc.AwaitCommit? || pc == LookupReceipt(true)
    || (InResolver(pc) && pc.site != AfterRegister && pc.site != AfterRunError(false) && pc.site != AfterMarkFailed)
    || pc.FindReceiptAgain? || InReadback(pc) || pc.ReplayReceipt? || pc.ReplayReadback?
    || pc.FinalizeTask? || pc.CompleteTask? || pc.CompleteMove? || pc.Finished? || pc.Threw?
  }

  // Such an executor never marks its command as failed, provided that the lookup of the receipt fails
  // with an error that asks for one.
  lemma PastCommitNeverMarksFailed(store: Store, id: nat, process: Process, outcome: Outcome)
    requires PastCommit(process.pc) && ProcessStep(store, id, process, outcome).Some?
    requires process.pc.LookupReceipt? ==> outcome != Throws(false)
    ensures PastCommit(ProcessStep(store, id, process, outcome).value.1.pc)
    ensures !ProcessStep(store, id, process, outcome).value.1.pc.MarkFailed?
  {
  }

  // ---------------------------------------------------------------- the read-back and what follows

  // A read-back that could not be recorded is looked up: one that is on record, this executor's own or
  // another's, is gone on with; without one the executor gives up.
  lemma RecordingIsLookedUp(store: Store, id: nat, process: Process, outcome: Outcome)
    requires store.row.Some?
    ensures (process.pc.RecordReadback? || process.pc.AwaitReadback?) && outcome.Throws? ==>
      ProcessStep(store, id, process, outcome) == Some((store, process.(pc := LookupReadback)))
    ensures process.pc.RecordReadback? && Free(store)
            && (store.row.value.status != CmdCommitted || store.receipt.None? || store.readback.Some?) ==>
      ProcessStep(store, id, process, Returns) == Some((store, process.(pc := LookupReadback)))
    ensures process.pc.LookupReadback? ==>
      ProcessStep(store, id, process, Returns) ==
        Some((store, process.(pc := if store.readback.Some? then ReadCommand(AfterReadback(store.readback.value))
                                    else Threw)))
  {
  }

  // What a reconciled status leads to after the run, with or without a receipt in hand, and after the
  // read-back: on with a committed or verified command, and nowhere else.
  lemma StatusLeadsTo(process: Process, seen: CommandStatus, recorded: Readback.ReadbackResult)
    ensures Resolved(process, AfterRun, seen).pc ==
      match seen
      case CmdCommitted => if process.receipt.Some? then PerformReadback else FindReceiptAgain(seen)
      case CmdVerified => ReplayReceipt
      case CmdExecutionFailed => Threw
      case CmdReadbackFailed => Threw
      case _ => if process.receipt.Some? then Threw else FindReceiptAgain(seen)
    ensures Resolved(process, AfterReadback(recorded), seen).pc ==
      if recorded.ok && seen != CmdReadbackFailed then FinalizeTask(recorded) else Threw
    ensures Resolved(process, AfterRegister, seen).pc ==
      match seen
      case CmdVerified => ReplayReceipt
      case CmdExecutionFailed => Threw
      case CmdReadbackFailed => Threw
      case _ => FindReceipt(seen)
  {
  }

  // ---------------------------------------------------------------- cancelling and completing

  // A cancellation nobody interferes with succeeds exactly on an accepted task that is not being
  // executed, and changes nothing else; on any other task it changes nothing.
  lemma CancellationWinsIff(state: State, id: nat, command: Command)
    requires id !in state.processes
    ensures var started := Apply(state, StartCancel(id, command));
      && started.Some? && started.value.store == state.store
      && Twice(state.store, id, started.value.processes[id]) ==
         if state.store.task == CheckerValidated
         then Some((state.store.(task := Partial), Process(command, None, Cancelled)))
         else Some((state.store, Process(command, None, Threw)))
    ensures Apply(state, StartExecute(id, command)) ==
      Some(state.(processes := state.processes[id := Process(command, None, Register)]))
  {
  }

  // Finalizing completes a task whose read-back is on record, accepts one that is verified already,
  // and refuses every other.
  lemma FinalizeIff(store: Store, id: nat, process: Process)
    requires process.pc.FinalizeTask?
    ensures ProcessStep(store, id, process, Returns) ==
      Some((store, process.(pc := if store.task == Verified then Finished(process.pc.result)
                                  else if store.task == ReadbackVerified then CompleteTask(process.pc.result)
                                  else Threw)))
    ensures store.task == ReadbackVerified ==>
      Twice(store, id, process.(pc := CompleteTask(process.pc.result))) ==
        Some((store.(task := Verified), process.(pc := Finished(process.pc.result))))
  {
  }
}
