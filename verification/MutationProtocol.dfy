/** The checked-mutation protocol as a step system.

    Any number of executors run `CheckedMutationExecutor.execute` on one command, followed by the
    coordinator's `finalize`, while other processes try to cancel the task. An executor is a
    program counter with its local variables; every awaited call is one step, a process may die
    before any step, and a COMMIT whose reply was lost may still be carried out, or dropped, later.
    Retry budgets are left open here, so the runs of this system include all runs of the code. */
module MutationProtocol {
  import opened Wrappers
  import opened TaskStateMachine
  import Readback

  datatype CommandStatus =
    | CmdRegistered
    | CmdPending
    | CmdCommitted
    | CmdVerified
    | CmdExecutionFailed
    | CmdReadbackFailed

  /** The immutable envelope of a checked command; the handler's read-back obligations come with
      its command type. */
  datatype Command = Command(
    commandId: string,
    idempotencyKey: string,
    checkedProposalId: string,
    checkedProposalHash: string,
    requiredChecks: seq<Readback.CheckKind>)

  /** A durable receipt. `committedRecords` stands for what one execution of the handler wrote. */
  datatype Receipt = Receipt(
    receiptId: string,
    idempotencyKey: string,
    checkedProposalId: string,
    checkedProposalHash: string,
    committedRecords: nat)

  datatype Row = Row(command: Command, status: CommandStatus)

  /** The transaction that holds the lock on the command row, if there is one. */
  datatype Transaction =
    | NoTransaction
    | Executing(owner: nat, staged: Option<Receipt>, commitSent: bool)
    | RecordingReadback(owner: nat, readback: Readback.ReadbackResult)

  /** What the database holds. `effects` counts the domain effects committed so far. */
  datatype Store = Store(
    row: Option<Row>,
    task: TaskStatus,
    receipt: Option<Receipt>,
    readback: Option<Readback.ReadbackResult>,
    effects: nat,
    lock: Transaction)

  /** Where in `execute` the resolver was called, that is, where its answer goes. */
  datatype Site =
    | AfterRegister
    | AfterRunError(receiptLookupRequired: bool)
    | AfterMarkFailed
    | AfterRun
    | AfterReadback(recorded: Readback.ReadbackResult)

  /** The awaited call a process is about to make, or how it ended. */
  datatype Pc =
    | Register
    | ReadCommand(site: Site)
    | ReadTask(site: Site, seen: CommandStatus)
    | MoveTask(site: Site, seen: CommandStatus)
    | MarkPending(site: Site)
    | RereadCommand(site: Site)
    | FindReceipt(seen: CommandStatus)
    | FindReceiptAgain(seen: CommandStatus)
    | Claim
    | Execute
    | SendCommit
    | AwaitCommit
    | LookupReceipt(commitAttempted: bool)
    | RequireExistingReceipt
    | MarkFailed
    | PerformReadback
    | RecordReadback(result: Readback.ReadbackResult)
    | AwaitReadback(result: Readback.ReadbackResult)
    | LookupReadback
    | ReplayReceipt
    | ReplayReadback
    | FinalizeTask(result: Readback.ReadbackResult)
    | CompleteTask(result: Readback.ReadbackResult)
    | CompleteMove(result: Readback.ReadbackResult, expected: TaskStatus)
    | Finished(result: Readback.ReadbackResult)
    | CancelTask
    | CancelMove(expected: TaskStatus)
    | Cancelled
    | Threw

  datatype Process = Process(command: Command, receipt: Option<Receipt>, pc: Pc)

  datatype State = State(store: Store, processes: map<nat, Process>)

  /** How the awaited call turns out. */
  datatype Outcome =
    | Returns
    | Throws(receiptLookupRequired: bool)
    | ReplyLost                                  // the write was carried out, the caller sees an error
    | Retries                                    // the runner starts another attempt
    | Outputs(committedRecords: nat)             // the handler's effect is staged
    | Answers(domain: Option<Readback.DomainReadback>, failureCode: string)

  datatype Step =
    | StartExecute(process: nat, command: Command)
    | StartCancel(process: nat, command: Command)
    | Crash(process: nat)
    | Advance(process: nat, outcome: Outcome)
    | ServerCommits                              // a COMMIT in doubt takes effect
    | ServerAborts                               // the open transaction is rolled back
    | OtherWriterMoves(to: TaskStatus)           // another component moves the task

  // ---------------------------------------------------------------- the resolver's table

  /** The task status the resolver moves on from, given the command status it read. */
  function RepairFrom(seen: CommandStatus): TaskStatus {
    match seen
    case CmdRegistered => CheckerValidated
    case CmdPending => CheckerValidated
    case CmdCommitted => ExecutionPending
    case CmdVerified => Committed
    case CmdExecutionFailed => ExecutionPending
    case CmdReadbackFailed => Committed
  }

  /** The task status the resolver moves to, given the command status it read. */
  function RepairTo(seen: CommandStatus): TaskStatus {
    match seen
    case CmdRegistered => ExecutionPending
    case CmdPending => ExecutionPending
    case CmdCommitted => Committed
    case CmdVerified => ReadbackVerified
    case CmdExecutionFailed => ExecutionFailed
    case CmdReadbackFailed => ReadbackFailed
  }

  /** The task already stands where the command is. */
  predicate Level(seen: CommandStatus, task: TaskStatus) {
    task == RepairTo(seen) || (seen == CmdVerified && task == Verified)
  }

  /** The pairs the resolver's switch accepts. */
  predicate Reconcilable(seen: CommandStatus, task: TaskStatus) {
    Level(seen, task) || task == RepairFrom(seen)
  }

  // ---------------------------------------------------------------- durable effects

  function ReceiptFor(command: Command, committedRecords: nat): Receipt {
    Receipt(command.commandId, command.idempotencyKey, command.checkedProposalId,
            command.checkedProposalHash, committedRecords)
  }

  predicate HasIdentity(receipt: Receipt, command: Command) {
    receipt == ReceiptFor(command, receipt.committedRecords)
  }

  predicate Free(store: Store) {
    store.lock == NoTransaction
  }

  function WithStatus(store: Store, status: CommandStatus): Store
    requires store.row.Some?
  {
    store.(row := Some(store.row.value.(status := status)))
  }

  predicate CanCommit(store: Store) {
    && store.row.Some?
    && match store.lock
       case NoTransaction => false
       case Executing(_, staged, commitSent) => staged.Some? && commitSent
       case RecordingReadback(_, _) => true
  }

  /** The open transaction takes effect, all of it, and gives the row lock back. */
  function CommitTransaction(store: Store): Store
    requires CanCommit(store)
  {
    match store.lock
    case Executing(_, staged, _) =>
      WithStatus(store, CmdCommitted).(receipt := staged, effects := store.effects + 1, lock := NoTransaction)
    case RecordingReadback(_, result) =>
      WithStatus(store, if result.ok then CmdVerified else CmdReadbackFailed)
      .(readback := Some(result), lock := NoTransaction)
  }

  // ---------------------------------------------------------------- one process

  /** Lines 126-152 and 320-340 of the executor: what a known command status leads to. */
  function Dispatch(process: Process, seen: CommandStatus): Pc {
    if seen == CmdVerified then ReplayReceipt
    else if seen == CmdExecutionFailed || seen == CmdReadbackFailed then Threw
    else if process.receipt.None? then FindReceiptAgain(seen)
    else if seen != CmdCommitted then Threw
    else PerformReadback
  }

  /** `reconcile` returned a command record with status `seen`. */
  function Resolved(process: Process, site: Site, seen: CommandStatus): Process {
    process.(pc :=
      match site
      case AfterRegister =>
        if seen == CmdVerified then ReplayReceipt
        else if seen == CmdExecutionFailed || seen == CmdReadbackFailed then Threw
        else FindReceipt(seen)
      case AfterRunError(lookup) =>
        if seen == CmdCommitted || seen == CmdVerified then Dispatch(process, seen)
        else if lookup then Threw
        else MarkFailed
      case AfterMarkFailed => Threw
      case AfterRun => Dispatch(process, seen)
      case AfterReadback(recorded) =>
        if !recorded.ok || seen == CmdReadbackFailed then Threw else FinalizeTask(recorded))
  }

  /** `reconcile` threw. Only the call made while handling a run error survives that. */
  function Unresolved(process: Process, site: Site): Process {
    process.(pc :=
      match site
      case AfterRunError(lookup) => if lookup then Threw else MarkFailed
      case _ => Threw)
  }

  function AfterTaskMoved(process: Process, site: Site, seen: CommandStatus): Process {
    if seen == CmdRegistered then process.(pc := MarkPending(site)) else Resolved(process, site, seen)
  }

  type Reply = Option<(Store, Process)>

  /** CommandStateResolver.reconcileOnce, with stale reads leading back to its start. */
  function ResolverStep(store: Store, process: Process, outcome: Outcome): Reply
    requires store.row.Some?
  {
    match process.pc
    case ReadCommand(site) =>
      if outcome == Returns then
        Some((store, process.(pc := ReadTask(site, store.row.value.status))))
      else if outcome.Throws? then Some((store, Unresolved(process, site)))
      else None
    case ReadTask(site, seen) =>
      if outcome == Returns then
        Some((store,
          if store.task == RepairFrom(seen) then process.(pc := MoveTask(site, seen))
          else if Level(seen, store.task) then AfterTaskMoved(process, site, seen)
          else Unresolved(process, site)))
      else if outcome.Throws? then Some((store, Unresolved(process, site)))
      else None
    case MoveTask(site, seen) =>
      var moved := store.(task := RepairTo(seen));
      if outcome == Returns && store.task == RepairFrom(seen) then
        Some((moved, AfterTaskMoved(process, site, seen)))
      else if outcome == Returns then Some((store, process.(pc := ReadCommand(site))))
      else if outcome == ReplyLost && store.task == RepairFrom(seen) then
        Some((moved, Unresolved(process, site)))
      else if outcome.Throws? then Some((store, Unresolved(process, site)))
      else None
    case MarkPending(site) =>
      var registered := store.row.value.status == CmdRegistered;
      if outcome.Throws? then Some((store, Unresolved(process, site)))
      else if !Free(store) then None
      else if outcome == Returns && registered then
        Some((WithStatus(store, CmdPending), process.(pc := RereadCommand(site))))
      else if outcome == Returns then Some((store, process.(pc := ReadCommand(site))))
      else if outcome == ReplyLost && registered then
        Some((WithStatus(store, CmdPending), Unresolved(process, site)))
      else None
    case RereadCommand(site) =>
      if outcome == Returns then Some((store, Resolved(process, site, store.row.value.status)))
      else if outcome.Throws? then Some((store, Unresolved(process, site)))
      else None
    case _ => None
  }

  /** SerializableMutationRunner.run: one transaction attempt after another. */
  function RunnerStep(store: Store, id: nat, process: Process, outcome: Outcome): Reply
    requires store.row.Some?
  {
    match process.pc
    case Claim =>
      var status := store.row.value.status;
      if outcome.Throws? then
        Some((store, process.(pc := ReadCommand(AfterRunError(outcome.receiptLookupRequired)))))
      else if outcome == Retries then Some((store, process))
      else if outcome == ReplyLost then Some((store, process.(pc := LookupReceipt(false))))
      else if outcome != Returns || !Free(store) then None
      else if status == CmdPending then
        Some((store.(lock := Executing(id, None, false)), process.(pc := Execute)))
      else if status == CmdCommitted || status == CmdVerified then
        Some((store, process.(pc := RequireExistingReceipt)))
      else None
    case Execute =>
      if outcome.Throws? then
        Some((store, process.(pc := ReadCommand(AfterRunError(outcome.receiptLookupRequired)))))
      else if outcome == Retries then Some((store, process.(pc := Claim)))
      else if outcome == ReplyLost then Some((store, process.(pc := LookupReceipt(false))))
      else if outcome.Outputs? && store.lock == Executing(id, None, false) then
        Some((store.(lock := Executing(id, Some(ReceiptFor(store.row.value.command, outcome.committedRecords)), false)),
              process.(pc := SendCommit)))
      else None
    case SendCommit =>
      if outcome.Throws? then Some((store, process.(pc := LookupReceipt(true))))
      else if outcome == Returns && store.lock.Executing? && store.lock.owner == id
        && store.lock.staged.Some? && !store.lock.commitSent then
        Some((store.(lock := store.lock.(commitSent := true)), process.(pc := AwaitCommit)))
      else None
    case AwaitCommit =>
      if outcome.Throws? then Some((store, process.(pc := LookupReceipt(true))))
      else if outcome == Returns && store.lock.Executing? && store.lock.owner == id && CanCommit(store) then
        Some((CommitTransaction(store),
              process.(receipt := store.lock.staged, pc := ReadCommand(AfterRun))))
      else None
    case LookupReceipt(commitAttempted) =>
      if outcome.Throws? then
        Some((store, process.(pc := ReadCommand(AfterRunError(outcome.receiptLookupRequired)))))
      else if outcome == Returns then
        Some((store,
          if store.receipt.Some? then process.(receipt := store.receipt, pc := ReadCommand(AfterRun))
          else process.(pc := ReadCommand(AfterRunError(commitAttempted)))))
      else None
    case RequireExistingReceipt =>
      if outcome.Throws? then
        Some((store, process.(pc := ReadCommand(AfterRunError(outcome.receiptLookupRequired)))))
      else if outcome == Returns then
        Some((store,
          if store.receipt.Some? then process.(receipt := store.receipt, pc := ReadCommand(AfterRun))
          else process.(pc := ReadCommand(AfterRunError(true)))))
      else None
    case _ => None
  }

  /** The remaining calls of `execute`, except the read-back. */
  function ExecutorStep(store: Store, process: Process, outcome: Outcome): Reply {
    if outcome.Throws? && process.pc.Register? then Some((store, process.(pc := Threw)))
    else if process.pc.Register? then
      var inserted := store.(row := Some(Row(process.command, CmdRegistered)));
      if store.row.None? && outcome == Returns then Some((inserted, process.(pc := ReadCommand(AfterRegister))))
      else if store.row.None? && outcome == ReplyLost then Some((inserted, process.(pc := Threw)))
      else if store.row.Some? && outcome == Returns then
        Some((store, process.(pc :=
          if store.row.value.command == process.command then ReadCommand(AfterRegister) else Threw)))
      else None
    else if store.row.None? then None
    else match process.pc
      case FindReceipt(seen) =>
        if outcome.Throws? then Some((store, process.(pc := Threw)))
        else if outcome == Returns then
          var found := process.(receipt := store.receipt);
          Some((store, found.(pc := if seen == CmdPending then Claim else Dispatch(found, seen))))
        else None
      case FindReceiptAgain(seen) =>
        if outcome.Throws? then Some((store, process.(pc := Threw)))
        else if outcome == Returns then
          Some((store, process.(receipt := store.receipt, pc :=
            if seen == CmdCommitted && store.receipt.Some? then PerformReadback else Threw)))
        else None
      case MarkFailed =>
        if outcome.Throws? then Some((store, process.(pc := Threw)))
        else if !Free(store) then None
        else if store.row.value.status != CmdPending then
          (if outcome == Returns then Some((store, process.(pc := Threw))) else None)
        else if outcome == Returns then
          Some((WithStatus(store, CmdExecutionFailed), process.(pc := ReadCommand(AfterMarkFailed))))
        else if outcome == ReplyLost then
          Some((WithStatus(store, CmdExecutionFailed), process.(pc := Threw)))
        else None
      case ReplayReceipt =>
        if outcome.Throws? then Some((store, process.(pc := Threw)))
        else if outcome == Returns then
          Some((store, process.(receipt := store.receipt, pc := ReplayReadback)))
        else None
      case ReplayReadback =>
        if outcome.Throws? then Some((store, process.(pc := Threw)))
        else if outcome == Returns then
          Some((store, process.(pc :=
            if process.receipt.Some? && store.readback.Some? && store.readback.value.ok
            then FinalizeTask(store.readback.value) else Threw)))
        else None
      case _ => None
  }

  /** `performReadback`, `recordReadback` and what follows a failure to record. */
  function ReadbackStep(store: Store, id: nat, process: Process, outcome: Outcome): Reply
    requires store.row.Some?
  {
    match process.pc
    case PerformReadback =>
      if outcome.Answers? && process.receipt.Some? then
        var receiptOk := store.receipt.Some? && HasIdentity(store.receipt.value, process.command)
          && store.receipt.value.receiptId == process.receipt.value.receiptId;
        Some((store, process.(pc := RecordReadback(
          Readback.Observe(process.command.requiredChecks, outcome.domain, receiptOk, outcome.failureCode)))))
      else None
    case RecordReadback(result) =>
      if outcome.Throws? then Some((store, process.(pc := LookupReadback)))
      else if outcome != Returns || !Free(store) then None
      else if store.row.value.status == CmdCommitted && store.receipt.Some? && store.readback.None? then
        Some((store.(lock := RecordingReadback(id, result)), process.(pc := AwaitReadback(result))))
      else Some((store, process.(pc := LookupReadback)))
    case AwaitReadback(result) =>
      if outcome.Throws? then Some((store, process.(pc := LookupReadback)))
      else if outcome == Returns && store.lock == RecordingReadback(id, result) then
        Some((CommitTransaction(store), process.(pc := ReadCommand(AfterReadback(result)))))
      else None
    case LookupReadback =>
      if outcome.Throws? then Some((store, process.(pc := Threw)))
      else if outcome == Returns then
        Some((store, process.(pc :=
          if store.readback.Some? then ReadCommand(AfterReadback(store.readback.value)) else Threw)))
      else None
    case _ => None
  }

  /** The coordinator's `finalize`, and VerificationRuntime.complete for it and for `cancel`. */
  function CompletionStep(store: Store, process: Process, outcome: Outcome): Reply {
    if outcome.Throws? then Some((store, process.(pc := Threw)))
    else match process.pc
      case FinalizeTask(result) =>
        if outcome != Returns then None
        else Some((store, process.(pc :=
          if store.task == Verified then Finished(result)
          else if store.task == ReadbackVerified then CompleteTask(result)
          else Threw)))
      case CompleteTask(result) =>
        if outcome != Returns then None
        else Some((store, process.(pc := CompleteMove(result, CompletionFrom(store.task)))))
      case CompleteMove(result, expected) =>
        var moved := store.(task := Verified);
        var possible := store.task == expected && IsAllowedTransition(expected, Verified);
        if outcome == Returns then
          Some(if possible then (moved, process.(pc := Finished(result))) else (store, process.(pc := Threw)))
        else if outcome == ReplyLost && possible then Some((moved, process.(pc := Threw)))
        else None
      case CancelTask =>
        if outcome != Returns then None
        else Some((store, process.(pc := CancelMove(CompletionFrom(store.task)))))
      case CancelMove(expected) =>
        var moved := store.(task := Partial);
        var possible := store.task == expected && IsAllowedTransition(expected, Partial);
        if outcome == Returns then
          Some(if possible then (moved, process.(pc := Cancelled)) else (store, process.(pc := Threw)))
        else if outcome == ReplyLost && possible then Some((moved, process.(pc := Threw)))
        else None
      case _ => None
  }

  function CompletionFrom(task: TaskStatus): TaskStatus {
    if task == ReadbackVerified then ReadbackVerified else CheckerValidated
  }

  predicate InResolver(pc: Pc) {
    pc.ReadCommand? || pc.ReadTask? || pc.MoveTask? || pc.MarkPending? || pc.RereadCommand?
  }

  predicate InRunner(pc: Pc) {
    pc.Claim? || pc.Execute? || pc.SendCommit? || pc.AwaitCommit? || pc.LookupReceipt? || pc.RequireExistingReceipt?
  }

  predicate InReadback(pc: Pc) {
    pc.PerformReadback? || pc.RecordReadback? || pc.AwaitReadback? || pc.LookupReadback?
  }

  predicate InCompletion(pc: Pc) {
    pc.FinalizeTask? || pc.CompleteTask? || pc.CompleteMove? || pc.CancelTask? || pc.CancelMove?
  }

  function ProcessStep(store: Store, id: nat, process: Process, outcome: Outcome): Reply {
    if InCompletion(process.pc) then CompletionStep(store, process, outcome)
    else if store.row.Some? && InResolver(process.pc) then ResolverStep(store, process, outcome)
    else if store.row.Some? && InRunner(process.pc) then RunnerStep(store, id, process, outcome)
    else if store.row.Some? && InReadback(process.pc) then ReadbackStep(store, id, process, outcome)
    else ExecutorStep(store, process, outcome)
  }

  // ---------------------------------------------------------------- the whole system

  function Apply(state: State, step: Step): Option<State> {
    match step
    case StartExecute(id, command) =>
      if id in state.processes then None
      else Some(state.(processes := state.processes[id := Process(command, None, Register)]))
    case StartCancel(id, command) =>
      if id in state.processes then None
      else Some(state.(processes := state.processes[id := Process(command, None, CancelTask)]))
    case Crash(id) => Some(state.(processes := state.processes - {id}))
    case Advance(id, outcome) =>
      if id !in state.processes then None
      else
        (match ProcessStep(state.store, id, state.processes[id], outcome)
         case None => None
         case Some(reply) => Some(State(reply.0, state.processes[id := reply.1])))
    case ServerCommits =>
      if CanCommit(state.store) then Some(state.(store := CommitTransaction(state.store))) else None
    case ServerAborts => Some(state.(store := state.store.(lock := NoTransaction)))
    case OtherWriterMoves(to) =>
      if IsAllowedTransition(state.store.task, to) && !InMutationLane(to)
      then Some(state.(store := state.store.(task := to))) else None
  }

  predicate Initial(state: State) {
    && state.store.row.None?
    && state.store.receipt.None?
    && state.store.readback.None?
    && state.store.effects == 0
    && state.store.lock == NoTransaction
    && !InMutationLane(state.store.task)
    && state.processes == map[]
  }

  ghost predicate Next(before: State, after: State) {
    exists step :: Apply(before, step) == Some(after)
  }

  ghost predicate IsRun(run: seq<State>) {
    && |run| > 0
    && Initial(run[0])
    && forall i :: 0 <= i < |run| - 1 ==> Next(run[i], run[i + 1])
  }
}
