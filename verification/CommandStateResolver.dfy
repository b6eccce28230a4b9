/** CommandStateResolver (packages/mutations/src/command-state-resolver.ts): the undisturbed call,
    as consecutive steps of the protocol, and the attempt loop amid other writers. */
module CommandStateResolver {
  import opened Wrappers
  import opened TaskStateMachine
  import opened MutationProtocol
  import opened MutationSafety
  import opened MutationRuns
  import Readback

  // ---------------------------------------------------------------- undisturbed

  /** `steps` consecutive resolver steps in which every call returns and nobody interferes. */
  function Alone(store: Store, process: Process, steps: nat): (Store, Process)
    requires store.row.Some?
    decreases steps
  {
    if steps == 0 || !InResolver(process.pc) then (store, process)
    else
      match ResolverStep(store, process, Returns)
      case None => (store, process)
      case Some(reply) =>
        if reply.0.row.None? then (store, process) else Alone(reply.0, reply.1, steps - 1)
  }

  /** A reconcile takes at most five awaited calls. */
  const RECONCILE_CALLS := 5

  function Leveled(store: Store): Store
    requires store.row.Some?
  {
    var status := store.row.value.status;
    var raised := if status == CmdRegistered then CmdPending else status;
    WithStatus(store, raised).(task := if Level(raised, store.task) then store.task else RepairTo(raised))
  }

  /** The pairs the resolver knows, case by case (lines 55 to 96). */
  predicate InSwitch(status: CommandStatus, task: TaskStatus) {
    match status
    case CmdRegistered => task in {CheckerValidated, ExecutionPending}
    case CmdPending => task in {CheckerValidated, ExecutionPending}
    case CmdCommitted => task in {ExecutionPending, Committed}
    case CmdVerified => task in {Committed, ReadbackVerified, Verified}
    case CmdExecutionFailed => task in {ExecutionPending, ExecutionFailed}
    case CmdReadbackFailed => task in {Committed, ReadbackFailed}
  }

  /** Where each case leaves the task. */
  function SwitchTarget(status: CommandStatus, task: TaskStatus): TaskStatus {
    match status
    case CmdRegistered => ExecutionPending
    case CmdPending => ExecutionPending
    case CmdCommitted => Committed
    case CmdVerified => if task == Verified then Verified else ReadbackVerified
    case CmdExecutionFailed => ExecutionFailed
    case CmdReadbackFailed => ReadbackFailed
  }

  lemma SwitchIsTheTable(status: CommandStatus, task: TaskStatus)
    ensures Reconcilable(status, task) <==> InSwitch(status, task)
    ensures InSwitch(status, task) ==>
      SwitchTarget(status, task) == if Level(status, task) then task else RepairTo(status)
  {
  }

  // Left alone, a reconcile succeeds exactly on the pairs of its table: it brings the task level
  // with the command, marks a registered command pending and writes nothing else. On any other
  // pair it throws and writes nothing.
  lemma {:induction false} UndisturbedReconcile(store: Store, process: Process, site: Site)
    requires store.row.Some? && Free(store) && process.pc == ReadCommand(site)
    ensures var status := store.row.value.status;
      var (store', process') := Alone(store, process, RECONCILE_CALLS);
      if Reconcilable(status, store.task) then
        && store' == Leveled(store)
        && Level(store'.row.value.status, store'.task)
        && process' == Resolved(process, site, store'.row.value.status)
      else
        store' == store && process' == Unresolved(process, site)
  {
    hide Resolved, Unresolved;
    var status := store.row.value.status;
    ReadsAndMoves(store, process, site);
    if status == CmdRegistered && Reconcilable(status, store.task) {
      var mark := process.(pc := MarkPending(site));
      MarksAndRereads(store.(task := ExecutionPending), mark, site, 2);
      MarksAndRereads(store.(task := ExecutionPending), mark, site, 3);
      SameAnswer(process, mark.pc, site, CmdPending);
      assert store.(task := ExecutionPending) == store || store.task == CheckerValidated;
    }
  }

  lemma SameAnswer(process: Process, pc: Pc, site: Site, seen: CommandStatus)
    ensures Resolved(process.(pc := pc), site, seen) == Resolved(process, site, seen)
    ensures Unresolved(process.(pc := pc), site) == Unresolved(process, site)
  {
  }

  // The first three calls: read the command, read the task, move the task.
  lemma {:induction false} ReadsAndMoves(store: Store, process: Process, site: Site)
    requires store.row.Some? && process.pc == ReadCommand(site)
    ensures var status := store.row.value.status;
      Alone(store, process, RECONCILE_CALLS) ==
        if store.task == RepairFrom(status) then
          var moved := store.(task := RepairTo(status));
          if status == CmdRegistered then Alone(moved, process.(pc := MarkPending(site)), 2)
          else (moved, Resolved(process, site, status))
        else if Level(status, store.task) then
          if status == CmdRegistered then Alone(store, process.(pc := MarkPending(site)), 3)
          else (store, Resolved(process, site, status))
        else (store, Unresolved(process, site))
  {
    hide Resolved, Unresolved;
    var status := store.row.value.status;
    var read := process.(pc := ReadTask(site, status));
    assert Alone(store, process, 5) == Alone(store, read, 4);
    SameAnswer(process, read.pc, site, status);
    if store.task == RepairFrom(status) {
      var move := process.(pc := MoveTask(site, status));
      var moved := store.(task := RepairTo(status));
      SameAnswer(process, move.pc, site, status);
      assert Alone(store, read, 4) == Alone(store, move, 3);
      assert Alone(store, move, 3) == Alone(moved, AfterTaskMoved(move, site, status), 2);
      StaysResolved(moved, process, site, status, 2);
    } else {
      StaysResolved(store, process, site, status, 3);
      StaysUnresolved(store, process, site, 3);
    }
  }

  lemma {:induction false} MarksAndRereads(store: Store, process: Process, site: Site, steps: nat)
    requires store.row.Some? && store.row.value.status == CmdRegistered && Free(store) && steps >= 2
    requires process.pc == MarkPending(site)
    ensures Alone(store, process, steps)
      == (WithStatus(store, CmdPending), Resolved(process, site, CmdPending))
  {
    var pending := WithStatus(store, CmdPending);
    var reread := process.(pc := RereadCommand(site));
    assert Alone(store, process, steps) == Alone(pending, reread, steps - 1);
    assert Alone(pending, reread, steps - 1) == Alone(pending, Resolved(reread, site, CmdPending), steps - 2);
    StaysResolved(pending, process, site, CmdPending, steps - 2);
  }

  lemma {:induction false} StaysResolved(store: Store, process: Process, site: Site, seen: CommandStatus, steps: nat)
    requires store.row.Some?
    ensures Alone(store, Resolved(process, site, seen), steps) == (store, Resolved(process, site, seen))
  {
  }

  lemma {:induction false} StaysUnresolved(store: Store, process: Process, site: Site, steps: nat)
    requires store.row.Some?
    ensures Alone(store, Unresolved(process, site), steps) == (store, Unresolved(process, site))
  {
  }

  // Reconciling twice is reconciling once, on whatever pair.
  lemma {:induction false} ReconcileIsIdempotent(store: Store, process: Process, site: Site)
    requires store.row.Some? && Free(store) && process.pc == ReadCommand(site)
    ensures var (once, _) := Alone(store, process, RECONCILE_CALLS);
      once.row.Some? && Alone(once, process, RECONCILE_CALLS).0 == once
  {
    UndisturbedReconcile(store, process, site);
    if Reconcilable(store.row.value.status, store.task) {
      var once := Leveled(store);
      UndisturbedReconcile(once, process, site);
      assert once.row.value.status != CmdRegistered;
      assert Leveled(once) == once;
    }
  }

  // ---------------------------------------------------------------- amid other writers

  datatype ResolverError = MissingCommand | Inconsistent | StaleTask | StateConflict

  predicate Retryable(error: ResolverError) {
    error == StaleTask || error == StateConflict
  }

  /** The shared database. Between two awaited calls any number of other steps may happen. */
  class Database {
    var store: Store
    var lookups: nat  // findByCommandId at the start of an attempt
    const quiet: bool // nobody else writes

    constructor (store: Store, quiet: bool)
      requires StoreInv(store)
      ensures this.store == store && this.quiet == quiet && lookups == 0 && Valid()
    {
      this.store, this.quiet, lookups := store, quiet, 0;
    }

    predicate Valid()
      reads this
    {
      StoreInv(store)
    }

    /** Other processes take any steps that keep the invariant and never go back. Callers learn
        nothing but the contract. */
    method Others()
      requires Valid()
      modifies `store
      ensures Valid() && NoWayBack(old(store), store)
      ensures quiet ==> store == old(store)
    {
    }

    /** PostgresVerificationLedger.transition: compare and set under a row lock. */
    method Transition(expectedFrom: TaskStatus, to: TaskStatus) returns (stale: bool)
      modifies `store
      ensures stale <==> old(store).task != expectedFrom
      ensures store == if stale then old(store) else old(store).(task := to)
    {
      stale := store.task != expectedFrom;
      if !stale {
        store := store.(task := to);
      }
    }

    /** findByCommandId. */
    method FindCommand() returns (row: Option<Row>)
      modifies `lookups
      ensures row == store.row && lookups == old(lookups) + 1
    {
      lookups := lookups + 1;
      row := store.row;
    }

    /** markExecutionPending: an update guarded by the status `registered`. */
    method MarkExecutionPending() returns (conflict: bool)
      requires store.row.Some?
      modifies `store
      ensures conflict <==> old(store).row.value.status != CmdRegistered
      ensures store == if conflict then old(store) else WithStatus(old(store), CmdPending)
    {
      conflict := store.row.value.status != CmdRegistered;
      if !conflict {
        store := WithStatus(store, CmdPending);
      }
    }
  }

  /** The task has reached what a command with this status needs, and cannot fall behind it. */
  predicate Synced(seen: CommandStatus, task: TaskStatus) {
    match seen
    case CmdRegistered => false
    case CmdPending => InMutationLane(task) || task == Verified
    case CmdCommitted => task in {Committed, ReadbackVerified, ReadbackFailed, Verified}
    case CmdVerified => task in {ReadbackVerified, Verified}
    case CmdExecutionFailed => task == ExecutionFailed
    case CmdReadbackFailed => task == ReadbackFailed
  }

  lemma SyncedIsStable(seen: CommandStatus, before: Store, after: Store)
    requires Synced(seen, before.task) && NoWayBack(before, after)
    requires StoreInv(after) && after.row.Some? && Reaches(seen, after.row.value.status)
    ensures Synced(seen, after.task)
  {
  }

  lemma RepairKeeps(seen: CommandStatus, store: Store)
    requires StoreInv(store) && store.row.Some? && Reaches(seen, store.row.value.status)
    requires store.task == RepairFrom(seen)
    ensures StoreInv(store.(task := RepairTo(seen))) && NoWayBack(store, store.(task := RepairTo(seen)))
    ensures seen != CmdRegistered ==> Synced(seen, RepairTo(seen))
  {
  }

  lemma LevelIsSynced(seen: CommandStatus, store: Store)
    requires StoreInv(store) && store.row.Some? && Reaches(seen, store.row.value.status)
    requires Level(seen, store.task) && seen != CmdRegistered
    ensures Synced(seen, store.task)
  {
  }

  lemma MarkKeeps(store: Store)
    requires StoreInv(store) && store.row.Some? && store.row.value.status == CmdRegistered
    requires store.task == ExecutionPending
    ensures StoreInv(WithStatus(store, CmdPending)) && NoWayBack(store, WithStatus(store, CmdPending))
  {
  }

  /** Between a look at the database and the write that was based on it, another writer came first. */
  ghost predicate LostRace(error: ResolverError, looked: Store, found: Store) {
    && NoWayBack(looked, found)
    && match error
       case StaleTask => found.task != looked.task
       case StateConflict => Statuses(looked.row) == Some(CmdRegistered) && Statuses(found.row) != Some(CmdRegistered)
       case _ => false
  }

  /** The answer and the store of a call nobody interferes with. */
  ghost predicate SettlesAlone(before: Store, after: Store, outcome: Result<CommandStatus, ResolverError>) {
    match before.row
    case None => after == before && outcome == Failure(MissingCommand)
    case Some(row) =>
      if InSwitch(row.status, before.task) then
        var raised := if row.status == CmdRegistered then CmdPending else row.status;
        && after == WithStatus(before, raised).(task := SwitchTarget(row.status, before.task))
        && outcome == Success(raised)
      else
        after == before && outcome == Failure(Inconsistent)
  }

  // The switch, up to the move of the task. `looked` is the store in which the task was read.
  method LevelTask(db: Database, seen: CommandStatus) returns (failed: Option<ResolverError>, ghost looked: Store)
    requires db.Valid() && db.store.row.Some? && Reaches(seen, db.store.row.value.status)
    modifies db`store
    ensures db.Valid() && NoWayBack(old(db.store), looked) && NoWayBack(looked, db.store)
    ensures failed == Some(Inconsistent) <==> !InSwitch(seen, looked.task)
    ensures failed.Some? ==> failed.value == Inconsistent || (failed.value == StaleTask && db.store.task != looked.task)
    ensures failed.None? ==> Level(seen, db.store.task)
    ensures failed.None? && seen != CmdRegistered ==> Synced(seen, db.store.task)
    ensures db.quiet ==> looked == old(db.store)
    ensures db.quiet ==>
      if InSwitch(seen, looked.task) then
        failed.None? && db.store == looked.(task := SwitchTarget(seen, looked.task))
      else
        failed == Some(Inconsistent) && db.store == looked
  {
    hide Synced;
    ghost var s0 := db.store;
    db.Others();
    looked := db.store;
    ReachesTransitive(seen, s0.row.value.status, looked.row.value.status);
    var task := db.store.task;
    SwitchIsTheTable(seen, task);
    if task == RepairFrom(seen) {
      db.Others();
      ghost var s2 := db.store;
      ReachesTransitive(seen, looked.row.value.status, s2.row.value.status);
      if db.store.task == RepairFrom(seen) {
        RepairKeeps(seen, db.store);
      }
      var stale := db.Transition(RepairFrom(seen), RepairTo(seen));
      if stale {
        return Some(StaleTask), looked;
      }
      NoWayBackTransitive(looked, s2, db.store);
    } else if !Level(seen, task) {
      return Some(Inconsistent), looked;
    } else if seen != CmdRegistered {
      LevelIsSynced(seen, db.store);
    }
    return None, looked;
  }

  // One attempt. `reread` tells that the record came from the second read (line 56), `looked` is the
  // store in which the attempt read the task, or what it saw before it lost a race. It finds a pair
  // inconsistent exactly if the status it read first and the task it read then are in no case.
  method ReconcileOnce(db: Database)
    returns (outcome: Result<CommandStatus, ResolverError>, reread: bool, ghost looked: Store)
    requires db.Valid()
    modifies db
    ensures db.Valid() && NoWayBack(old(db.store), db.store)
    ensures outcome == Failure(MissingCommand) <==> old(db.store).row.None?
    ensures outcome == Failure(Inconsistent) ==>
      && old(db.store).row.Some? && NoWayBack(old(db.store), looked)
      && !InSwitch(old(db.store).row.value.status, looked.task)
    ensures db.quiet ==> SettlesAlone(old(db.store), db.store, outcome)
    ensures db.lookups == old(db.lookups) + 1
    ensures outcome.Success? ==> (reread <==> old(db.store).row.value.status == CmdRegistered)
    ensures outcome.Success? && !reread ==> outcome.value == old(db.store).row.value.status
    ensures outcome.Failure? && Retryable(outcome.error) ==>
      NoWayBack(old(db.store), looked) && LostRace(outcome.error, looked, db.store)
    ensures outcome.Success? ==>
      && db.store.row.Some?
      && outcome.value != CmdRegistered
      && Reaches(outcome.value, db.store.row.value.status)
      && (!reread ==> Synced(outcome.value, db.store.task))
  {
    hide Synced, InSwitch, SwitchTarget;
    reread, looked := false, db.store;
    var row := db.FindCommand();
    if row.None? {
      return Failure(MissingCommand), false, looked;
    }
    var seen := row.value.status;
    ghost var s0 := db.store;
    var failed;
    failed, looked := LevelTask(db, seen);
    if failed.Some? {
      NoWayBackTransitive(s0, looked, db.store);
      return Failure(failed.value), false, looked;
    }
    ghost var s3 := db.store;
    NoWayBackTransitive(s0, looked, s3);
    if seen != CmdRegistered {
      return Success(seen), false, looked;
    }
    db.Others();
    ghost var s4 := db.store;
    NoWayBackTransitive(s0, s3, s4);
    if db.store.row.value.status == CmdRegistered {
      MarkKeeps(db.store);
    }
    var conflict := db.MarkExecutionPending();
    if conflict {
      return Failure(StateConflict), false, s0;
    }
    ghost var s5 := db.store;
    NoWayBackTransitive(s0, s4, s5);
    db.Others();
    NoWayBackTransitive(s0, s5, db.store);
    return Success(db.store.row.value.status), true, looked;
  }

  /** The command read in the one store and the task read in the other are in no case of the switch. */
  ghost predicate Unknown(read: Store, looked: Store) {
    read.row.Some? && !InSwitch(read.row.value.status, looked.task)
  }

  // The attempt loop: at most three attempts, each but the last ended by losing a race, the one for
  // the task or the one for the command. Whatever the others do meanwhile, a record that was not
  // merely read again is one the task is level with.
  method Reconcile(db: Database)
    returns (outcome: Result<CommandStatus, ResolverError>, lost: seq<ResolverError>, reread: bool,
             ghost races: seq<(Store, Store)>)
    requires db.Valid()
    modifies db
    ensures db.Valid() && NoWayBack(old(db.store), db.store)
    ensures |lost| == |races| <= 2
    ensures db.lookups == old(db.lookups) + |lost| + 1
    ensures forall i :: 0 <= i < |lost| ==>
      lost[i] in {StaleTask, StateConflict} && LostRace(lost[i], races[i].0, races[i].1)
    ensures outcome in {Failure(StaleTask), Failure(StateConflict)} ==> |lost| == 2
    ensures outcome == Failure(MissingCommand) <==> old(db.store).row.None?
    ensures outcome == Failure(Inconsistent) ==> exists read, looked ::
      NoWayBack(old(db.store), read) && NoWayBack(read, looked) && Unknown(read, looked)
    ensures db.quiet ==> lost == [] && SettlesAlone(old(db.store), db.store, outcome)
    ensures outcome.Success? ==>
      && db.store.row.Some?
      && outcome.value != CmdRegistered
      && Reaches(outcome.value, db.store.row.value.status)
      && (!reread ==> Synced(outcome.value, db.store.task))
  {
    lost, races := [], [];
    ghost var looked: Store;
    ghost var s0 := db.store;
    outcome, reread, looked := ReconcileOnce(db);
    ghost var read := s0;
    while outcome.Failure? && Retryable(outcome.error) && |lost| < 2
      invariant db.Valid() && NoWayBack(s0, db.store)
      invariant |lost| == |races| <= 2 && db.lookups == old(db.lookups) + |lost| + 1
      invariant forall i :: 0 <= i < |lost| ==> Retryable(lost[i]) && LostRace(lost[i], races[i].0, races[i].1)
      invariant outcome.Failure? && Retryable(outcome.error) ==> LostRace(outcome.error, looked, db.store)
      invariant outcome == Failure(MissingCommand) <==> s0.row.None?
      invariant outcome == Failure(Inconsistent) ==>
        NoWayBack(s0, read) && NoWayBack(read, looked) && Unknown(read, looked)
      invariant db.quiet ==> lost == [] && SettlesAlone(s0, db.store, outcome)
      invariant outcome.Success? ==>
        && db.store.row.Some?
        && outcome.value != CmdRegistered
        && Reaches(outcome.value, db.store.row.value.status)
        && (!reread ==> Synced(outcome.value, db.store.task))
      decreases 2 - |lost|
    {
      ghost var s1 := db.store;
      lost, races := lost + [outcome.error], races + [(looked, db.store)];
      outcome, reread, looked := ReconcileOnce(db);
      read := s1;
      NoWayBackTransitive(s0, s1, db.store);
    }
  }
}
