/** The verification task's state machine (packages/runtime/src/state-machine.ts). */
module TaskStateMachine {
  datatype TaskStatus =
    | Created
    | SkillSelected
    | MakerRunning
    | MakerValidated
    | CheckerRunning
    | CheckerValidated
    | RevisionRequested
    | ExecutionPending
    | Committed
    | ReadbackVerified
    | ExecutionFailed
    | ReadbackFailed
    | Verified
    | Partial
    | InsufficientEvidence
    | Conflicted
    | Failed

  function Allowed(from: TaskStatus): set<TaskStatus> {
    match from
    case Created => {SkillSelected, Failed}
    case SkillSelected => {MakerRunning, Failed}
    case MakerRunning => {MakerValidated, Failed}
    case MakerValidated => {CheckerRunning, Failed}
    case CheckerRunning => {CheckerValidated, Failed}
    case CheckerValidated =>
      {Verified, Partial, InsufficientEvidence, Conflicted, Failed, RevisionRequested, ExecutionPending}
    case RevisionRequested => {MakerRunning, Failed}
    case ExecutionPending => {Committed, ExecutionFailed}
    case Committed => {ReadbackVerified, ReadbackFailed}
    case ReadbackVerified => {Verified}
    case _ => {}
  }

  predicate IsAllowedTransition(from: TaskStatus, to: TaskStatus) {
    to in Allowed(from)
  }

  predicate IsTerminalStatus(status: TaskStatus) {
    status in {ExecutionFailed, ReadbackFailed, Verified, Partial, InsufficientEvidence, Conflicted, Failed}
  }

  /** The statuses a task passes through only while a mutation command is carried out. */
  predicate InMutationLane(status: TaskStatus) {
    status in {ExecutionPending, Committed, ReadbackVerified, ExecutionFailed, ReadbackFailed}
  }

  /** A history of one task: every consecutive pair is an allowed transition. */
  ghost predicate IsHistory(history: seq<TaskStatus>) {
    forall i :: 0 <= i < |history| - 1 ==> IsAllowedTransition(history[i], history[i + 1])
  }

  // The two tables of the source agree: a status is terminal exactly when nothing follows it.
  lemma TerminalIffNoSuccessor(status: TaskStatus)
    ensures IsTerminalStatus(status) <==> Allowed(status) == {}
  {
    if !IsTerminalStatus(status) {
      assert Failed in Allowed(status) || Committed in Allowed(status)
          || ReadbackVerified in Allowed(status) || Verified in Allowed(status);
    }
  }

  /** The stages of making and checking, in their order. */
  function Stage(status: TaskStatus): nat {
    match status
    case Created => 1
    case SkillSelected => 2
    case MakerRunning => 3
    case MakerValidated => 4
    case CheckerRunning => 5
    case CheckerValidated => 6
    case _ => 0
  }

  // The whole table: until a task is checked it goes on stage by stage; what is checked is decided on;
  // a revision goes back to the maker; from execution on there is one way to succeed and one to fail
  // for each step; and a task may be given up exactly while it is open and not being executed.
  lemma TransitionIff(from: TaskStatus, to: TaskStatus)
    ensures IsAllowedTransition(from, to) <==>
      || (1 <= Stage(from) <= 5 && Stage(to) == Stage(from) + 1)
      || (from == CheckerValidated
          && to in {Verified, Partial, InsufficientEvidence, Conflicted, RevisionRequested, ExecutionPending})
      || (from == RevisionRequested && to == MakerRunning)
      || (from == ExecutionPending && to in {Committed, ExecutionFailed})
      || (from == Committed && to in {ReadbackVerified, ReadbackFailed})
      || (from == ReadbackVerified && to == Verified)
      || (to == Failed && !InMutationLane(from) && !IsTerminalStatus(from))
  {
  }

  // A committed task was made, checked and accepted immediately before: no history reaches
  // `committed` around the maker, the checker or the execution step.
  lemma CommitIsPrecededByMakerAndChecker(history: seq<TaskStatus>)
    requires IsHistory(history) && |history| > 0 && history[0] == Created
    requires history[|history| - 1] == Committed
    ensures |history| >= 8
    ensures history[|history| - 6..] ==
      [MakerRunning, MakerValidated, CheckerRunning, CheckerValidated, ExecutionPending, Committed]
  {
    var n := |history|;
    assert IsAllowedTransition(history[n - 2], history[n - 1]);
    assert history[n - 2] == ExecutionPending;
    assert IsAllowedTransition(history[n - 3], history[n - 2]);
    assert history[n - 3] == CheckerValidated;
    assert IsAllowedTransition(history[n - 4], history[n - 3]);
    assert history[n - 4] == CheckerRunning;
    assert IsAllowedTransition(history[n - 5], history[n - 4]);
    assert history[n - 5] == MakerValidated;
    assert IsAllowedTransition(history[n - 6], history[n - 5]);
    assert history[n - 6] == MakerRunning;
    assert IsAllowedTransition(history[n - 7], history[n - 6]);
  }

  /** How far along the mutation lane a status is; the lane is left only for `verified`. */
  function LaneRank(status: TaskStatus): nat {
    match status
    case ExecutionPending => 1
    case Committed => 2
    case ExecutionFailed => 4
    case ReadbackVerified => 3
    case ReadbackFailed => 4
    case Verified => 4
    case _ => 0
  }

  // From the mutation lane a task only moves forward, in at most three transitions, and
  // ends in the lane or verified.
  lemma LaneOnlyAdvances(history: seq<TaskStatus>, i: nat, j: nat)
    requires IsHistory(history) && i <= j < |history|
    requires InMutationLane(history[i])
    ensures InMutationLane(history[j]) || history[j] == Verified
    ensures LaneRank(history[i]) + (j - i) <= LaneRank(history[j]) <= 4
    decreases j - i
  {
    if i < j {
      LaneOnlyAdvances(history, i, j - 1);
      assert IsAllowedTransition(history[j - 1], history[j - 1 + 1]);
    }
  }
}
