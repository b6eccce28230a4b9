/** Runs of the confirmation router that show which promises it does not make. */
module ConversationLimits {
  import opened Wrappers
  import opened WorkingMemoryDocument
  import opened ConversationRouter
  import opened ConversationRuns
  import opened ConversationTruth
  import Json

  const NEWBORN := Some(Lifecycle(0, 0, None, None))
  const KEPT := Entry(Other, "kept", Household, None, Json.JNull, NEWBORN)
  const ADDED := Entry(Goal, "added", Household, None, Json.JNull, None)

  /** The document the proposals below are bound to. */
  const BASE: Document := map["kept" := KEPT]

  const GROWN: Document := BASE["added" := ADDED.(lifecycle := NEWBORN)]

  /** What another member may make of the document meanwhile. */
  const REWORDED: Document := BASE["kept" := KEPT.(summary := "reworded")]

  /** The proposal to add an entry. */
  function Addition(engineAhead: int): Setting {
    Setting(Create("added", ADDED), "member", RevisionOf(BASE), 10, engineAhead, (document: Document) => 0)
  }

  /** The proposal to replace the entry by the content it already has. */
  function Repetition(): Setting {
    Setting(Replace("kept", KEPT.(lifecycle := None)), "member", RevisionOf(BASE), 10, 0, (document: Document) => 0)
  }

  function Start(setting: Setting): State {
    State(Row(Pending, 0, None, None, None), BASE, 0, map[], 0, 0, EffectIsPresent(BASE, setting.mutation))
  }

  /** From the start these events lead to this state, by these rules. */
  ghost predicate Leads(setting: Setting, events: seq<Event>, state: State, rules: set<Rule>) {
    && After(setting, Start(setting), events) == Some(state)
    && Orderly(setting, Start(setting), events, rules)
  }

  lemma Go(setting: Setting, events: seq<Event>, state: State, rules: set<Rule>, event: Event)
    returns (longer: seq<Event>, next: State)
    requires Leads(setting, events, state, rules)
    requires Step(setting, state, event).Some?
    requires forall rule :: rule in rules ==> StepObeys(setting, state, event, rule)
    ensures Step(setting, state, event) == Some(next)
    ensures Leads(setting, longer, next, rules)
  {
    hide Step, StepObeys, Start;
    longer, next := events + [event], Step(setting, state, event).value;
    Then(setting, Start(setting), events, event);
    assert longer[..|events|] == events;
    forall rule | rule in rules
      ensures Obeys(setting, Start(setting), longer, rule)
    {
      assert Obeys(setting, Start(setting), events, rule) && StepObeys(setting, state, event, rule);
    }
  }

  /** The rules that speak of the setting and not of the steps. */
  ghost predicate Suits(setting: Setting, rules: set<Rule>) {
    && (ClockNotBehind in rules ==> setting.engineAhead >= 0)
    && (NotThereBefore in rules ==> !(setting.mutation.Replace? && PresentIn(setting.basedOn, setting.mutation)))
  }

  /** The state with this row and a single handler. */
  function Solo(state: State, row: Row, id: nat, message: Message, pc: Pc): State {
    state.(row := row, handlers := map[id := Handler(message, pc)])
  }

  // A handler that is alone takes a step that neither writes nor fails.
  lemma Proceed(setting: Setting, events: seq<Event>, state: State, rules: set<Rule>, id: nat, choice: Choice,
                row: Row, pc: Pc)
    returns (longer: seq<Event>, next: State)
    requires Leads(setting, events, state, rules) && Suits(setting, rules)
    requires state.handlers.Keys == {id} && !choice.Writes? && !choice.Fails?
    requires HandlerStep(setting, state, id, choice) == Some(SetPc(state.(row := row), id, pc))
    ensures next == Solo(state, row, id, state.handlers[id].message, pc)
    ensures Leads(setting, longer, next, rules)
  {
    hide HandlerStep, Leads, PresentIn;
    next := Solo(state, row, id, state.handlers[id].message, pc);
    assert next.handlers == SetPc(state.(row := row), id, pc).handlers;
    var after: State;
    longer, after := Go(setting, events, state, rules, Advance(id, choice));
  }

  // A handler starts work when no other is alive.
  lemma Arrive(setting: Setting, events: seq<Event>, state: State, rules: set<Rule>, id: nat, message: Message)
    returns (longer: seq<Event>, next: State)
    requires Leads(setting, events, state, rules) && Suits(setting, rules)
    requires state.handlers == map[]
    ensures next == Solo(state, state.row, id, message, FindReplay)
    ensures Leads(setting, longer, next, rules)
  {
    hide Leads, PresentIn;
    longer, next := Go(setting, events, state, rules, Deliver(id, message));
    assert next.handlers == map[id := Handler(message, FindReplay)];
  }

  // The only handler dies.
  lemma Stop(setting: Setting, events: seq<Event>, state: State, rules: set<Rule>, id: nat)
    returns (longer: seq<Event>, next: State)
    requires Leads(setting, events, state, rules) && Suits(setting, rules)
    requires state.handlers.Keys == {id}
    ensures next == state.(handlers := map[])
    ensures Leads(setting, longer, next, rules)
  {
    hide Leads, PresentIn;
    longer, next := Go(setting, events, state, rules, Die(id));
    assert next.handlers == map[];
  }

  // ---------------------------------------------------------------- up to the decision

  function Decided(decision: Decision): Row {
    Row(Resolving, 1, Some(0), Some(decision), None)
  }

  /** The first message has decided, and its handler is about to act on it. */
  function Deciding(setting: Setting, decision: Decision): State {
    Solo(Start(setting), Decided(decision), 0, 0, Resolve(Decided(decision), decision))
  }

  lemma DecisionIsClaimed(setting: Setting, rules: set<Rule>, decision: Decision) returns (events: seq<Event>)
    requires Suits(setting, rules) && setting.expiresAt == 10 && decision != Ambiguous
    ensures Leads(setting, events, Deciding(setting, decision), rules)
  {
    hide Suits, RevisionOf, EffectIsPresent, Leads;
    var state := Start(setting);
    var row := state.row;
    events := Nothing(setting, rules);
    events, state := Arrive(setting, events, state, rules, 0, 0);
    events, state := Proceed(setting, events, state, rules, 0, Goes, row, FindOpen);
    events, state := Proceed(setting, events, state, rules, 0, Goes, row, Classify(row, false));
    events, state := Proceed(setting, events, state, rules, 0, Disposes(Decides(decision)), row, Claim(row, decision));
    events, state := Proceed(setting, events, state, rules, 0, Goes, Decided(decision),
                             Resolve(Decided(decision), decision));
  }

  lemma Nothing(setting: Setting, rules: set<Rule>) returns (events: seq<Event>)
    ensures Leads(setting, events, Start(setting), rules)
  {
    events := [];
  }

  /** The approval is about to be carried out. */
  function Approved(setting: Setting): State {
    Solo(Start(setting), Decided(Approve), 0, 0, ApplyMutation(Decided(Approve)))
  }

  lemma ApprovalIsTakenUp(setting: Setting, rules: set<Rule>) returns (events: seq<Event>)
    requires Suits(setting, rules) && setting.expiresAt == 10 && setting.engineAhead < 10
    ensures Leads(setting, events, Approved(setting), rules)
  {
    hide Suits, RevisionOf, EffectIsPresent, Leads;
    events := DecisionIsClaimed(setting, rules, Approve);
    var state: State;
    events, state := Proceed(setting, events, Deciding(setting, Approve), rules, 0, Goes, Decided(Approve),
                             ApplyMutation(Decided(Approve)));
  }

  // ---------------------------------------------------------------- up to the change

  lemma AdditionFacts(engineAhead: int)
    ensures var setting := Addition(engineAhead);
      && RevisionOf(BASE) != RevisionOf(GROWN) && RevisionOf(BASE) != RevisionOf(REWORDED)
      && Stored(GROWN) == GROWN
      && WorkingMemoryDocument.Apply(BASE, setting.mutation, setting.principal, 0, setting.bytes) == Success(GROWN)
      && VerifyReadback(BASE, GROWN, setting.mutation)
      && EffectIsPresent(GROWN, setting.mutation)
      && !EffectIsPresent(BASE, setting.mutation) && !EffectIsPresent(REWORDED, setting.mutation)
  {
    assert GROWN.Keys == {"kept", "added"};
    assert "added" in RevisionOf(GROWN).content && "added" !in RevisionOf(BASE).content;
    assert RevisionOf(REWORDED).content["kept"].summary == "reworded";
    assert RevisionOf(BASE).content["kept"].summary == "kept";
  }

  /** The entry has been added, and its handler is about to record this result. */
  function Landed(setting: Setting, result: Status): State {
    Solo(Start(setting), Decided(Approve), 0, 0, Complete(Decided(Approve), result, false))
      .(memory := GROWN, changes := 1, effectSeen := true)
  }

  // A handler that is alone adds the entry.
  lemma Adds(engineAhead: int, events: seq<Event>, state: State, rules: set<Rule>, id: nat, row: Row, reported: bool)
    returns (longer: seq<Event>, next: State)
    requires var setting := Addition(engineAhead); Leads(setting, events, state, rules) && Suits(setting, rules)
    requires WritesAreReported in rules ==> reported
    requires state.handlers.Keys == {id} && state.handlers[id].pc == ApplyMutation(row) && state.memory == BASE
    ensures var result := if reported then Applied else Failed;
      next == Solo(state, state.row, id, state.handlers[id].message, Complete(row, result, false))
                .(memory := GROWN, changes := state.changes + 1, effectSeen := true)
    ensures Leads(Addition(engineAhead), longer, next, rules)
  {
    hide Leads, RevisionOf, EffectIsPresent, VerifyReadback, WorkingMemoryDocument.Apply, Stored, PresentIn;
    AdditionFacts(engineAhead);
    longer, next := Go(Addition(engineAhead), events, state, rules, Advance(id, Writes(0, reported)));
    assert next.handlers == map[id := Handler(state.handlers[id].message,
                                              Complete(row, if reported then Applied else Failed, false))];
  }

  lemma AdditionLands(engineAhead: int, rules: set<Rule>, reported: bool) returns (events: seq<Event>)
    requires Suits(Addition(engineAhead), rules) && engineAhead < 10
    requires WritesAreReported in rules ==> reported
    ensures Leads(Addition(engineAhead), events,
                  Landed(Addition(engineAhead), if reported then Applied else Failed), rules)
  {
    hide Leads, Suits, RevisionOf, EffectIsPresent;
    events := ApprovalIsTakenUp(Addition(engineAhead), rules);
    var state: State;
    events, state := Adds(engineAhead, events, Approved(Addition(engineAhead)), rules, 0, Decided(Approve), reported);
  }

  lemma AdditionSuits(engineAhead: int, rules: set<Rule>)
    requires ClockNotBehind in rules ==> engineAhead >= 0
    ensures Suits(Addition(engineAhead), rules)
  {
  }

  // ---------------------------------------------------------------- redelivery

  // The first message comes again after its handler died.
  lemma Redeliver(setting: Setting, events: seq<Event>, state: State, rules: set<Rule>, decision: Decision)
    returns (longer: seq<Event>, next: State)
    requires Leads(setting, events, state, rules) && Suits(setting, rules)
    requires state.row == Decided(decision) && state.handlers == map[]
    ensures next == Solo(state, Decided(decision), 1, 0, Recover(Decided(decision)))
    ensures Leads(setting, longer, next, rules)
  {
    hide Suits, RevisionOf, EffectIsPresent, Leads;
    longer, next := Arrive(setting, events, state, rules, 1, 0);
    longer, next := Proceed(setting, longer, next, rules, 1, Goes, state.row, Recover(state.row));
  }

  // ... and looks whether the approved change is there.
  lemma RedeliverToInspect(setting: Setting, events: seq<Event>, state: State, rules: set<Rule>)
    returns (longer: seq<Event>, next: State)
    requires Leads(setting, events, state, rules) && Suits(setting, rules)
    requires state.row == Decided(Approve) && state.handlers == map[] && !EngineSaysExpired(setting, state.now)
    ensures next == Solo(state, Decided(Approve), 1, 0, Inspect(Decided(Approve)))
    ensures Leads(setting, longer, next, rules)
  {
    hide Suits, RevisionOf, EffectIsPresent, Leads;
    longer, next := Redeliver(setting, events, state, rules, Approve);
    longer, next := Proceed(setting, longer, next, rules, 1, Goes, state.row, Inspect(state.row));
  }

  // A handler records the result it holds.
  lemma Record(setting: Setting, events: seq<Event>, state: State, rules: set<Rule>, id: nat, decision: Decision,
               result: Status)
    returns (longer: seq<Event>, next: State)
    requires Leads(setting, events, state, rules) && Suits(setting, rules) && result !in {Pending, Resolving}
    requires state.row == Decided(decision)
    requires state.handlers.Keys == {id}
    requires state.handlers[id].pc == Complete(Decided(decision), result, false)
    requires result == Expired ==> setting.expiresAt <= state.now
    ensures next.row == state.row.(status := result, version := 2, response := Some(0))
    ensures next.memory == state.memory && next.changes == state.changes
    ensures Leads(setting, longer, next, rules)
  {
    hide Suits, RevisionOf, EffectIsPresent, Leads;
    var row := state.row.(status := result, version := 2, response := Some(0));
    longer, next := Proceed(setting, events, state, rules, id, Responds(0), row, Finished(Recorded(0)));
  }

  // ---------------------------------------------------------------- each rule is needed

  /** A run that breaks no rule but this one, and whose row denies a change that was made. */
  ghost predicate Misleads(setting: Setting, start: State, events: seq<Event>, rule: Rule, status: Status) {
    && Initial(setting, start)
    && After(setting, start, events).Some?
    && Orderly(setting, start, events, RULES - {rule})
    && After(setting, start, events).value.row.status == status
    && After(setting, start, events).value.changes == 1
  }

  /** Two live handlers of the same message: the first is about to write, the second has come to here. */
  function Both(setting: Setting, second: Pc): State {
    Approved(setting).(handlers := Approved(setting).handlers[1 := Handler(0, second)])
  }

  lemma SecondFollows(setting: Setting, events: seq<Event>, rules: set<Rule>, before: Pc, after: Pc)
    returns (longer: seq<Event>)
    requires Leads(setting, events, Both(setting, before), rules) && Suits(setting, rules) && OneAtATime !in rules
    requires HandlerStep(setting, Both(setting, before), 1, Goes) == Some(SetPc(Both(setting, before), 1, after))
    ensures Leads(setting, longer, Both(setting, after), rules)
  {
    hide HandlerStep, Leads, PresentIn;
    var next: State;
    longer, next := Go(setting, events, Both(setting, before), rules, Advance(1, Goes));
    assert next.handlers == Both(setting, after).handlers;
  }

  lemma BothAreAlive(rules: set<Rule>) returns (events: seq<Event>)
    requires OneAtATime !in rules
    ensures Leads(Addition(0), events, Both(Addition(0), Inspect(Decided(Approve))), rules)
  {
    hide Leads, Suits, RevisionOf, EffectIsPresent;
    var setting, row := Addition(0), Decided(Approve);
    AdditionSuits(0, rules);
    events := ApprovalIsTakenUp(setting, rules);
    var next: State;
    events, next := Go(setting, events, Approved(setting), rules, Deliver(1, 0));
    assert next.handlers == Both(setting, FindReplay).handlers;
    events := SecondFollows(setting, events, rules, FindReplay, Recover(row));
    events := SecondFollows(setting, events, rules, Recover(row), Inspect(row));
  }

  lemma BothMayWrite(rules: set<Rule>) returns (events: seq<Event>)
    requires OneAtATime !in rules
    ensures Leads(Addition(0), events, Both(Addition(0), ApplyMutation(Decided(Approve))), rules)
  {
    hide Leads, Suits, RevisionOf, EffectIsPresent;
    var setting, row := Addition(0), Decided(Approve);
    AdditionFacts(0);
    AdditionSuits(0, rules);
    events := BothAreAlive(rules);
    events := SecondFollows(setting, events, rules, Inspect(row), Resolve(row, Approve));
    events := SecondFollows(setting, events, rules, Resolve(row, Approve), ApplyMutation(row));
  }

  lemma Stops(setting: Setting, events: seq<Event>, state: State, rules: set<Rule>, id: nat)
    returns (longer: seq<Event>, next: State)
    requires Leads(setting, events, state, rules) && Suits(setting, rules) && OneAtATime !in rules
    ensures next == state.(handlers := state.handlers - {id})
    ensures Leads(setting, longer, next, rules)
  {
    hide Leads, PresentIn;
    longer, next := Go(setting, events, state, rules, Die(id));
  }

  /** The first handler is gone after its write, the second one still about to write. */
  function Overtaken(setting: Setting): State {
    Solo(Start(setting), Decided(Approve), 1, 0, ApplyMutation(Decided(Approve)))
      .(memory := GROWN, changes := 1, effectSeen := true)
  }

  lemma FirstWrites(rules: set<Rule>) returns (events: seq<Event>)
    requires OneAtATime !in rules
    ensures Leads(Addition(0), events, Overtaken(Addition(0)), rules)
  {
    hide Leads, RevisionOf, EffectIsPresent, VerifyReadback, WorkingMemoryDocument.Apply, Stored, PresentIn;
    var setting := Addition(0);
    AdditionFacts(0);
    AdditionSuits(0, rules);
    events := BothMayWrite(rules);
    var state: State;
    events, state := Go(setting, events, Both(setting, ApplyMutation(Decided(Approve))), rules,
                        Advance(0, Writes(0, true)));
    events, state := Stops(setting, events, state, rules, 0);
    assert state.handlers == Overtaken(setting).handlers;
  }

  // Two live handlers: the slower one finds the document changed by the faster one.
  lemma StaleBesideAnother() returns (events: seq<Event>)
    ensures Misleads(Addition(0), Start(Addition(0)), events, OneAtATime, Stale)
  {
    hide Leads, RevisionOf, EffectIsPresent, PresentIn;
    var setting, rules := Addition(0), RULES - {OneAtATime};
    AdditionFacts(0);
    AdditionSuits(0, rules);
    events := FirstWrites(rules);
    var state: State;
    events, state := Go(setting, events, Overtaken(setting), rules, Advance(1, Writes(0, true)));
    events, state := Record(setting, events, state, rules, 1, Approve, Stale);
    LeadsThere(setting, events, state, rules);
  }

  lemma {:induction false} LeadsThere(setting: Setting, events: seq<Event>, state: State, rules: set<Rule>)
    requires Leads(setting, events, state, rules)
    ensures Initial(setting, Start(setting))
    ensures After(setting, Start(setting), events) == Some(state)
    ensures Orderly(setting, Start(setting), events, rules)
  {
  }

  // One handler at a time, but another writer removes the added entry, and rewords one, before the
  // message comes again.
  lemma StaleAfterAnotherWrite() returns (events: seq<Event>)
    ensures Misleads(Addition(0), Start(Addition(0)), events, ChangeStays, Stale)
  {
    hide Leads, Suits, RevisionOf, EffectIsPresent;
    var setting, rules := Addition(0), RULES - {ChangeStays};
    AdditionFacts(0);
    AdditionSuits(0, rules);
    events := AdditionLands(0, rules, true);
    var state: State;
    events, state := Stop(setting, events, Landed(setting, Applied), rules, 0);
    events, state := Go(setting, events, state, rules, OtherWrite(REWORDED));
    events, state := RedeliverToInspect(setting, events, state, rules);
    events, state := Proceed(setting, events, state, rules, 1, Goes, state.row, Complete(state.row, Stale, false));
    events, state := Record(setting, events, state, rules, 1, Approve, Stale);
    LeadsThere(setting, events, state, rules);
  }

  // The write lands and the reply to it is lost.
  lemma FailedForLackOfReply() returns (events: seq<Event>)
    ensures Misleads(Addition(0), Start(Addition(0)), events, WritesAreReported, Failed)
  {
    hide Leads, Suits, RevisionOf, EffectIsPresent;
    var setting, rules := Addition(0), RULES - {WritesAreReported};
    AdditionSuits(0, rules);
    events := AdditionLands(0, rules, false);
    var state: State;
    events, state := Record(setting, events, Landed(setting, Failed), rules, 0, Approve, Failed);
    LeadsThere(setting, events, state, rules);
  }

  // The handler dies after the change, and the redelivered message cannot read the document.
  lemma FailedForLackOfInspection() returns (events: seq<Event>)
    ensures Misleads(Addition(0), Start(Addition(0)), events, InspectionAnswers, Failed)
  {
    hide Leads, Suits, RevisionOf, EffectIsPresent;
    var setting, rules := Addition(0), RULES - {InspectionAnswers};
    AdditionSuits(0, rules);
    events := AdditionLands(0, rules, true);
    var state: State;
    events, state := Stop(setting, events, Landed(setting, Applied), rules, 0);
    events, state := RedeliverToInspect(setting, events, state, rules);
    events, state := Go(setting, events, state, rules, Advance(1, Fails));
    events, state := Record(setting, events, state, rules, 1, Approve, Failed);
    LeadsThere(setting, events, state, rules);
  }

  // Replacing an entry by the content it has changes its time of update only, and read-back denies it.
  lemma FailedForLackOfDifference() returns (events: seq<Event>)
    ensures Misleads(Repetition(), Start(Repetition()), events, NotThereBefore, Failed)
  {
    hide Leads, PresentIn;
    var setting, rules := Repetition(), RULES - {NotThereBefore};
    RepetitionFacts();
    events := ApprovalIsTakenUp(setting, rules);
    var state: State;
    events, state := WriteAgain(events, rules);
    events, state := Record(setting, events, state, rules, 0, Approve, Failed);
    LeadsThere(setting, events, state, rules);
  }

  const TOUCHED: Document := map["kept" := KEPT.(lifecycle := Some(Lifecycle(0, 1, None, None)))]

  lemma RepetitionFacts()
    ensures var setting := Repetition();
      && RevisionOf(BASE) != RevisionOf(TOUCHED)
      && Stored(TOUCHED) == TOUCHED
      && WorkingMemoryDocument.Apply(BASE, setting.mutation, setting.principal, 1, setting.bytes) == Success(TOUCHED)
      && !VerifyReadback(BASE, TOUCHED, setting.mutation)
  {
    assert BASE["kept" := TOUCHED["kept"]] == TOUCHED;
    assert RevisionOf(TOUCHED).content["kept"].lifecycle == Some(Lifecycle(0, 1, None, None));
    assert RevisionOf(BASE).content["kept"].lifecycle == NEWBORN;
  }

  lemma WriteAgain(events: seq<Event>, rules: set<Rule>) returns (longer: seq<Event>, next: State)
    requires Leads(Repetition(), events, Approved(Repetition()), rules) && Suits(Repetition(), rules)
    ensures next.row == Decided(Approve) && next.changes == 1
    ensures next.handlers == map[0 := Handler(0, Complete(Decided(Approve), Failed, false))]
    ensures Leads(Repetition(), longer, next, rules)
  {
    hide Leads, RevisionOf, EffectIsPresent, VerifyReadback, WorkingMemoryDocument.Apply, Stored, PresentIn;
    RepetitionFacts();
    longer, next := Go(Repetition(), events, Approved(Repetition()), rules, Advance(0, Writes(1, true)));
    assert next.handlers == map[0 := Handler(0, Complete(Decided(Approve), Failed, false))];
  }

  /** A proposal that was rejected by a handler now gone, after the database's deadline. */
  function Refused(setting: Setting): State {
    Start(setting).(row := Decided(Reject), now := 10, handlers := map[])
  }

  lemma RejectionIsLeft(engineAhead: int, rules: set<Rule>) returns (events: seq<Event>)
    requires ClockNotBehind !in rules
    ensures Leads(Addition(engineAhead), events, Refused(Addition(engineAhead)), rules)
  {
    hide Leads, Suits, RevisionOf, EffectIsPresent;
    var setting := Addition(engineAhead);
    AdditionSuits(engineAhead, rules);
    events := DecisionIsClaimed(setting, rules, Reject);
    var state: State;
    events, state := Stop(setting, events, Deciding(setting, Reject), rules, 0);
    events, state := Waits(setting, events, state, rules, 10);
  }

  lemma Waits(setting: Setting, events: seq<Event>, state: State, rules: set<Rule>, until: Instant)
    returns (longer: seq<Event>, next: State)
    requires Leads(setting, events, state, rules) && Suits(setting, rules)
    requires state.handlers == map[] && state.now <= until
    ensures next == state.(now := until)
    ensures Leads(setting, longer, next, rules)
  {
    hide Leads, PresentIn;
    longer, next := Go(setting, events, state, rules, Wait(until));
  }

  /** Another message is about to carry out an approval that nobody recorded. */
  function Misjudged(setting: Setting): State {
    Solo(Refused(setting), Decided(Reject), 1, 1, ApplyMutation(Decided(Reject)))
  }

  lemma ExpiredIsFound(engineAhead: int, rules: set<Rule>) returns (events: seq<Event>, state: State)
    requires ClockNotBehind !in rules
    ensures state == Solo(Refused(Addition(engineAhead)), Decided(Reject), 1, 1, Classify(Decided(Reject), true))
    ensures Leads(Addition(engineAhead), events, state, rules)
  {
    hide Leads, Suits, RevisionOf, EffectIsPresent;
    var setting, row := Addition(engineAhead), Decided(Reject);
    AdditionSuits(engineAhead, rules);
    events := RejectionIsLeft(engineAhead, rules);
    state := Refused(setting);
    events, state := Arrive(setting, events, state, rules, 1, 1);
    events, state := Proceed(setting, events, state, rules, 1, Goes, row, FindOpen);
    events, state := Proceed(setting, events, state, rules, 1, Goes, row, FindExpired);
    events, state := Proceed(setting, events, state, rules, 1, Goes, row, Classify(row, true));
  }

  lemma ExpiredIsResolvedUnclaimed(engineAhead: int, rules: set<Rule>) returns (events: seq<Event>)
    requires engineAhead < 0 && ClockNotBehind !in rules
    ensures Leads(Addition(engineAhead), events, Misjudged(Addition(engineAhead)), rules)
  {
    hide Leads, Suits, RevisionOf, EffectIsPresent;
    var setting, row := Addition(engineAhead), Decided(Reject);
    AdditionSuits(engineAhead, rules);
    var state: State;
    events, state := ExpiredIsFound(engineAhead, rules);
    events, state := Proceed(setting, events, state, rules, 1, Disposes(Decides(Approve)), row, Resolve(row, Approve));
    events, state := Proceed(setting, events, state, rules, 1, Goes, row, ApplyMutation(row));
  }

  /** ... and has carried it out. */
  function Overruled(setting: Setting): State {
    Solo(Refused(setting), Decided(Reject), 1, 1, Complete(Decided(Reject), Applied, false))
      .(memory := GROWN, changes := 1, effectSeen := true)
  }

  // An engine whose clock is behind the database's, by however little, acts on an approval nobody
  // recorded, here against a rejection that is on record.
  lemma SlowClockChangesAgainstRejection(engineAhead: int, rules: set<Rule>) returns (events: seq<Event>)
    requires engineAhead < 0 && ClockNotBehind !in rules
    ensures Leads(Addition(engineAhead), events, Overruled(Addition(engineAhead)), rules)
  {
    hide Leads, Suits, RevisionOf, EffectIsPresent;
    var setting := Addition(engineAhead);
    AdditionSuits(engineAhead, rules);
    events := ExpiredIsResolvedUnclaimed(engineAhead, rules);
    var state: State;
    events, state := Adds(engineAhead, events, Misjudged(setting), rules, 1, Decided(Reject), true);
  }

  // It records the proposal as applied, beside the rejection.
  lemma AppliedThoughRejected(engineAhead: int) returns (events: seq<Event>)
    requires engineAhead < 0
    ensures var setting := Addition(engineAhead);
      && Initial(setting, Start(setting))
      && After(setting, Start(setting), events).Some?
      && Orderly(setting, Start(setting), events, RULES - {ClockNotBehind})
      && After(setting, Start(setting), events).value.row.status == Applied
      && After(setting, Start(setting), events).value.row.decision == Some(Reject)
  {
    hide Leads, Suits, RevisionOf, EffectIsPresent;
    var setting, rules := Addition(engineAhead), RULES - {ClockNotBehind};
    AdditionSuits(engineAhead, rules);
    events := SlowClockChangesAgainstRejection(engineAhead, rules);
    var state: State;
    events, state := Record(setting, events, Overruled(setting), rules, 1, Reject, Applied);
    LeadsThere(setting, events, state, rules);
  }

  // Or it dies, and the rejecting message comes again and records the rejection.
  lemma RejectedThoughChanged(engineAhead: int) returns (events: seq<Event>)
    requires engineAhead < 0
    ensures Misleads(Addition(engineAhead), Start(Addition(engineAhead)), events, ClockNotBehind, Rejected)
  {
    hide Leads, Suits, RevisionOf, EffectIsPresent;
    var setting, rules, row := Addition(engineAhead), RULES - {ClockNotBehind}, Decided(Reject);
    AdditionSuits(engineAhead, rules);
    events := SlowClockChangesAgainstRejection(engineAhead, rules);
    var state: State;
    events, state := Stop(setting, events, Overruled(setting), rules, 1);
    events, state := Redeliver(setting, events, state, rules, Reject);
    events, state := Proceed(setting, events, state, rules, 1, Goes, row, Resolve(row, Reject));
    events, state := Proceed(setting, events, state, rules, 1, Goes, row, Complete(row, Rejected, false));
    events, state := Record(setting, events, state, rules, 1, Reject, Rejected);
    LeadsThere(setting, events, state, rules);
  }

  // None of the rules can be left out: for each there is a run that breaks no other one and whose
  // row denies a change that was made.
  lemma EveryRuleIsNeeded(rule: Rule) returns (setting: Setting, start: State, events: seq<Event>, status: Status)
    ensures Misleads(setting, start, events, rule, status)
    ensures status in {Stale, Failed, Rejected}
  {
    setting, status := Addition(0), Failed;
    match rule {
      case ClockNotBehind =>
        setting, status := Addition(-1), Rejected;
        events := RejectedThoughChanged(-1);
      case NotThereBefore =>
        setting := Repetition();
        events := FailedForLackOfDifference();
      case OneAtATime =>
        status := Stale;
        events := StaleBesideAnother();
      case ChangeStays =>
        status := Stale;
        events := StaleAfterAnotherWrite();
      case WritesAreReported =>
        events := FailedForLackOfReply();
      case InspectionAnswers =>
        events := FailedForLackOfInspection();
    }
    start := Start(setting);
  }

  // ---------------------------------------------------------------- what even orderly runs may do

  // No rule is broken, and the change is recorded as expired: its handler died, and recovery asks
  // whether the proposal expired before it asks whether the change is there.
  lemma ExpiredThoughChanged() returns (events: seq<Event>)
    ensures var setting := Addition(0);
      && Initial(setting, Start(setting))
      && After(setting, Start(setting), events).Some?
      && Orderly(setting, Start(setting), events, RULES)
      && After(setting, Start(setting), events).value.row.status == Expired
      && After(setting, Start(setting), events).value.changes == 1
      && FoundLate(setting, Start(setting), events)
  {
    hide Leads, Suits, RevisionOf, EffectIsPresent, FoundLate;
    var setting, row := Addition(0), Decided(Approve);
    AdditionSuits(0, RULES);
    events := AdditionLands(0, RULES, true);
    var state: State;
    events, state := Stop(setting, events, Landed(setting, Applied), RULES, 0);
    events, state := Waits(setting, events, state, RULES, 10);
    events, state := Redeliver(setting, events, state, RULES, Approve);
    events, state := Proceed(setting, events, state, RULES, 1, Goes, row, Complete(row, Expired, false));
    events, state := Record(setting, events, state, RULES, 1, Approve, Expired);
    LeadsThere(setting, events, state, RULES);
    StatusTellsOfTheChange(setting, Start(setting), events);
  }

  // Another member deletes the added entry again, which brings the base document back: the
  // redelivered message adds it once more.
  lemma RestoredBaseIsChangedTwice() returns (events: seq<Event>)
    ensures var setting := Addition(0);
      && Initial(setting, Start(setting))
      && After(setting, Start(setting), events).Some?
      && Orderly(setting, Start(setting), events, RULES - {ChangeStays})
      && After(setting, Start(setting), events).value.changes == 2
      && After(setting, Start(setting), events).value.restorations == 1
  {
    hide Leads, Suits, RevisionOf, EffectIsPresent;
    var setting, rules, row := Addition(0), RULES - {ChangeStays}, Decided(Approve);
    AdditionFacts(0);
    AdditionSuits(0, rules);
    var state: State;
    events, state := BaseIsRestored(rules);
    events, state := RedeliverToInspect(setting, events, state, rules);
    events, state := Proceed(setting, events, state, rules, 1, Goes, row, Resolve(row, Approve));
    events, state := Proceed(setting, events, state, rules, 1, Goes, row, ApplyMutation(row));
    events, state := Adds(0, events, state, rules, 1, row, true);
    LeadsThere(setting, events, state, rules);
  }

  lemma BaseIsRestored(rules: set<Rule>) returns (events: seq<Event>, state: State)
    requires ChangeStays !in rules
    ensures state.row == Decided(Approve) && state.memory == BASE && state.handlers == map[] && state.now == 0
    ensures state.changes == 1 && state.restorations == 1
    ensures Leads(Addition(0), events, state, rules)
  {
    hide Leads, Suits, RevisionOf, EffectIsPresent;
    var setting := Addition(0);
    AdditionFacts(0);
    AdditionSuits(0, rules);
    DeletionRestores();
    events := AdditionLands(0, rules, true);
    events, state := Stop(setting, events, Landed(setting, Applied), rules, 0);
    events, state := Go(setting, events, state, rules, OtherWrite(BASE));
  }

  // The deletion by the other member leaves exactly the base document.
  lemma DeletionRestores()
    ensures WorkingMemoryDocument.Apply(GROWN, Delete("added"), "other", 5, (document: Document) => 0) == Success(BASE)
  {
    assert GROWN - {"added"} == BASE;
    assert |BASE| == 1;
  }
}
