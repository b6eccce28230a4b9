/** When the recorded status of a proposal tells whether its change was made. */
module ConversationTruth {
  import opened Wrappers
  import opened WorkingMemoryDocument
  import opened ConversationRouter
  import opened ConversationSafety
  import opened ConversationRuns
  import Json

  // ---------------------------------------------------------------- the rules of an orderly run

  /** Is the effect of the mutation part of the revision it is bound to? */
  predicate PresentIn(revision: Revision, mutation: Mutation) {
    match mutation
    case Create(id, entry) => id in revision.content && SameContent(revision.content[id], entry)
    case Replace(id, entry) => id in revision.content && SameContent(revision.content[id], entry)
    case Delete(id) => id !in revision.content
    case Clear => |revision.content| == 0
  }

  predicate SameContent(canonical: Entry, entry: Entry) {
    canonical.(lifecycle := None) == CanonicalEntry(entry.(lifecycle := None))
  }

  /** A handler that may still write, or record a result. */
  predicate Busy(pc: Pc) {
    pc.Resolve? || pc.ApplyMutation? || pc.Recover? || pc.Inspect? || pc.Complete?
  }

  ghost predicate OneBusy(state: State) {
    forall a, b :: a in state.handlers && b in state.handlers && a != b ==>
      !Busy(state.handlers[a].pc) || !Busy(state.handlers[b].pc)
  }

  datatype Rule =
    | ClockNotBehind    // the engine's clock is not behind the database's
    | NotThereBefore    // the proposal does not replace an entry by the content it has
    | OneAtATime        // no two handlers are past the claim
    | ChangeStays       // no other writer undoes the change before a result is recorded
    | WritesAreReported // a write that lands is reported to have landed
    | InspectionAnswers // recovery can read the document once the change is there

  const RULES := {ClockNotBehind, NotThereBefore, OneAtATime, ChangeStays, WritesAreReported, InspectionAnswers}

  ghost predicate StepObeys(setting: Setting, before: State, event: Event, rule: Rule) {
    match rule
    case ClockNotBehind => setting.engineAhead >= 0
    case NotThereBefore => !(setting.mutation.Replace? && PresentIn(setting.basedOn, setting.mutation))
    case OneAtATime => Step(setting, before, event).Some? ==> OneBusy(Step(setting, before, event).value)
    case ChangeStays =>
      event.OtherWrite? && before.changes > 0 && IsOpen(before.row) ==>
        EffectIsPresent(event.document, setting.mutation)
    case WritesAreReported => event.Advance? && event.choice.Writes? ==> event.choice.reported
    case InspectionAnswers =>
      && event.Advance? && event.id in before.handlers
      && before.handlers[event.id].pc.Inspect? && event.choice == Fails ==>
        before.changes == 0
  }

  /** Every step of the run obeys the rule. */
  ghost predicate Obeys(setting: Setting, start: State, events: seq<Event>, rule: Rule) {
    events != [] ==>
      var shorter := events[..|events| - 1];
      && Obeys(setting, start, shorter, rule)
      && After(setting, start, shorter).Some?
      && StepObeys(setting, After(setting, start, shorter).value, events[|events| - 1], rule)
  }

  /** The run obeys all these rules. */
  ghost predicate Orderly(setting: Setting, start: State, events: seq<Event>, rules: set<Rule>) {
    forall rule :: rule in rules ==> Obeys(setting, start, events, rule)
  }

  // ---------------------------------------------------------------- finding a change too late

  /** An expiry check ends in `expired` although the change has been made and no result is on record. */
  ghost predicate FindsLate(setting: Setting, before: State, event: Event) {
    && before.changes > 0 && IsOpen(before.row)
    && event.Advance? && event.id in before.handlers && !before.handlers[event.id].pc.Complete?
    && var after := Step(setting, before, event);
      && after.Some?
      && event.id in after.value.handlers
      && after.value.handlers[event.id].pc.Complete?
      && after.value.handlers[event.id].pc.result == Expired
  }

  ghost predicate FoundLate(setting: Setting, start: State, events: seq<Event>) {
    events != [] &&
    var shorter := events[..|events| - 1];
    || FoundLate(setting, start, shorter)
    || (After(setting, start, shorter).Some?
        && FindsLate(setting, After(setting, start, shorter).value, events[|events| - 1]))
  }

  // The expiry checks that can come upon a landed change: recovery's own, the one before an answer
  // is acted on, and the search for an expired proposal when the message turns out to be about
  // something else.
  lemma LateChecks(setting: Setting, before: State, event: Event)
    ensures FindsLate(setting, before, event) <==>
      && before.changes > 0 && IsOpen(before.row)
      && event.Advance? && event.id in before.handlers
      && var pc := before.handlers[event.id].pc;
        || ((pc.Recover? || pc.Resolve?) && event.choice == Goes && EngineSaysExpired(setting, before.now))
        || (pc.Classify? && pc.expired && event.choice == Disposes(NewIntent))
  {
  }

  // ---------------------------------------------------------------- the invariant

  /** What the row says of the change. */
  ghost predicate RowTells(setting: Setting, state: State, late: bool) {
    && (state.changes > 0 && state.row.status == Resolving ==> EffectIsPresent(state.memory, setting.mutation))
    && (state.row.status in {Stale, Failed, Rejected} ==> state.changes == 0)
    && (state.row.status == Expired && state.changes > 0 ==> late)
    && (state.row.status == Applied ==> !late)
    && (late ==> EngineSaysExpired(setting, state.now) && state.changes > 0)
  }

  /** What a handler that may write or record knows of the change. */
  ghost predicate Knows(setting: Setting, state: State, late: bool, pc: Pc) {
    match pc
    case Resolve(_, decision) =>
      decision == Approve && !EngineSaysExpired(setting, state.now) ==>
        state.changes == 0 && state.row.status == Resolving
    case ApplyMutation(_) => state.changes == 0 && state.row.status == Resolving
    case Recover(_) => state.row.status == Resolving
    case Inspect(_) => state.row.status == Resolving && !late
    case Complete(_, result, _) =>
      && (result in {Stale, Failed} ==> state.changes == 0)
      && (result == Applied ==> !late)
      && (result == Expired && state.changes > 0 && IsOpen(state.row) ==> late)
    case _ => true
  }

  ghost predicate TruthInv(setting: Setting, state: State, late: bool) {
    && RowTells(setting, state, late)
    && OneBusy(state)
    && forall id :: id in state.handlers ==> Knows(setting, state, late, state.handlers[id].pc)
  }

  /** One handler moved: what it knows, and that the handlers it did not exclude lose nothing. */
  ghost predicate TellsOn(setting: Setting, before: State, after: State, id: nat, late: bool, later: bool)
  {
    && id in before.handlers && id in after.handlers
    && RowTells(setting, after, later)
    && Knows(setting, after, later, after.handlers[id].pc)
    && (Busy(before.handlers[id].pc) || Busy(after.handlers[id].pc)
        || (after.row == before.row && after.changes == before.changes && later == late && after.now == before.now))
  }

  // ---------------------------------------------------------------- the steps

  lemma PresenceIsOfTheRevision(document: Document, mutation: Mutation)
    ensures EffectIsPresent(document, mutation) <==> PresentIn(RevisionOf(document), mutation)
  {
    assert RevisionOf(document).content.Keys == document.Keys;
    assert |RevisionOf(document).content.Keys| == |RevisionOf(document).content|;
    assert |document.Keys| == |document|;
  }

  // What a mutation that applies leaves in storage has its effect.
  lemma StoredEffectIsPresent(document: Document, mutation: Mutation, principal: Principal, now: Instant,
                              bytes: Document -> nat)
    requires WorkingMemoryDocument.Apply(document, mutation, principal, now, bytes).Success?
    ensures EffectIsPresent(Stored(WorkingMemoryDocument.Apply(document, mutation, principal, now, bytes).value),
                            mutation)
  {
    var applied := WorkingMemoryDocument.Apply(document, mutation, principal, now, bytes).value;
    AppliedEffectIsPresent(document, mutation, principal, now, bytes);
    if mutation.Create? || mutation.Replace? {
      Json.CanonicalKeepsValue(mutation.entry.value);
      assert Stored(applied)[mutation.id] == CanonicalEntry(applied[mutation.id]);
    } else {
      assert Stored(applied).Keys == applied.Keys;
    }
  }

  // A reported write of a mutation that was not there before ends in `applied`.
  lemma ReportedWriteIsSeen(setting: Setting, document: Document, at: Instant)
    requires WorkingMemoryDocument.Apply(document, setting.mutation, setting.principal, at, setting.bytes).Success?
    requires RevisionOf(document) == setting.basedOn
    requires !(setting.mutation.Replace? && PresentIn(setting.basedOn, setting.mutation))
    ensures var stored := Stored(WorkingMemoryDocument.Apply(document, setting.mutation, setting.principal, at,
                                                             setting.bytes).value);
      && EffectIsPresent(stored, setting.mutation)
      && (VerifyReadback(document, stored, setting.mutation)
          || RevisionOf(stored) == RevisionOf(document))
  {
    var applied := WorkingMemoryDocument.Apply(document, setting.mutation, setting.principal, at, setting.bytes).value;
    var stored := Stored(applied);
    StoredEffectIsPresent(document, setting.mutation, setting.principal, at, setting.bytes);
    PresenceIsOfTheRevision(document, setting.mutation);
    ReadbackSeesTheChange(document, stored, setting.mutation, setting.principal, at, setting.bytes);
    if setting.mutation.Clear? && EffectIsPresent(document, setting.mutation) {
      assert document == map[];
      assert stored == map[];
    }
  }

  lemma ApplyTells(setting: Setting, state: State, id: nat, choice: Choice, late: bool)
    requires RowTells(setting, state, late) && id in state.handlers && state.handlers[id].pc.ApplyMutation?
    requires Knows(setting, state, late, state.handlers[id].pc)
    requires !(setting.mutation.Replace? && PresentIn(setting.basedOn, setting.mutation))
    requires choice.Writes? ==> choice.reported
    requires ApplyStep(setting, state, id, choice).Some?
    ensures TellsOn(setting, state, ApplyStep(setting, state, id, choice).value, id, late, late)
    ensures !FindsLate(setting, state, Advance(id, choice))
  {
    hide RevisionOf, WorkingMemoryDocument.Apply, EffectIsPresent, VerifyReadback, PresentIn;
    if choice.Writes? && RevisionOf(state.memory) == setting.basedOn
       && WorkingMemoryDocument.Apply(state.memory, setting.mutation, setting.principal, choice.at,
                                      setting.bytes).Success? {
      ReportedWriteIsSeen(setting, state.memory, choice.at);
    }
  }

  lemma CompletionTells(setting: Setting, state: State, id: nat, choice: Choice, late: bool)
    requires RowEvidence(setting, state) && RowConsent(state)
    requires RowTells(setting, state, late) && id in state.handlers
    requires var pc := state.handlers[id].pc; pc.Complete? || pc.LookupByMessage? || pc.LookupById?
    requires HandlerEvidence(state, state.handlers[id].pc) && HandlerConsent(setting, state, state.handlers[id].pc)
    requires Knows(setting, state, late, state.handlers[id].pc)
    requires HandlerStep(setting, state, id, choice).Some?
    ensures TellsOn(setting, state, HandlerStep(setting, state, id, choice).value, id, late, late)
    ensures !FindsLate(setting, state, Advance(id, choice))
  {
    hide EffectIsPresent;
  }

  lemma ResolvingTells(setting: Setting, state: State, id: nat, choice: Choice, late: bool)
    requires RowEvidence(setting, state) && RowConsent(state)
    requires RowTells(setting, state, late) && id in state.handlers
    requires var pc := state.handlers[id].pc; pc.Resolve? || pc.Recover? || pc.Inspect? || pc.Finished?
    requires HandlerEvidence(state, state.handlers[id].pc) && HandlerConsent(setting, state, state.handlers[id].pc)
    requires Knows(setting, state, late, state.handlers[id].pc)
    requires state.handlers[id].pc.Inspect? && choice == Fails ==> state.changes == 0
    requires HandlerStep(setting, state, id, choice).Some?
    ensures TellsOn(setting, state, HandlerStep(setting, state, id, choice).value, id, late,
                    late || FindsLate(setting, state, Advance(id, choice)))
  {
    hide RevisionOf, EffectIsPresent;
  }

  lemma FindingTells(setting: Setting, state: State, id: nat, choice: Choice, late: bool)
    requires setting.engineAhead >= 0
    requires RowEvidence(setting, state) && RowConsent(state)
    requires RowTells(setting, state, late) && id in state.handlers
    requires var pc := state.handlers[id].pc;
      pc.FindReplay? || pc.FindOpen? || pc.FindExpired? || pc.Classify? || pc.Claim?
    requires HandlerEvidence(state, state.handlers[id].pc) && HandlerConsent(setting, state, state.handlers[id].pc)
    requires Knows(setting, state, late, state.handlers[id].pc)
    requires HandlerStep(setting, state, id, choice).Some?
    ensures TellsOn(setting, state, HandlerStep(setting, state, id, choice).value, id, late,
                    late || FindsLate(setting, state, Advance(id, choice)))
  {
    hide RevisionOf, EffectIsPresent;
  }

  lemma HandlerStepTells(setting: Setting, state: State, id: nat, choice: Choice, late: bool)
    requires setting.engineAhead >= 0 && !(setting.mutation.Replace? && PresentIn(setting.basedOn, setting.mutation))
    requires EvidenceInv(setting, state) && ConsentInv(setting, state) && TruthInv(setting, state, late)
    requires id in state.handlers && HandlerStep(setting, state, id, choice).Some?
    requires choice.Writes? ==> choice.reported
    requires state.handlers[id].pc.Inspect? && choice == Fails ==> state.changes == 0
    ensures TellsOn(setting, state, HandlerStep(setting, state, id, choice).value, id, late,
                    late || FindsLate(setting, state, Advance(id, choice)))
  {
    hide HandlerEvidence, HandlerConsent, Knows, RowTells, TellsOn;
    hide EffectIsPresent, PresentIn, ApplyStep, CompleteStep, LookupStep;
    var pc := state.handlers[id].pc;
    if pc.ApplyMutation? {
      ApplyTells(setting, state, id, choice, late);
    } else if pc.Complete? || pc.LookupByMessage? || pc.LookupById? {
      CompletionTells(setting, state, id, choice, late);
    } else if pc.Resolve? || pc.Recover? || pc.Inspect? || pc.Finished? {
      ResolvingTells(setting, state, id, choice, late);
    } else {
      FindingTells(setting, state, id, choice, late);
    }
  }

  lemma OthersKnow(setting: Setting, before: State, after: State, id: nat, other: nat, late: bool, later: bool)
    requires OneBusy(before) && OneBusy(after)
    requires TellsOn(setting, before, after, id, late, later)
    requires other != id && other in before.handlers && other in after.handlers
    requires after.handlers[other] == before.handlers[other]
    requires Knows(setting, before, late, before.handlers[other].pc)
    ensures Knows(setting, after, later, after.handlers[other].pc)
  {
    hide RowTells;
  }

  lemma StepTells(setting: Setting, state: State, event: Event, late: bool)
    requires Inv(setting, state) && TruthInv(setting, state, late) && Step(setting, state, event).Some?
    requires forall rule :: rule in RULES ==> StepObeys(setting, state, event, rule)
    ensures TruthInv(setting, Step(setting, state, event).value, late || FindsLate(setting, state, event))
  {
    hide HandlerEvidence, HandlerConsent, HandlerStep, RevisionOf, EffectIsPresent, PresentIn;
    var after := Step(setting, state, event).value;
    var later := late || FindsLate(setting, state, event);
    assert StepObeys(setting, state, event, ClockNotBehind) && StepObeys(setting, state, event, NotThereBefore);
    assert StepObeys(setting, state, event, OneAtATime) && StepObeys(setting, state, event, ChangeStays);
    assert StepObeys(setting, state, event, WritesAreReported) && StepObeys(setting, state, event, InspectionAnswers);
    if event.Advance? {
      HandlerStepMoves(setting, state, event.id, event.choice);
      HandlerStepTells(setting, state, event.id, event.choice, late);
      forall other | other in after.handlers
        ensures Knows(setting, after, later, after.handlers[other].pc)
      {
        if other != event.id {
          OthersKnow(setting, state, after, event.id, other, late, later);
        }
      }
    }
  }

  // ---------------------------------------------------------------- the runs

  lemma {:induction false} OrderlyRunTells(setting: Setting, start: State, events: seq<Event>)
    requires Initial(setting, start) && After(setting, start, events).Some?
    requires Orderly(setting, start, events, RULES)
    ensures TruthInv(setting, After(setting, start, events).value, FoundLate(setting, start, events))
    ensures events != [] ==> setting.engineAhead >= 0
  {
    hide Step, StepObeys, FindsLate;
    if events != [] {
      var last := |events| - 1;
      var before := After(setting, start, events[..last]).value;
      forall rule | rule in RULES
        ensures Obeys(setting, start, events[..last], rule) && StepObeys(setting, before, events[last], rule)
      {
        assert Obeys(setting, start, events, rule);
      }
      OrderlyRunTells(setting, start, events[..last]);
      assert StepObeys(setting, before, events[last], ClockNotBehind);
      ClockIsNotBehind(setting, before, events[last]);
      RunKeepsInv(setting, start, events[..last]);
      StepTells(setting, before, events[last], FoundLate(setting, start, events[..last]));
    }
  }

  lemma ClockIsNotBehind(setting: Setting, before: State, event: Event)
    requires StepObeys(setting, before, event, ClockNotBehind)
    ensures setting.engineAhead >= 0
  {
  }

  // In an orderly run the row tells whether the change was made: `stale`, `failed` and `rejected`
  // say that it was not, and a change that was made is recorded as applied, or as expired exactly
  // if an expiry check came upon it before its result was on record.
  lemma {:induction false} StatusTellsOfTheChange(setting: Setting, start: State, events: seq<Event>)
    requires Initial(setting, start) && After(setting, start, events).Some?
    requires Orderly(setting, start, events, RULES)
    ensures var after := After(setting, start, events).value;
      && (after.row.status in {Stale, Failed, Rejected} ==> after.changes == 0)
      && (after.changes > 0 && !IsOpen(after.row) ==>
            && (after.row.status == Expired <==> FoundLate(setting, start, events))
            && (after.row.status == Applied <==> !FoundLate(setting, start, events)))
  {
    hide Step, FoundLate, EffectIsPresent;
    OrderlyRunTells(setting, start, events);
  }
}
