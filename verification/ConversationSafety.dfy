/** What every step of the confirmation router keeps, and its promises over whole runs. */
module ConversationSafety {
  import opened Wrappers
  import opened WorkingMemoryDocument
  import opened ConversationRouter

  // ---------------------------------------------------------------- at most once

  /** The base revision is gone once the mutation has changed the document, until someone else
      brings it back. */
  ghost predicate ChangesBounded(setting: Setting, state: State) {
    state.changes <= state.restorations + if RevisionOf(state.memory) == setting.basedOn then 0 else 1
  }

  lemma StepKeepsChangesBounded(setting: Setting, state: State, event: Event)
    requires ChangesBounded(setting, state) && Step(setting, state, event).Some?
    ensures ChangesBounded(setting, Step(setting, state, event).value)
  {
    hide RevisionOf, EffectIsPresent, VerifyReadback, WorkingMemoryDocument.Apply;
  }

  // Over any schedule of deliveries, crashes and redeliveries the proposal changes the stored
  // document at most once more often than other writers brought its base revision back.
  lemma {:induction false} ChangesAtMostOncePerBase(setting: Setting, start: State, events: seq<Event>)
    requires Initial(setting, start) && After(setting, start, events).Some?
    ensures ChangesBounded(setting, After(setting, start, events).value)
  {
    if events != [] {
      var last := |events| - 1;
      ChangesAtMostOncePerBase(setting, start, events[..last]);
      StepKeepsChangesBounded(setting, After(setting, start, events[..last]).value, events[last]);
    }
  }

  // ---------------------------------------------------------------- evidence, whatever the clocks say

  /** The evidence on the row, and what `applied` says about the past. */
  ghost predicate RowEvidence(setting: Setting, state: State) {
    && (EffectIsPresent(state.memory, setting.mutation) ==> state.effectSeen)
    && EvidenceFits(state.row)
    && state.row.decision != Some(Ambiguous)
    && (state.row.status == Resolving ==> state.row.decision.Some?)
    && (state.row.status == Applied ==> state.effectSeen)
  }

  /** What a handler has seen of it. */
  ghost predicate HandlerEvidence(state: State, pc: Pc) {
    match pc
    case Claim(_, decision) => decision != Ambiguous
    case Recover(row) => row.decision.Some? && row.decision == state.row.decision
    case Complete(_, result, _) =>
      result != Pending && result != Resolving && (result == Applied ==> state.effectSeen)
    case Finished(Recorded(response)) => state.row.response == Some(response)
    case _ => true
  }

  ghost predicate EvidenceInv(setting: Setting, state: State) {
    && RowEvidence(setting, state)
    && forall id :: id in state.handlers ==> HandlerEvidence(state, state.handlers[id].pc)
  }

  /** What a step may do to the things other handlers rely on. */
  ghost predicate Rely(before: State, after: State) {
    && (before.row.decision.Some? ==> after.row.decision == before.row.decision)
    && (before.row.message.Some? ==> after.row.message == before.row.message)
    && (before.row.response.Some? ==> after.row == before.row)
    && before.row.version <= after.row.version
    && before.now <= after.now
    && (before.effectSeen ==> after.effectSeen)
    && before.changes <= after.changes
  }

  /** One handler moved: the shared state as `Rely` allows, and its own counter. */
  ghost predicate Moves(setting: Setting, before: State, after: State, id: nat) {
    && Rely(before, after) && RowEvidence(setting, after)
    && id in after.handlers && after.handlers == before.handlers[id := after.handlers[id]]
    && HandlerEvidence(after, after.handlers[id].pc)
  }

  lemma ReadbackMeansPresent(before: Document, after: Document, mutation: Mutation)
    requires VerifyReadback(before, after, mutation)
    ensures EffectIsPresent(after, mutation)
  {
    hide Comparable;
  }

  lemma ApplyStepMoves(setting: Setting, state: State, id: nat, choice: Choice)
    requires RowEvidence(setting, state) && id in state.handlers && state.handlers[id].pc.ApplyMutation?
    requires ApplyStep(setting, state, id, choice).Some?
    ensures Moves(setting, state, ApplyStep(setting, state, id, choice).value, id)
  {
    hide RevisionOf, WorkingMemoryDocument.Apply, EffectIsPresent, VerifyReadback;
    var applied := WorkingMemoryDocument.Apply(state.memory, setting.mutation, setting.principal,
                                               if choice.Writes? then choice.at else 0, setting.bytes);
    if applied.Success? {
      var stored := Stored(applied.value);
      if VerifyReadback(state.memory, stored, setting.mutation) {
        ReadbackMeansPresent(state.memory, stored, setting.mutation);
      }
    }
  }

  lemma CompletionMoves(setting: Setting, state: State, id: nat, choice: Choice)
    requires RowEvidence(setting, state) && id in state.handlers && HandlerEvidence(state, state.handlers[id].pc)
    requires var pc := state.handlers[id].pc; pc.Complete? || pc.LookupByMessage? || pc.LookupById?
    requires HandlerStep(setting, state, id, choice).Some?
    ensures Moves(setting, state, HandlerStep(setting, state, id, choice).value, id)
  {
    hide EffectIsPresent;
  }

  lemma FindingMoves(setting: Setting, state: State, id: nat, choice: Choice)
    requires RowEvidence(setting, state) && id in state.handlers && HandlerEvidence(state, state.handlers[id].pc)
    requires var pc := state.handlers[id].pc;
      pc.FindReplay? || pc.FindOpen? || pc.FindExpired? || pc.Classify? || pc.Claim?
    requires HandlerStep(setting, state, id, choice).Some?
    ensures Moves(setting, state, HandlerStep(setting, state, id, choice).value, id)
  {
    hide RevisionOf, EffectIsPresent, Completed, ApplyStep, CompleteStep, ResolveStep, RecoverStep, InspectStep;
  }

  lemma ResolvingMoves(setting: Setting, state: State, id: nat, choice: Choice)
    requires RowEvidence(setting, state) && id in state.handlers && HandlerEvidence(state, state.handlers[id].pc)
    requires var pc := state.handlers[id].pc; pc.Resolve? || pc.Recover? || pc.Inspect? || pc.Finished?
    requires HandlerStep(setting, state, id, choice).Some?
    ensures Moves(setting, state, HandlerStep(setting, state, id, choice).value, id)
  {
    hide RevisionOf, EffectIsPresent, Completed, ApplyStep, CompleteStep, FindStep, ClassifyStep, ClaimStep;
  }

  lemma HandlerStepMoves(setting: Setting, state: State, id: nat, choice: Choice)
    requires EvidenceInv(setting, state) && id in state.handlers && HandlerStep(setting, state, id, choice).Some?
    ensures Moves(setting, state, HandlerStep(setting, state, id, choice).value, id)
  {
    hide HandlerEvidence, EffectIsPresent, Moves, ApplyStep, CompleteStep, LookupStep;
    var pc := state.handlers[id].pc;
    if pc.ApplyMutation? {
      ApplyStepMoves(setting, state, id, choice);
    } else if pc.Complete? || pc.LookupByMessage? || pc.LookupById? {
      CompletionMoves(setting, state, id, choice);
    } else if pc.Resolve? || pc.Recover? || pc.Inspect? || pc.Finished? {
      ResolvingMoves(setting, state, id, choice);
    } else {
      FindingMoves(setting, state, id, choice);
    }
  }

  lemma OthersKeepEvidence(before: State, after: State, pc: Pc)
    requires Rely(before, after) && HandlerEvidence(before, pc)
    ensures HandlerEvidence(after, pc)
  {
  }

  lemma NewHandlerEvidence(state: State)
    ensures HandlerEvidence(state, FindReplay)
  {
  }

  lemma StepKeepsEvidence(setting: Setting, state: State, event: Event)
    requires EvidenceInv(setting, state) && Step(setting, state, event).Some?
    ensures EvidenceInv(setting, Step(setting, state, event).value)
    ensures Rely(state, Step(setting, state, event).value)
  {
    hide HandlerEvidence, HandlerStep, RevisionOf, EffectIsPresent;
    var after := Step(setting, state, event).value;
    if event.Advance? {
      HandlerStepMoves(setting, state, event.id, event.choice);
    }
    forall id | id in after.handlers
      ensures HandlerEvidence(after, after.handlers[id].pc)
    {
      if id in state.handlers && after.handlers[id] == state.handlers[id] {
        OthersKeepEvidence(state, after, state.handlers[id].pc);
      } else if event.Deliver? {
        NewHandlerEvidence(after);
      }
    }
  }

  // ---------------------------------------------------------------- consent, if the engine's clock is not behind

  /** What was done is what was decided. */
  ghost predicate RowConsent(state: State) {
    && (state.row.status == Rejected ==> state.row.decision == Some(Reject))
    && (state.row.status == Applied ==> state.row.decision == Some(Approve))
    && (state.changes > 0 ==> state.row.decision == Some(Approve))
  }

  /** A handler that acts on a decision has it recorded, or finds the proposal expired. */
  ghost predicate MayActOn(setting: Setting, state: State, decision: Decision) {
    state.row.decision == Some(decision) || EngineSaysExpired(setting, state.now)
  }

  ghost predicate HandlerConsent(setting: Setting, state: State, pc: Pc) {
    match pc
    case Classify(_, expired) => expired ==> setting.expiresAt <= state.now
    case Resolve(_, decision) => decision != Ambiguous ==> MayActOn(setting, state, decision)
    case ApplyMutation(_) => state.row.decision == Some(Approve)
    case Inspect(_) => state.row.decision == Some(Approve)
    case Complete(_, result, _) =>
      && (result == Rejected ==> state.row.decision == Some(Reject))
      && (result == Applied ==> state.row.decision == Some(Approve))
    case _ => true
  }

  ghost predicate ConsentInv(setting: Setting, state: State) {
    && RowConsent(state)
    && forall id :: id in state.handlers ==> HandlerConsent(setting, state, state.handlers[id].pc)
  }

  ghost predicate Consents(setting: Setting, after: State, id: nat) {
    RowConsent(after) && id in after.handlers && HandlerConsent(setting, after, after.handlers[id].pc)
  }

  lemma ApplyStepConsents(setting: Setting, state: State, id: nat, choice: Choice)
    requires RowConsent(state) && id in state.handlers && state.handlers[id].pc.ApplyMutation?
    requires HandlerConsent(setting, state, state.handlers[id].pc) && ApplyStep(setting, state, id, choice).Some?
    ensures Consents(setting, ApplyStep(setting, state, id, choice).value, id)
  {
    hide RevisionOf, WorkingMemoryDocument.Apply, EffectIsPresent, VerifyReadback;
  }

  lemma CompletionConsents(setting: Setting, state: State, id: nat, choice: Choice)
    requires RowConsent(state) && id in state.handlers && HandlerConsent(setting, state, state.handlers[id].pc)
    requires var pc := state.handlers[id].pc; pc.Complete? || pc.LookupByMessage? || pc.LookupById?
    requires HandlerStep(setting, state, id, choice).Some?
    ensures Consents(setting, HandlerStep(setting, state, id, choice).value, id)
  {
    hide EffectIsPresent;
  }

  lemma FindingConsents(setting: Setting, state: State, id: nat, choice: Choice)
    requires setting.engineAhead >= 0
    requires RowEvidence(setting, state) && id in state.handlers && HandlerEvidence(state, state.handlers[id].pc)
    requires RowConsent(state) && HandlerConsent(setting, state, state.handlers[id].pc)
    requires var pc := state.handlers[id].pc;
      pc.FindReplay? || pc.FindOpen? || pc.FindExpired? || pc.Classify? || pc.Claim?
    requires HandlerStep(setting, state, id, choice).Some?
    ensures Consents(setting, HandlerStep(setting, state, id, choice).value, id)
  {
    hide RevisionOf, EffectIsPresent, Completed, ApplyStep, CompleteStep, ResolveStep, RecoverStep, InspectStep;
  }

  lemma ResolvingConsents(setting: Setting, state: State, id: nat, choice: Choice)
    requires id in state.handlers && HandlerEvidence(state, state.handlers[id].pc)
    requires RowConsent(state) && HandlerConsent(setting, state, state.handlers[id].pc)
    requires var pc := state.handlers[id].pc; pc.Resolve? || pc.Recover? || pc.Inspect? || pc.Finished?
    requires HandlerStep(setting, state, id, choice).Some?
    ensures Consents(setting, HandlerStep(setting, state, id, choice).value, id)
  {
    hide RevisionOf, EffectIsPresent, Completed, ApplyStep, CompleteStep, FindStep, ClassifyStep, ClaimStep;
  }

  lemma HandlerStepConsents(setting: Setting, state: State, id: nat, choice: Choice)
    requires setting.engineAhead >= 0 && EvidenceInv(setting, state) && ConsentInv(setting, state)
    requires id in state.handlers && HandlerStep(setting, state, id, choice).Some?
    ensures Consents(setting, HandlerStep(setting, state, id, choice).value, id)
  {
    hide HandlerEvidence, HandlerConsent, EffectIsPresent, Consents, ApplyStep, CompleteStep, LookupStep;
    var pc := state.handlers[id].pc;
    if pc.ApplyMutation? {
      ApplyStepConsents(setting, state, id, choice);
    } else if pc.Complete? || pc.LookupByMessage? || pc.LookupById? {
      CompletionConsents(setting, state, id, choice);
    } else if pc.Resolve? || pc.Recover? || pc.Inspect? || pc.Finished? {
      ResolvingConsents(setting, state, id, choice);
    } else {
      FindingConsents(setting, state, id, choice);
    }
  }

  lemma OthersKeepConsent(setting: Setting, before: State, after: State, pc: Pc)
    requires Rely(before, after) && HandlerConsent(setting, before, pc)
    ensures HandlerConsent(setting, after, pc)
  {
  }

  lemma NewHandlerConsents(setting: Setting, state: State)
    ensures HandlerConsent(setting, state, FindReplay)
  {
  }

  lemma StepKeepsConsent(setting: Setting, state: State, event: Event)
    requires setting.engineAhead >= 0
    requires EvidenceInv(setting, state) && ConsentInv(setting, state) && Step(setting, state, event).Some?
    ensures ConsentInv(setting, Step(setting, state, event).value)
  {
    hide HandlerConsent, HandlerEvidence, HandlerStep, RevisionOf, EffectIsPresent;
    var after := Step(setting, state, event).value;
    StepKeepsEvidence(setting, state, event);
    if event.Advance? {
      HandlerStepMoves(setting, state, event.id, event.choice);
      HandlerStepConsents(setting, state, event.id, event.choice);
    }
    forall id | id in after.handlers
      ensures HandlerConsent(setting, after, after.handlers[id].pc)
    {
      if id in state.handlers && after.handlers[id] == state.handlers[id] {
        OthersKeepConsent(setting, state, after, state.handlers[id].pc);
      } else if event.Deliver? {
        NewHandlerConsents(setting, after);
      }
    }
  }

  // ---------------------------------------------------------------- together

  /** The evidence always holds, the consent if the engine's clock is not behind the database's. */
  ghost predicate Inv(setting: Setting, state: State) {
    EvidenceInv(setting, state) && (setting.engineAhead >= 0 ==> ConsentInv(setting, state))
  }

  lemma StepKeepsInv(setting: Setting, state: State, event: Event)
    requires Inv(setting, state) && Step(setting, state, event).Some?
    ensures Inv(setting, Step(setting, state, event).value)
    ensures Rely(state, Step(setting, state, event).value)
  {
    hide Step, EvidenceInv, ConsentInv;
    StepKeepsEvidence(setting, state, event);
    if setting.engineAhead >= 0 {
      StepKeepsConsent(setting, state, event);
    }
  }
}
