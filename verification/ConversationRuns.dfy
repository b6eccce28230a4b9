/** The confirmation router's promises over whole runs, and the runs that show where they end. */
module ConversationRuns {
  import opened Wrappers
  import opened WorkingMemoryDocument
  import opened ConversationRouter
  import opened ConversationSafety
  import Json

  // In every reachable state, whatever the clocks say, the row carries the evidence its status needs
  // and no other, and every handler that has finished with a response has the recorded one.
  lemma {:induction false} RunKeepsInv(setting: Setting, start: State, events: seq<Event>)
    requires Initial(setting, start) && After(setting, start, events).Some?
    ensures EvidenceInv(setting, After(setting, start, events).value)
    ensures setting.engineAhead >= 0 ==> ConsentInv(setting, After(setting, start, events).value)
  {
    hide Step, RowEvidence, HandlerEvidence;
    if events == [] {
      InitialHasEvidence(setting, start);
    }
    if events != [] {
      var last := |events| - 1;
      RunKeepsInv(setting, start, events[..last]);
      StepKeepsInv(setting, After(setting, start, events[..last]).value, events[last]);
    }
  }

  lemma InitialHasEvidence(setting: Setting, state: State)
    requires Initial(setting, state)
    ensures RowEvidence(setting, state)
  {
  }

  // Evidence once recorded stays: at any later point of the run the decision, the claiming
  // message and a completed row are the same.
  lemma {:induction false} RunIsStable(setting: Setting, start: State, events: seq<Event>, i: nat)
    requires i <= |events|
    requires Initial(setting, start) && After(setting, start, events).Some?
    ensures After(setting, start, events[..i]).Some?
    ensures Rely(After(setting, start, events[..i]).value, After(setting, start, events).value)
  {
    hide Step;
    if i == |events| {
      assert events[..i] == events;
    } else {
      var last := |events| - 1;
      var before := After(setting, start, events[..last]).value;
      assert events[..last][..i] == events[..i];
      RunIsStable(setting, start, events[..last], i);
      RunKeepsInv(setting, start, events[..last]);
      StepKeepsInv(setting, before, events[last]);
    }
  }

  // The stored document is changed only under a recorded approval, so once a rejection is on
  // record the proposal has not changed it and never will.
  lemma {:induction false} NoChangeWithoutApproval(setting: Setting, start: State, events: seq<Event>, i: nat)
    requires setting.engineAhead >= 0 && i <= |events|
    requires Initial(setting, start) && After(setting, start, events).Some?
    ensures After(setting, start, events[..i]).Some?
    ensures After(setting, start, events).value.changes > 0 ==>
      After(setting, start, events).value.row.decision == Some(Approve)
    ensures After(setting, start, events[..i]).value.row.decision == Some(Reject) ==>
      After(setting, start, events).value.changes == 0
    ensures After(setting, start, events).value.row.status == Rejected ==>
      After(setting, start, events).value.changes == 0
  {
    RunKeepsInv(setting, start, events);
    RunIsStable(setting, start, events, i);
  }

  // Without another writer that brings the base revision back: at most one change.
  lemma {:induction false} AtMostOneChange(setting: Setting, start: State, events: seq<Event>)
    requires Initial(setting, start) && After(setting, start, events).Some?
    requires After(setting, start, events).value.restorations == 0
    ensures After(setting, start, events).value.changes <= 1
  {
    ChangesAtMostOncePerBase(setting, start, events);
  }

  // Handlers that finish with the interaction's response, whenever they do, agree on it, and it
  // is the one on record.
  lemma {:induction false} FinishersAgree(setting: Setting, start: State, events: seq<Event>, i: nat, a: nat, b: nat)
    requires i <= |events|
    requires Initial(setting, start) && After(setting, start, events).Some?
    ensures After(setting, start, events[..i]).Some?
    ensures var early, late := After(setting, start, events[..i]).value, After(setting, start, events).value;
      && (a in early.handlers && early.handlers[a].pc.Finished? && early.handlers[a].pc.answer.Recorded? ==>
            late.row.response == Some(early.handlers[a].pc.answer.response))
      && (a in early.handlers && early.handlers[a].pc.Finished? && early.handlers[a].pc.answer.Recorded?
          && b in late.handlers && late.handlers[b].pc.Finished? && late.handlers[b].pc.answer.Recorded? ==>
            late.handlers[b].pc.answer == early.handlers[a].pc.answer)
  {
    RunIsStable(setting, start, events, i);
    RunKeepsInv(setting, start, events);
    RunKeepsInv(setting, start, events[..i]);
    var early, late := After(setting, start, events[..i]).value, After(setting, start, events).value;
    if a in early.handlers {
      assert HandlerEvidence(early, early.handlers[a].pc);
    }
    if b in late.handlers {
      assert HandlerEvidence(late, late.handlers[b].pc);
    }
  }

  ghost predicate PresentAt(setting: Setting, start: State, events: seq<Event>, i: nat)
    requires i <= |events|
  {
    && After(setting, start, events[..i]).Some?
    && EffectIsPresent(After(setting, start, events[..i]).value.memory, setting.mutation)
  }

  lemma {:induction false} SeenWasPresent(setting: Setting, start: State, events: seq<Event>)
    requires Initial(setting, start) && After(setting, start, events).Some?
    requires After(setting, start, events).value.effectSeen
    ensures exists i :: 0 <= i <= |events| && PresentAt(setting, start, events, i)
  {
    hide EffectIsPresent, RevisionOf, VerifyReadback, WorkingMemoryDocument.Apply;
    var state := After(setting, start, events).value;
    assert events[..|events|] == events;
    if EffectIsPresent(state.memory, setting.mutation) {
      assert PresentAt(setting, start, events, |events|);
    } else {
      assert events != [];
      var shorter := events[..|events| - 1];
      SeenWasPresent(setting, start, shorter);
      var i :| 0 <= i <= |shorter| && PresentAt(setting, start, shorter, i);
      assert shorter[..i] == events[..i];
      assert PresentAt(setting, start, events, i);
    }
  }

  // `applied` is never recorded for a change that was not in the stored document at some moment.
  lemma {:induction false} AppliedWasPresent(setting: Setting, start: State, events: seq<Event>)
    requires Initial(setting, start) && After(setting, start, events).Some?
    requires After(setting, start, events).value.row.status == Applied
    ensures exists i :: 0 <= i <= |events| && PresentAt(setting, start, events, i)
  {
    RunKeepsInv(setting, start, events);
    SeenWasPresent(setting, start, events);
  }

  // Nor, unless the engine's clock is behind, for a proposal that was not approved.
  lemma {:induction false} AppliedWasApproved(setting: Setting, start: State, events: seq<Event>)
    requires setting.engineAhead >= 0
    requires Initial(setting, start) && After(setting, start, events).Some?
    requires After(setting, start, events).value.row.status == Applied
    ensures After(setting, start, events).value.row.decision == Some(Approve)
  {
    RunKeepsInv(setting, start, events);
  }

  // ---------------------------------------------------------------- recovery

  lemma {:induction false} Then(setting: Setting, start: State, events: seq<Event>, event: Event)
    requires After(setting, start, events).Some?
    ensures After(setting, start, events + [event]) == Step(setting, After(setting, start, events).value, event)
  {
    assert (events + [event])[..|events|] == events;
  }

  /** A proposal approved by `row.message`, whose handler is gone, and still open. */
  ghost predicate Interrupted(setting: Setting, state: State) {
    && state.row.status == Resolving && state.row.message.Some? && state.row.decision == Some(Approve)
    && state.row.response.None? && !EngineSaysExpired(setting, state.now)
  }

  function ToInspection(id: nat, message: Message): seq<Event> {
    [Deliver(id, message)] + [Advance(id, Goes)] + [Advance(id, Goes)]
  }

  lemma {:induction false} RedeliveryInspects(setting: Setting, state: State, id: nat)
    requires Interrupted(setting, state) && id !in state.handlers
    ensures After(setting, state, ToInspection(id, state.row.message.value))
         == Some(state.(handlers := state.handlers[id := Handler(state.row.message.value, Inspect(state.row))]))
  {
    hide EffectIsPresent, RevisionOf;
    var message := state.row.message.value;
    Then(setting, state, [], Deliver(id, message));
    assert [] + [Deliver(id, message)] == [Deliver(id, message)];
    Then(setting, state, [Deliver(id, message)], Advance(id, Goes));
    Then(setting, state, [Deliver(id, message)] + [Advance(id, Goes)], Advance(id, Goes));
    assert After(setting, state, ToInspection(id, message)).value.handlers
        == state.handlers[id := Handler(message, Inspect(state.row))];
  }

  // A handler died after its change landed: the redelivered message records it as applied
  // without touching the document again.
  lemma {:induction false} RedeliveryRecordsTheChange(setting: Setting, state: State, id: nat, response: Response)
    requires Interrupted(setting, state) && id !in state.handlers
    requires EffectIsPresent(state.memory, setting.mutation)
    ensures var events := ToInspection(id, state.row.message.value)
                          + [Advance(id, Goes)] + [Advance(id, Responds(response))];
      var after := After(setting, state, events);
      && after.Some?
      && after.value.row == state.row.(status := Applied, version := state.row.version + 1, response := Some(response))
      && after.value.memory == state.memory && after.value.changes == state.changes
      && after.value.handlers == state.handlers[id := Handler(state.row.message.value, Finished(Recorded(response)))]
  {
    hide EffectIsPresent, RevisionOf;
    var events := ToInspection(id, state.row.message.value);
    RedeliveryInspects(setting, state, id);
    Then(setting, state, events, Advance(id, Goes));
    Then(setting, state, events + [Advance(id, Goes)], Advance(id, Responds(response)));
  }

  // Once the proposal has expired, the same redelivery records `expired`, whatever was decided and
  // whether or not the change is there. So recovery tells of a landed change exactly while the
  // proposal has not expired.
  lemma {:induction false} ExpiryComesFirst(setting: Setting, state: State, id: nat, response: Response)
    requires state.row.status == Resolving && state.row.message.Some? && state.row.response.None?
    requires EngineSaysExpired(setting, state.now) && setting.expiresAt <= state.now && id !in state.handlers
    ensures var events := ToInspection(id, state.row.message.value) + [Advance(id, Responds(response))];
      var after := After(setting, state, events);
      && after.Some?
      && after.value.row == state.row.(status := Expired, version := state.row.version + 1, response := Some(response))
      && after.value.memory == state.memory && after.value.changes == state.changes
  {
    hide EffectIsPresent, RevisionOf;
    var message := state.row.message.value;
    assert [] + [Deliver(id, message)] == [Deliver(id, message)];
    Then(setting, state, [], Deliver(id, message));
    Then(setting, state, [Deliver(id, message)], Advance(id, Goes));
    Then(setting, state, [Deliver(id, message)] + [Advance(id, Goes)], Advance(id, Goes));
    Then(setting, state, ToInspection(id, message), Advance(id, Responds(response)));
  }

  function ToApplying(id: nat, message: Message): seq<Event> {
    ToInspection(id, message) + [Advance(id, Goes)] + [Advance(id, Goes)]
  }

  lemma {:induction false} RedeliveryApplies(setting: Setting, state: State, id: nat)
    requires Interrupted(setting, state) && id !in state.handlers
    requires RevisionOf(state.memory) == setting.basedOn && !EffectIsPresent(state.memory, setting.mutation)
    ensures After(setting, state, ToApplying(id, state.row.message.value))
         == Some(state.(handlers := state.handlers[id := Handler(state.row.message.value, ApplyMutation(state.row))]))
  {
    hide EffectIsPresent, RevisionOf, ToInspection;
    var events := ToInspection(id, state.row.message.value);
    RedeliveryInspects(setting, state, id);
    Then(setting, state, events, Advance(id, Goes));
    Then(setting, state, events + [Advance(id, Goes)], Advance(id, Goes));
    assert After(setting, state, ToApplying(id, state.row.message.value)).value.handlers
        == state.handlers[id := Handler(state.row.message.value, ApplyMutation(state.row))];
  }

  function ToChange(id: nat, message: Message, at: Instant): seq<Event> {
    ToApplying(id, message) + [Advance(id, Writes(at, true))]
  }

  // A handler died before its change landed: the redelivered message makes it.
  lemma {:induction false} RedeliveryMakesTheChange(setting: Setting, state: State, id: nat, at: Instant)
    requires Interrupted(setting, state) && id !in state.handlers
    requires RevisionOf(state.memory) == setting.basedOn && !EffectIsPresent(state.memory, setting.mutation)
    requires var applied := WorkingMemoryDocument.Apply(state.memory, setting.mutation, setting.principal, at,
                                                        setting.bytes);
      applied.Success? && VerifyReadback(state.memory, Stored(applied.value), setting.mutation)
    ensures After(setting, state, ToChange(id, state.row.message.value, at)).Some?
    ensures var applied := WorkingMemoryDocument.Apply(state.memory, setting.mutation, setting.principal, at,
                                                       setting.bytes);
      var after := After(setting, state, ToChange(id, state.row.message.value, at)).value;
      && after.row == state.row && after.memory == Stored(applied.value)
      && after.handlers == state.handlers[id := Handler(state.row.message.value, Complete(state.row, Applied, false))]
      && after.changes == state.changes + (if RevisionOf(after.memory) != setting.basedOn then 1 else 0)
      && after.restorations == state.restorations
  {
    hide EffectIsPresent, RevisionOf, VerifyReadback, WorkingMemoryDocument.Apply, ToApplying;
    RedeliveryApplies(setting, state, id);
    Then(setting, state, ToApplying(id, state.row.message.value), Advance(id, Writes(at, true)));
  }
}
