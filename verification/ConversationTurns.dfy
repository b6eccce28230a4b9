/** What one message does when nobody interferes and no call fails: the whole turn of the
    confirmation router, case by case. */
module ConversationTurns {
  import opened Wrappers
  import opened WorkingMemoryDocument
  import opened ConversationRouter
  import opened ConversationRuns

  /** What the world answers: how the message is understood, when the write happens, and the reply. */
  datatype World = World(disposition: Disposition, at: Instant, response: Response)

  function Answered(pc: Pc, world: World): Choice {
    if pc.Classify? then Disposes(world.disposition)
    else if pc.ApplyMutation? then Writes(world.at, true)
    else if pc.Complete? then Responds(world.response)
    else Goes
  }

  /** `steps` steps of one handler, or fewer if it finishes. */
  function Alone(setting: Setting, state: State, id: nat, world: World, steps: nat): State
    decreases steps
  {
    if steps == 0 || id !in state.handlers then state
    else
      match HandlerStep(setting, state, id, Answered(state.handlers[id].pc, world))
      case None => state
      case Some(next) => Alone(setting, next, id, world, steps - 1)
  }

  /** A turn takes at most seven awaited calls. */
  const TURN_CALLS := 7

  // ---------------------------------------------------------------- what a turn should do

  datatype Outcome = Outcome(row: Row, memory: Document, answer: Answer)

  /** The status that carrying out an approval ends in, and the document it leaves. */
  function CarriedOut(setting: Setting, memory: Document, at: Instant): (Status, Document) {
    if RevisionOf(memory) != setting.basedOn then (Stale, memory)
    else
      match WorkingMemoryDocument.Apply(memory, setting.mutation, setting.principal, at, setting.bytes)
      case Failure(_) => (Failed, memory)
      case Success(after) =>
        (if VerifyReadback(memory, Stored(after), setting.mutation) then Applied else Failed, Stored(after))
  }

  function Closed(row: Row, result: Status, response: Response): Row {
    row.(status := result, version := row.version + 1, response := Some(response))
  }

  /** A decision on record is taken up again. */
  function TakenUpAgain(setting: Setting, state: State, world: World): Outcome {
    var row := state.row;
    match row.decision
    case Some(Reject) => Outcome(Closed(row, Rejected, world.response), state.memory, Recorded(world.response))
    case Some(Approve) =>
      var (result, memory) := if EffectIsPresent(state.memory, setting.mutation) then (Applied, state.memory)
                              else CarriedOut(setting, state.memory, world.at);
      Outcome(Closed(row, result, world.response), memory, Recorded(world.response))
    case _ => Outcome(Closed(row, Failed, world.response), state.memory, Recorded(world.response))
  }

  /** The message is the first to decide. */
  function DecidedNow(setting: Setting, state: State, message: Message, world: World): Outcome {
    var nothing := (answer: Answer) => Outcome(state.row, state.memory, answer);
    match world.disposition
    case NewIntent => nothing(NormalTurn)
    case Decides(Ambiguous) => nothing(AskAgain)
    case Decides(decision) =>
      var claimed := state.row.(status := Resolving, version := state.row.version + 1, message := Some(message),
                                decision := Some(decision));
      var (result, memory) := if decision == Reject then (Rejected, state.memory)
                              else CarriedOut(setting, state.memory, world.at);
      Outcome(Closed(claimed, result, world.response), memory, Recorded(world.response))
  }

  /** The proposal is found to have expired. */
  function FoundExpired(state: State, message: Message, world: World, answer: Answer): Outcome {
    var row := state.row.(message := if state.row.message.Some? then state.row.message else Some(message));
    Outcome(Closed(row, Expired, world.response), state.memory, answer)
  }

  function TurnOutcome(setting: Setting, state: State, message: Message, world: World): Outcome {
    var row, expired := state.row, setting.expiresAt <= state.now;
    var own := row.message == Some(message);
    if own && row.response.Some? then Outcome(row, state.memory, Recorded(row.response.value))
    else if !IsOpen(row) then Outcome(row, state.memory, NormalTurn)
    else if row.status == Resolving && (own || !expired) then
      if expired then FoundExpired(state, message, world, Recorded(world.response))
      else TakenUpAgain(setting, state, world)
    else if expired then
      FoundExpired(state, message, world,
                   if world.disposition == NewIntent then NormalTurn else Recorded(world.response))
    else DecidedNow(setting, state, message, world)
  }

  // ---------------------------------------------------------------- and that it does

  function Started(state: State, id: nat, message: Message, pc: Pc): State {
    state.(handlers := state.handlers[id := Handler(message, pc)])
  }

  /** The handler has finished with this outcome, and the others are where they were. */
  ghost predicate EndsWith(before: State, after: State, id: nat, message: Message, outcome: Outcome) {
    && after.row == outcome.row && after.memory == outcome.memory && after.now == before.now
    && after.handlers == before.handlers[id := Handler(message, Finished(outcome.answer))]
  }

  ghost predicate ClocksAgree(setting: Setting, state: State) {
    EngineSaysExpired(setting, state.now) <==> setting.expiresAt <= state.now
  }

  lemma AloneFinished(setting: Setting, state: State, id: nat, world: World, steps: nat)
    requires id in state.handlers && state.handlers[id].pc.Finished?
    ensures Alone(setting, state, id, world, steps) == state
  {
  }

  // Recording the result, the last step but the reply.
  lemma RecordsAlone(setting: Setting, before: State, state: State, id: nat, message: Message, world: World, steps: nat,
                     result: Status, thenNormal: bool)
    requires id in state.handlers && steps >= 1 && state.now == before.now
    requires state.handlers == before.handlers[id := Handler(message, Complete(state.row, result, thenNormal))]
    requires if result == Expired then IsOpen(state.row) && setting.expiresAt <= state.now
             else state.row.status == Resolving
    ensures var row := if result == Expired && state.row.message.None? then state.row.(message := Some(message))
                       else state.row;
      EndsWith(before, Alone(setting, state, id, world, steps), id, message,
               Outcome(Closed(row, result, world.response), state.memory,
                       if thenNormal then NormalTurn else Recorded(world.response)))
  {
    hide EffectIsPresent;
    var next := HandlerStep(setting, state, id, Responds(world.response)).value;
    AloneFinished(setting, next, id, world, steps - 1);
    assert Alone(setting, state, id, world, steps) == Alone(setting, next, id, world, steps - 1);
  }

  /** A state of this turn: its handler is here, the others and the time are as they were. */
  ghost predicate At(before: State, state: State, id: nat, message: Message, pc: Pc) {
    state.handlers == before.handlers[id := Handler(message, pc)] && state.now == before.now
  }

  lemma OneStep(setting: Setting, state: State, id: nat, world: World, steps: nat)
    requires id in state.handlers && steps >= 1
    requires HandlerStep(setting, state, id, Answered(state.handlers[id].pc, world)).Some?
    ensures Alone(setting, state, id, world, steps)
         == Alone(setting, HandlerStep(setting, state, id, Answered(state.handlers[id].pc, world)).value, id, world,
                  steps - 1)
  {
    hide HandlerStep;
  }

  // Carrying out an approval and recording what came of it.
  lemma CarriesOutAlone(setting: Setting, before: State, state: State, id: nat, message: Message, world: World,
                        steps: nat)
    requires At(before, state, id, message, ApplyMutation(state.row)) && steps >= 2
    requires state.row.status == Resolving
    ensures var (result, memory) := CarriedOut(setting, state.memory, world.at);
      EndsWith(before, Alone(setting, state, id, world, steps), id, message,
               Outcome(Closed(state.row, result, world.response), memory, Recorded(world.response)))
  {
    hide RevisionOf, EffectIsPresent, VerifyReadback, WorkingMemoryDocument.Apply, Stored, Alone, EndsWith;
    OneStep(setting, state, id, world, steps);
    var next := HandlerStep(setting, state, id, Writes(world.at, true)).value;
    assert next.handlers
        == before.handlers[id := Handler(message, Complete(state.row, CarriedOut(setting, state.memory, world.at).0,
                                                           false))];
    RecordsAlone(setting, before, next, id, message, world, steps - 1,
                 CarriedOut(setting, state.memory, world.at).0, false);
  }

  // Acting on a decision while the proposal stands.
  lemma ResolvesAlone(setting: Setting, before: State, state: State, id: nat, message: Message, world: World,
                      steps: nat, decision: Decision)
    requires At(before, state, id, message, Resolve(state.row, decision)) && steps >= 3
    requires decision != Ambiguous && state.row.status == Resolving && !EngineSaysExpired(setting, state.now)
    ensures var (result, memory) := if decision == Reject then (Rejected, state.memory)
                                    else CarriedOut(setting, state.memory, world.at);
      EndsWith(before, Alone(setting, state, id, world, steps), id, message,
               Outcome(Closed(state.row, result, world.response), memory, Recorded(world.response)))
  {
    hide RevisionOf, EffectIsPresent, Alone, EndsWith, CarriedOut;
    OneStep(setting, state, id, world, steps);
    var next := HandlerStep(setting, state, id, Goes).value;
    if decision == Reject {
      assert next.handlers == before.handlers[id := Handler(message, Complete(state.row, Rejected, false))];
      RecordsAlone(setting, before, next, id, message, world, steps - 1, Rejected, false);
    } else {
      assert next.handlers == before.handlers[id := Handler(message, ApplyMutation(state.row))];
      CarriesOutAlone(setting, before, next, id, message, world, steps - 1);
    }
  }

  // Looking whether an approved change is there.
  lemma InspectsAlone(setting: Setting, before: State, state: State, id: nat, message: Message, world: World,
                      steps: nat)
    requires At(before, state, id, message, Inspect(state.row)) && steps >= 4
    requires state.row.status == Resolving && !EngineSaysExpired(setting, state.now)
    ensures var (result, memory) := if EffectIsPresent(state.memory, setting.mutation) then (Applied, state.memory)
                                    else CarriedOut(setting, state.memory, world.at);
      EndsWith(before, Alone(setting, state, id, world, steps), id, message,
               Outcome(Closed(state.row, result, world.response), memory, Recorded(world.response)))
  {
    hide RevisionOf, EffectIsPresent, Alone, EndsWith, VerifyReadback, WorkingMemoryDocument.Apply;
    OneStep(setting, state, id, world, steps);
    var next := HandlerStep(setting, state, id, Goes).value;
    if EffectIsPresent(state.memory, setting.mutation) {
      assert next.handlers == before.handlers[id := Handler(message, Complete(state.row, Applied, false))];
      RecordsAlone(setting, before, next, id, message, world, steps - 1, Applied, false);
    } else if RevisionOf(state.memory) != setting.basedOn {
      assert next.handlers == before.handlers[id := Handler(message, Complete(state.row, Stale, false))];
      RecordsAlone(setting, before, next, id, message, world, steps - 1, Stale, false);
    } else {
      assert next.handlers == before.handlers[id := Handler(message, Resolve(state.row, Approve))];
      ResolvesAlone(setting, before, next, id, message, world, steps - 1, Approve);
    }
  }

  // recoverResolvingInteraction.
  lemma RecoversAlone(setting: Setting, before: State, state: State, id: nat, message: Message, world: World,
                      steps: nat)
    requires At(before, state, id, message, Recover(state.row)) && steps >= 5
    requires state.row.status == Resolving && ClocksAgree(setting, state)
    requires setting.expiresAt <= state.now ==> state.row.message.Some?
    ensures EndsWith(before, Alone(setting, state, id, world, steps), id, message,
                     if setting.expiresAt <= state.now
                     then FoundExpired(state, message, world, Recorded(world.response))
                     else TakenUpAgain(setting, state, world))
  {
    hide RevisionOf, EffectIsPresent, Alone, EndsWith, CarriedOut;
    OneStep(setting, state, id, world, steps);
    var next := HandlerStep(setting, state, id, Goes).value;
    var row := state.row;
    if setting.expiresAt <= state.now {
      assert next.handlers == before.handlers[id := Handler(message, Complete(row, Expired, false))];
      RecordsAlone(setting, before, next, id, message, world, steps - 1, Expired, false);
    } else if row.decision == Some(Reject) {
      assert next.handlers == before.handlers[id := Handler(message, Resolve(row, Reject))];
      ResolvesAlone(setting, before, next, id, message, world, steps - 1, Reject);
    } else if row.decision == Some(Approve) {
      assert next.handlers == before.handlers[id := Handler(message, Inspect(row))];
      InspectsAlone(setting, before, next, id, message, world, steps - 1);
    } else {
      assert next.handlers == before.handlers[id := Handler(message, Complete(row, Failed, false))];
      RecordsAlone(setting, before, next, id, message, world, steps - 1, Failed, false);
    }
  }

  // A pending proposal whose deadline has not passed.
  lemma DecidesAlone(setting: Setting, before: State, state: State, id: nat, message: Message, world: World,
                     steps: nat)
    requires At(before, state, id, message, Classify(state.row, false)) && steps >= 5
    requires state.row.status == Pending && !EngineSaysExpired(setting, state.now)
    ensures EndsWith(before, Alone(setting, state, id, world, steps), id, message,
                     DecidedNow(setting, state, message, world))
  {
    hide RevisionOf, EffectIsPresent, Alone, EndsWith, CarriedOut;
    OneStep(setting, state, id, world, steps);
    var next := HandlerStep(setting, state, id, Disposes(world.disposition)).value;
    match world.disposition
    case NewIntent =>
      AloneFinished(setting, next, id, world, steps - 1);
      EndsAlready(before, next, id, message, NormalTurn);
    case Decides(decision) =>
      if decision == Ambiguous {
        assert next.handlers == before.handlers[id := Handler(message, Resolve(state.row, Ambiguous))];
        OneStep(setting, next, id, world, steps - 1);
        var last := HandlerStep(setting, next, id, Goes).value;
        AloneFinished(setting, last, id, world, steps - 2);
        EndsAlready(before, last, id, message, AskAgain);
      } else {
        assert next.handlers == before.handlers[id := Handler(message, Claim(state.row, decision))];
        ClaimsAlone(setting, before, next, id, message, world, steps - 1, decision);
      }
  }

  lemma EndsAlready(before: State, state: State, id: nat, message: Message, answer: Answer)
    requires At(before, state, id, message, Finished(answer))
    ensures EndsWith(before, state, id, message, Outcome(state.row, state.memory, answer))
  {
  }

  lemma ClaimsAlone(setting: Setting, before: State, state: State, id: nat, message: Message, world: World,
                    steps: nat, decision: Decision)
    requires At(before, state, id, message, Claim(state.row, decision))
    requires steps >= 4 && world.disposition == Decides(decision)
    requires decision != Ambiguous && state.row.status == Pending && !EngineSaysExpired(setting, state.now)
    ensures EndsWith(before, Alone(setting, state, id, world, steps), id, message,
                     DecidedNow(setting, state, message, world))
  {
    hide RevisionOf, EffectIsPresent, Alone, EndsWith, CarriedOut;
    OneStep(setting, state, id, world, steps);
    var next := HandlerStep(setting, state, id, Goes).value;
    var claimed := state.row.(status := Resolving, version := state.row.version + 1, message := Some(message),
                              decision := Some(decision));
    assert next.row == claimed;
    assert next.handlers == before.handlers[id := Handler(message, Resolve(claimed, decision))];
    ResolvesAlone(setting, before, next, id, message, world, steps - 1, decision);
  }

  // A proposal whose deadline has passed, answered by a message that did not decide it.
  lemma ExpiresAlone(setting: Setting, before: State, state: State, id: nat, message: Message, world: World,
                     steps: nat)
    requires At(before, state, id, message, Classify(state.row, true)) && steps >= 3
    requires IsOpen(state.row) && setting.expiresAt <= state.now && EngineSaysExpired(setting, state.now)
    ensures EndsWith(before, Alone(setting, state, id, world, steps), id, message,
                     FoundExpired(state, message, world,
                                  if world.disposition == NewIntent then NormalTurn else Recorded(world.response)))
  {
    hide RevisionOf, EffectIsPresent, Alone, EndsWith;
    OneStep(setting, state, id, world, steps);
    var next := HandlerStep(setting, state, id, Disposes(world.disposition)).value;
    match world.disposition
    case NewIntent =>
      assert next.handlers == before.handlers[id := Handler(message, Complete(state.row, Expired, true))];
      RecordsAlone(setting, before, next, id, message, world, steps - 1, Expired, true);
    case Decides(decision) =>
      assert next.handlers == before.handlers[id := Handler(message, Resolve(state.row, decision))];
      OneStep(setting, next, id, world, steps - 1);
      var last := HandlerStep(setting, next, id, Goes).value;
      assert last.handlers == before.handlers[id := Handler(message, Complete(state.row, Expired, false))];
      RecordsAlone(setting, before, last, id, message, world, steps - 2, Expired, false);
  }

  // After the lookup for a replay.
  lemma LooksForAnOpenOne(setting: Setting, before: State, state: State, id: nat, message: Message, world: World,
                          steps: nat)
    requires At(before, state, id, message, FindOpen) && steps >= 6
    requires EvidenceFits(state.row) && ClocksAgree(setting, state)
    requires state.row.message != Some(message) || !IsOpen(state.row)
    requires state.row.message == Some(message) ==> state.row.response.None?
    ensures EndsWith(before, Alone(setting, state, id, world, steps), id, message,
                     TurnOutcome(setting, state, message, world))
  {
    hide RevisionOf, EffectIsPresent, Alone, EndsWith, CarriedOut, TakenUpAgain, FoundExpired, DecidedNow;
    OneStep(setting, state, id, world, steps);
    var next := HandlerStep(setting, state, id, Goes).value;
    var row := state.row;
    if IsOpen(row) && state.now < setting.expiresAt {
      if row.status == Resolving {
        assert next.handlers == before.handlers[id := Handler(message, Recover(row))];
        RecoversAlone(setting, before, next, id, message, world, steps - 1);
        SameOutcomes(setting, state, next, message, world);
      } else {
        assert next.handlers == before.handlers[id := Handler(message, Classify(row, false))];
        DecidesAlone(setting, before, next, id, message, world, steps - 1);
        SameOutcomes(setting, state, next, message, world);
      }
    } else {
      assert next.handlers == before.handlers[id := Handler(message, FindExpired)];
      OneStep(setting, next, id, world, steps - 1);
      var last := HandlerStep(setting, next, id, Goes).value;
      if IsOpen(row) {
        assert last.handlers == before.handlers[id := Handler(message, Classify(row, true))];
        ExpiresAlone(setting, before, last, id, message, world, steps - 2);
        SameOutcomes(setting, state, last, message, world);
      } else {
        AloneFinished(setting, last, id, world, steps - 2);
        assert last.handlers == before.handlers[id := Handler(message, Finished(NormalTurn))];
        EndsAlready(before, last, id, message, NormalTurn);
      }
    }
  }

  lemma SameOutcomes(setting: Setting, state: State, other: State, message: Message, world: World)
    requires other.row == state.row && other.memory == state.memory && other.now == state.now
    ensures TakenUpAgain(setting, other, world) == TakenUpAgain(setting, state, world)
    ensures DecidedNow(setting, other, message, world) == DecidedNow(setting, state, message, world)
    ensures forall answer :: FoundExpired(other, message, world, answer) == FoundExpired(state, message, world, answer)
  {
    hide CarriedOut, EffectIsPresent;
  }

  // The whole turn of a message that arrives at any open or closed row, if nobody interferes, no
  // call fails, and the two clocks agree about the deadline: the row, the document and the answer.
  lemma TurnAlone(setting: Setting, state: State, id: nat, message: Message, world: World)
    requires EvidenceFits(state.row) && ClocksAgree(setting, state) && id !in state.handlers
    ensures Step(setting, state, Deliver(id, message)).Some?
    ensures EndsWith(state, Alone(setting, Step(setting, state, Deliver(id, message)).value, id, world, TURN_CALLS),
                     id, message, TurnOutcome(setting, state, message, world))
  {
    hide RevisionOf, EffectIsPresent, Alone, EndsWith, CarriedOut, TakenUpAgain, FoundExpired, DecidedNow;
    var started := Step(setting, state, Deliver(id, message)).value;
    var row := state.row;
    OneStep(setting, started, id, world, TURN_CALLS);
    var next := HandlerStep(setting, started, id, Goes).value;
    if row.message == Some(message) && row.response.Some? {
      AloneFinished(setting, next, id, world, TURN_CALLS - 1);
      assert next.handlers == state.handlers[id := Handler(message, Finished(Recorded(row.response.value)))];
      EndsAlready(state, next, id, message, Recorded(row.response.value));
    } else if row.message == Some(message) && row.status == Resolving {
      assert next.handlers == state.handlers[id := Handler(message, Recover(row))];
      RecoversAlone(setting, state, next, id, message, world, TURN_CALLS - 1);
      SameOutcomes(setting, state, next, message, world);
    } else {
      assert next.handlers == state.handlers[id := Handler(message, FindOpen)];
      LooksForAnOpenOne(setting, state, next, id, message, world, TURN_CALLS - 1);
      SameOutcomes(setting, state, next, message, world);
    }
  }

  // ---------------------------------------------------------------- when a call fails

  // A write that is reported to have failed before it began leaves the document as it is, and the
  // proposal is recorded as failed.
  lemma FailedWriteIsRecorded(setting: Setting, state: State, id: nat, response: Response)
    requires id in state.handlers && state.handlers[id].pc == ApplyMutation(state.row)
    requires state.row.status == Resolving
    ensures var refused := HandlerStep(setting, state, id, Fails);
      && refused.Some? && refused.value.row == state.row && refused.value.memory == state.memory
      && id in refused.value.handlers
      && var recorded := HandlerStep(setting, refused.value, id, Responds(response));
         && recorded.Some? && recorded.value.row == Closed(state.row, Failed, response)
         && recorded.value.handlers == state.handlers[id := state.handlers[id].(pc := Finished(Recorded(response)))]
  {
    hide EffectIsPresent, RevisionOf;
  }

  // A handler whose own result was not recorded, for whatever reason, answers with the response on
  // record if there is one: at once if it is that of the message it looks for, otherwise after a
  // second lookup. If there is none it gives up.
  lemma ResponseIsLookedUp(setting: Setting, state: State, id: nat)
    requires id in state.handlers && state.handlers[id].pc.LookupByMessage?
    ensures var handler := state.handlers[id];
      var own := if handler.pc.row.message.Some? then handler.pc.row.message else Some(handler.message);
      var first := HandlerStep(setting, state, id, Goes);
      && first.Some? && first.value.row == state.row && first.value.memory == state.memory && id in first.value.handlers
      && if state.row.message == own && state.row.response.Some? then
           first.value.handlers[id].pc.Finished?
           && first.value.handlers[id].pc.answer ==
              if handler.pc.thenNormal then NormalTurn else Recorded(state.row.response.value)
         else
           var second := HandlerStep(setting, first.value, id, Goes);
           && (second.Some? <==> state.row.response.Some?)
           && (second.Some? ==>
                 && second.value.row == state.row && second.value.memory == state.memory && id in second.value.handlers
                 && second.value.handlers[id].pc.Finished?
                 && second.value.handlers[id].pc.answer ==
                    if handler.pc.thenNormal then NormalTurn else Recorded(state.row.response.value))
  {
    hide EffectIsPresent, RevisionOf;
  }

  // A result that was recorded although its reply was lost is what the handler looks up and answers;
  // a recording that failed, or came too late, changes nothing and leads to the same lookup.
  lemma LostRecordingIsLookedUp(setting: Setting, state: State, id: nat, response: Response)
    requires id in state.handlers && state.handlers[id].pc.Complete?
    ensures var Complete(held, result, thenNormal) := state.handlers[id].pc;
      var looking := state.handlers[id := state.handlers[id].(pc := LookupByMessage(held, thenNormal))];
      var lost, failed := HandlerStep(setting, state, id, ReplyLost(response)), HandlerStep(setting, state, id, Fails);
      && failed == Some(state.(handlers := looking))
      && lost.Some? && lost.value.handlers == looking && lost.value.memory == state.memory
      && var mayRecord := && state.row.version == held.version
                          && (if result == Expired then IsOpen(state.row) && setting.expiresAt <= state.now
                              else state.row.status == Resolving);
         && (!mayRecord ==> lost.value.row == state.row)
         && (mayRecord ==>
               && lost.value.row.status == result && lost.value.row.response == Some(response)
               && lost.value.row.version == state.row.version + 1)
  {
    hide EffectIsPresent, RevisionOf;
  }

  // ---------------------------------------------------------------- what is counted

  // The three counters of the model count what they are said to count.
  lemma CountersCount(setting: Setting, state: State, event: Event)
    requires Step(setting, state, event).Some?
    ensures var after := Step(setting, state, event).value;
      var writes := event.Advance? && state.handlers[event.id].pc.ApplyMutation?;
      var changed := RevisionOf(after.memory) != RevisionOf(state.memory);
      && after.changes == state.changes + (if writes && changed then 1 else 0)
      && after.restorations == state.restorations
           + (if event.OtherWrite? && changed && RevisionOf(event.document) == setting.basedOn then 1 else 0)
      && (state.effectSeen || (after.memory != state.memory && EffectIsPresent(after.memory, setting.mutation)) ==>
            after.effectSeen)
      && (after.effectSeen ==> state.effectSeen || EffectIsPresent(after.memory, setting.mutation))
      && (after.memory != state.memory ==> event.OtherWrite? || writes)
  {
    hide RevisionOf, EffectIsPresent, VerifyReadback, WorkingMemoryDocument.Apply;
  }
}
