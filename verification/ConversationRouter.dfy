/** The confirmation router as a step system (apps/engine/src/workflows/conversation-turn-router.ts).

    One proposal waits for its answer. Any number of handlers run `runConversationTurn`, for any
    messages and for redeliveries of the same message; each awaited call is one step, and a handler
    may die, or give up by throwing, before any of them. Applying to memory is one step, which
    MemorySession justifies for writers that share its mutex. */
module ConversationRouter {
  import opened Wrappers
  import opened WorkingMemoryDocument

  type Message = nat
  type Response = nat

  datatype Decision = Approve | Reject | Ambiguous

  datatype Status = Pending | Resolving | Applied | Rejected | Expired | Stale | Failed

  /** The row of operations.pending_interactions. */
  datatype Row = Row(
    status: Status,
    version: nat,
    message: Option<Message>,
    decision: Option<Decision>,
    response: Option<Response>)

  /** What never changes: the proposal, the document bound, and how far the engine's clock is ahead
      of the database's. */
  datatype Setting = Setting(
    mutation: Mutation,
    principal: Principal,
    basedOn: Revision,
    expiresAt: Instant,
    engineAhead: int,
    bytes: Document -> nat)

  datatype Answer = Recorded(response: Response) | NormalTurn | AskAgain

  /** The next await of a handler, with the row it read before. */
  datatype Pc =
    | FindReplay
    | FindOpen
    | FindExpired
    | Classify(row: Row, expired: bool)
    | Claim(row: Row, decision: Decision)
    | Resolve(row: Row, decision: Decision)
    | ApplyMutation(row: Row)
    | Recover(row: Row)
    | Inspect(row: Row)
    | Complete(row: Row, result: Status, thenNormal: bool)
    | LookupByMessage(row: Row, thenNormal: bool)
    | LookupById(thenNormal: bool)
    | Finished(answer: Answer)

  datatype Handler = Handler(message: Message, pc: Pc)

  /** `changes` counts the times the proposal's mutation changed the stored document,
      `restorations` the times another writer brought the base revision back, and `effectSeen`
      remembers whether the mutation's effect was ever in the stored document. */
  datatype State = State(
    row: Row,
    memory: Document,
    now: Instant,
    handlers: map<nat, Handler>,
    changes: nat,
    restorations: nat,
    effectSeen: bool)

  datatype Disposition = Decides(decision: Decision) | NewIntent

  /** What the world contributes to one step of a handler. */
  datatype Choice =
    | Goes
    | Fails
    | Disposes(disposition: Disposition)
    | Responds(response: Response)
    | ReplyLost(response: Response)
    | Writes(at: Instant, reported: bool)

  datatype Event =
    | Deliver(id: nat, message: Message)
    | Die(id: nat)
    | Advance(id: nat, choice: Choice)
    | OtherWrite(document: Document)
    | Wait(until: Instant)

  predicate IsOpen(row: Row) {
    row.status == Pending || row.status == Resolving
  }

  predicate EngineSaysExpired(setting: Setting, now: Instant) {
    setting.expiresAt <= now + setting.engineAhead
  }

  /** Which status needs which evidence (packages/contracts/src/pending-interaction.ts, line 102). */
  predicate EvidenceFits(row: Row) {
    match row.status
    case Pending => row.message.None? && row.decision.None? && row.response.None?
    case Resolving => row.message.Some? && row.response.None?
    case _ => row.message.Some? && row.response.Some?
  }

  function WithMemory(setting: Setting, state: State, document: Document): State {
    state.(memory := document, effectSeen := state.effectSeen || EffectIsPresent(document, setting.mutation))
  }

  function SetPc(state: State, id: nat, pc: Pc): State
    requires id in state.handlers
  {
    state.(handlers := state.handlers[id := state.handlers[id].(pc := pc)])
  }

  // ---------------------------------------------------------------- finding the interaction

  function FindStep(setting: Setting, state: State, id: nat): State
    requires id in state.handlers
  {
    var handler, row := state.handlers[id], state.row;
    match handler.pc
    case FindReplay =>
      if row.message == Some(handler.message) && row.response.Some?
      then SetPc(state, id, Finished(Recorded(row.response.value)))
      else if row.message == Some(handler.message) && row.status == Resolving then SetPc(state, id, Recover(row))
      else SetPc(state, id, FindOpen)
    case FindOpen =>
      if IsOpen(row) && state.now < setting.expiresAt
      then SetPc(state, id, if row.status == Resolving then Recover(row) else Classify(row, false))
      else SetPc(state, id, FindExpired)
    case FindExpired =>
      if IsOpen(row) && setting.expiresAt <= state.now then SetPc(state, id, Classify(row, true))
      else SetPc(state, id, Finished(NormalTurn))
    case _ => state
  }

  function ClassifyStep(state: State, id: nat, disposition: Disposition): State
    requires id in state.handlers && state.handlers[id].pc.Classify?
  {
    var row, expired := state.handlers[id].pc.row, state.handlers[id].pc.expired;
    SetPc(state, id,
      match disposition
      case NewIntent => if expired then Complete(row, Expired, true) else Finished(NormalTurn)
      case Decides(decision) =>
        if expired || decision == Ambiguous then Resolve(row, decision) else Claim(row, decision))
  }

  /** PostgresPendingInteractionRepository.claim, and what the router makes of it. */
  function ClaimStep(state: State, id: nat): Option<State>
    requires id in state.handlers && state.handlers[id].pc.Claim?
  {
    var handler, row := state.handlers[id], state.row;
    var decision := handler.pc.decision;
    if row.status == Pending && row.version == handler.pc.row.version then
      var claimed := Row(Resolving, row.version + 1, Some(handler.message), Some(decision), row.response);
      Some(SetPc(state.(row := claimed), id, Resolve(claimed, decision)))
    else if row.message == Some(handler.message) then
      Some(SetPc(state, id,
        if row.response.Some? then Finished(Recorded(row.response.value))
        else if row.status == Resolving then Recover(row)
        else Resolve(row, decision)))
    else None
  }

  // ---------------------------------------------------------------- resolving

  /** Up to the memory call of OrchestratorAgent.resolvePendingWorkingMemoryMutation. */
  function ResolveStep(setting: Setting, state: State, id: nat): State
    requires id in state.handlers && state.handlers[id].pc.Resolve?
  {
    var row, decision := state.handlers[id].pc.row, state.handlers[id].pc.decision;
    SetPc(state, id,
      if EngineSaysExpired(setting, state.now) then Complete(row, Expired, false)
      else match decision
        case Reject => Complete(row, Rejected, false)
        case Ambiguous => Finished(AskAgain)
        case Approve => ApplyMutation(row))
  }

  /** applyWorkingMemoryMutation, and the status its outcome becomes. */
  function ApplyStep(setting: Setting, state: State, id: nat, choice: Choice): Option<State>
    requires id in state.handlers && state.handlers[id].pc.ApplyMutation?
  {
    var row := state.handlers[id].pc.row;
    if choice == Fails then Some(SetPc(state, id, Complete(row, Failed, false)))
    else if !choice.Writes? then None
    else if RevisionOf(state.memory) != setting.basedOn then Some(SetPc(state, id, Complete(row, Stale, false)))
    else match WorkingMemoryDocument.Apply(state.memory, setting.mutation, setting.principal, choice.at, setting.bytes)
      case Failure(_) => Some(SetPc(state, id, Complete(row, Failed, false)))
      case Success(after) =>
        var stored := Stored(after);
        var changed := RevisionOf(stored) != RevisionOf(state.memory);
        var seen := choice.reported && VerifyReadback(state.memory, stored, setting.mutation);
        Some(SetPc(WithMemory(setting, state, stored).(changes := state.changes + if changed then 1 else 0), id,
                   Complete(row, if seen then Applied else Failed, false)))
  }

  /** recoverResolvingInteraction, up to the inspection and after it. */
  function RecoverStep(setting: Setting, state: State, id: nat): State
    requires id in state.handlers && state.handlers[id].pc.Recover?
  {
    var row := state.handlers[id].pc.row;
    SetPc(state, id,
      if EngineSaysExpired(setting, state.now) then Complete(row, Expired, false)
      else if row.decision == Some(Reject) then Resolve(row, Reject)
      else if row.decision != Some(Approve) then Complete(row, Failed, false)
      else Inspect(row))
  }

  function InspectStep(setting: Setting, state: State, id: nat, choice: Choice): Option<State>
    requires id in state.handlers && state.handlers[id].pc.Inspect?
  {
    var row := state.handlers[id].pc.row;
    if choice == Fails then Some(SetPc(state, id, Complete(row, Failed, false)))
    else if choice != Goes then None
    else Some(SetPc(state, id,
      if EffectIsPresent(state.memory, setting.mutation) then Complete(row, Applied, false)
      else if RevisionOf(state.memory) != setting.basedOn then Complete(row, Stale, false)
      else Resolve(row, Approve)))
  }

  // ---------------------------------------------------------------- completing

  /** The row after `expire` or `complete`, if their conditions hold. */
  function Completed(setting: Setting, row: Row, now: Instant, message: Message, expectedVersion: nat, result: Status,
                     response: Response): Option<Row>
  {
    if result == Expired then
      if IsOpen(row) && row.version == expectedVersion && setting.expiresAt <= now then
        Some(row.(status := Expired, version := row.version + 1, response := Some(response),
                  message := if row.message.Some? then row.message else Some(message)))
      else None
    else
      if row.status == Resolving && row.version == expectedVersion then
        Some(row.(status := result, version := row.version + 1, response := Some(response)))
      else None
  }

  function Reply(thenNormal: bool, response: Response): Pc {
    Finished(if thenNormal then NormalTurn else Recorded(response))
  }

  /** completeIfTerminal. */
  function CompleteStep(setting: Setting, state: State, id: nat, choice: Choice): Option<State>
    requires id in state.handlers && state.handlers[id].pc.Complete?
  {
    var handler := state.handlers[id];
    var Complete(held, result, thenNormal) := handler.pc;
    var lookup := LookupByMessage(held, thenNormal);
    if choice == Fails then Some(SetPc(state, id, lookup))
    else if !choice.Responds? && !choice.ReplyLost? then None
    else match Completed(setting, state.row, state.now, handler.message, held.version, result, choice.response)
      case None => Some(SetPc(state, id, lookup))
      case Some(row) =>
        Some(SetPc(state.(row := row), id, if choice.ReplyLost? then lookup else Reply(thenNormal, choice.response)))
  }

  function LookupStep(state: State, id: nat): Option<State>
    requires id in state.handlers && (state.handlers[id].pc.LookupByMessage? || state.handlers[id].pc.LookupById?)
  {
    var handler, row := state.handlers[id], state.row;
    if handler.pc.LookupByMessage? then
      var message := if handler.pc.row.message.Some? then handler.pc.row.message.value else handler.message;
      Some(SetPc(state, id,
        if row.message == Some(message) && row.response.Some? then Reply(handler.pc.thenNormal, row.response.value)
        else LookupById(handler.pc.thenNormal)))
    else if row.response.Some? then Some(SetPc(state, id, Reply(handler.pc.thenNormal, row.response.value)))
    else None
  }

  // ---------------------------------------------------------------- the whole system

  function HandlerStep(setting: Setting, state: State, id: nat, choice: Choice): Option<State>
    requires id in state.handlers
  {
    match state.handlers[id].pc
    case FindReplay => if choice == Goes then Some(FindStep(setting, state, id)) else None
    case FindOpen => if choice == Goes then Some(FindStep(setting, state, id)) else None
    case FindExpired => if choice == Goes then Some(FindStep(setting, state, id)) else None
    case Classify(_, _) => if choice.Disposes? then Some(ClassifyStep(state, id, choice.disposition)) else None
    case Claim(_, _) => if choice == Goes then ClaimStep(state, id) else None
    case Resolve(_, _) => if choice == Goes then Some(ResolveStep(setting, state, id)) else None
    case ApplyMutation(_) => ApplyStep(setting, state, id, choice)
    case Recover(_) => if choice == Goes then Some(RecoverStep(setting, state, id)) else None
    case Inspect(_) => InspectStep(setting, state, id, choice)
    case Complete(_, _, _) => CompleteStep(setting, state, id, choice)
    case LookupByMessage(_, _) => if choice == Goes then LookupStep(state, id) else None
    case LookupById(_) => if choice == Goes then LookupStep(state, id) else None
    case Finished(_) => None
  }

  function Step(setting: Setting, state: State, event: Event): Option<State> {
    match event
    case Deliver(id, message) =>
      if id in state.handlers then None
      else Some(state.(handlers := state.handlers[id := Handler(message, FindReplay)]))
    case Die(id) => Some(state.(handlers := state.handlers - {id}))
    case Advance(id, choice) => if id in state.handlers then HandlerStep(setting, state, id, choice) else None
    case OtherWrite(document) =>
      var restores := RevisionOf(document) == setting.basedOn && RevisionOf(state.memory) != setting.basedOn;
      Some(WithMemory(setting, state, document).(restorations := state.restorations + if restores then 1 else 0))
    case Wait(until) => if state.now <= until then Some(state.(now := until)) else None
  }

  predicate Initial(setting: Setting, state: State) {
    && state.row == Row(Pending, 0, None, None, None)
    && state.handlers == map[]
    && state.changes == 0 && state.restorations == 0
    && state.effectSeen == EffectIsPresent(state.memory, setting.mutation)
  }

  /** The state a run of events leads to, if every one of them was possible. */
  function After(setting: Setting, start: State, events: seq<Event>): Option<State> {
    if events == [] then Some(start)
    else
      var last := |events| - 1;
      match After(setting, start, events[..last])
      case None => None
      case Some(state) => Step(setting, state, events[last])
  }
}
