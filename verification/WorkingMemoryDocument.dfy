/** The Working Memory document and its mutations
    (apps/engine/src/memory/working-memory-document.ts). */
module WorkingMemoryDocument {
  import opened Wrappers
  import Json

  type EntryId = string
  type Principal = string
  type Instant = nat

  datatype Kind = MemberContext | CommunicationPreference | SavingPreference | Goal | Convention | Other

  datatype Scope = Household | Member

  datatype Lifecycle = Lifecycle(
    createdAt: Instant,
    updatedAt: Instant,
    lastReviewedAt: Option<Instant>,
    expiresAt: Option<Instant>)

  datatype Entry = Entry(
    kind: Kind,
    summary: string,
    scope: Scope,
    owner: Option<Principal>,
    value: Json.Json,
    lifecycle: Option<Lifecycle>)

  type Document = map<EntryId, Entry>

  /** The content hash of a document, taken as injective: it is the canonical content itself. */
  datatype Revision = Revision(content: map<EntryId, Entry>)

  datatype Draft =
    | DraftCreate(basedOn: Revision, kind: Kind, summary: string, scope: Scope, value: Json.Json)
    | DraftReplace(basedOn: Revision, id: EntryId, kind: Kind, summary: string, value: Json.Json)
    | DraftDelete(basedOn: Revision, id: EntryId)
    | DraftClear(basedOn: Revision)

  datatype Mutation =
    | Create(id: EntryId, entry: Entry)
    | Replace(id: EntryId, entry: Entry)
    | Delete(id: EntryId)
    | Clear

  datatype MutationError = Invalid | RevisionConflict | NotFound | Forbidden | WriteRejected

  datatype Resolved = Resolved(mutation: Mutation, requiresConfirmation: bool)

  const MAX_ENTRIES := 50
  const MAX_BYTES := 65536

  function CanonicalEntry(entry: Entry): Entry {
    entry.(value := Json.Canonical(entry.value))
  }

  function RevisionOf(document: Document): Revision {
    Revision(map id | id in document :: CanonicalEntry(document[id]))
  }

  /** What is stored is the canonical form. */
  function Stored(document: Document): Document {
    RevisionOf(document).content
  }

  predicate ValidEntry(entry: Entry) {
    Json.WellFormed(entry.value) && (entry.scope == Member <==> entry.owner.Some?)
  }

  predicate ValidDocument(document: Document) {
    forall id :: id in document ==> ValidEntry(document[id])
  }

  /** The document's own bounds. `bytes` measures its serialized form. */
  predicate Fits(document: Document, bytes: Document -> nat) {
    |document| <= MAX_ENTRIES && bytes(document) <= MAX_BYTES
  }

  predicate CanAccess(entry: Entry, principal: Principal) {
    entry.scope == Household || entry.owner == Some(principal)
  }

  // ---------------------------------------------------------------- resolving and applying

  function Resolve(draft: Draft, document: Document, principal: Principal, freshId: EntryId)
    : Result<Resolved, MutationError>
  {
    if draft.basedOn != RevisionOf(document) then Failure(RevisionConflict)
    else match draft
      case DraftCreate(_, kind, summary, scope, value) =>
        var owner := if scope == Member then Some(principal) else None;
        Success(Resolved(Create(freshId, Entry(kind, summary, scope, owner, value, None)),
                         exists id :: id in document && CanAccess(document[id], principal)
                           && document[id].kind == kind))
      case DraftClear(_) => Success(Resolved(Clear, true))
      case DraftDelete(_, id) =>
        if id !in document then Failure(NotFound)
        else if !CanAccess(document[id], principal) then Failure(Forbidden)
        else Success(Resolved(Delete(id), true))
      case DraftReplace(_, id, kind, summary, value) =>
        if id !in document then Failure(NotFound)
        else if !CanAccess(document[id], principal) then Failure(Forbidden)
        else
          var existing := document[id];
          Success(Resolved(Replace(id, Entry(kind, summary, existing.scope, existing.owner, value, None)), true))
  }

  function LifecycleForMutation(existing: Option<Lifecycle>, now: Instant): Lifecycle {
    match existing
    case None => Lifecycle(now, now, None, None)
    case Some(life) => Lifecycle(life.createdAt, now, life.lastReviewedAt, life.expiresAt)
  }

  function WithMutationLifecycle(entry: Entry, existing: Option<Lifecycle>, now: Instant): Entry {
    entry.(lifecycle := Some(LifecycleForMutation(existing, now)))
  }

  predicate ValidMutation(mutation: Mutation) {
    (mutation.Create? || mutation.Replace?) ==> ValidEntry(mutation.entry)
  }

  /** The entries after the mutation, or why it may not be made. */
  function Edited(document: Document, mutation: Mutation, principal: Principal, now: Instant)
    : Result<Document, MutationError>
  {
    match mutation
    case Clear => Success(map[])
    case Create(id, entry) =>
      if id in document then Failure(WriteRejected)
      else if !CanAccess(entry, principal) then Failure(Forbidden)
      else Success(document[id := WithMutationLifecycle(entry, None, now)])
    case Delete(id) =>
      if id !in document then Failure(NotFound)
      else if !CanAccess(document[id], principal) then Failure(Forbidden)
      else Success(document - {id})
    case Replace(id, entry) =>
      if id !in document then Failure(NotFound)
      else if !CanAccess(document[id], principal) then Failure(Forbidden)
      else if document[id].scope != entry.scope || document[id].owner != entry.owner then Failure(Forbidden)
      else Success(document[id := WithMutationLifecycle(entry, document[id].lifecycle, now)])
  }

  function Apply(document: Document, mutation: Mutation, principal: Principal, now: Instant, bytes: Document -> nat)
    : Result<Document, MutationError>
  {
    if !ValidMutation(mutation) then Failure(Invalid)
    else match Edited(document, mutation, principal, now)
      case Failure(error) => Failure(error)
      case Success(edited) =>
        if mutation.Clear? || Fits(edited, bytes) then Success(edited) else Failure(WriteRejected)
  }

  // ---------------------------------------------------------------- read-back

  /** comparableWorkingMemoryEntry: equal but for the lifecycle, values in canonical form. */
  predicate Comparable(a: Entry, b: Entry) {
    CanonicalEntry(a.(lifecycle := None)) == CanonicalEntry(b.(lifecycle := None))
  }

  predicate VerifyReadback(before: Document, after: Document, mutation: Mutation) {
    match mutation
    case Create(id, entry) => id in after && Comparable(after[id], entry) && id !in before
    case Replace(id, entry) =>
      && id in before && !Comparable(before[id], entry)
      && id in after && Comparable(after[id], entry)
    case Delete(id) => id in before && id !in after
    case Clear => |after| == 0 && |before| > 0
  }

  predicate EffectIsPresent(document: Document, mutation: Mutation) {
    match mutation
    case Create(id, entry) => id in document && Comparable(document[id], entry)
    case Replace(id, entry) => id in document && Comparable(document[id], entry)
    case Delete(id) => id !in document
    case Clear => |document| == 0
  }

  // ---------------------------------------------------------------- properties

  predicate ValidDraft(draft: Draft) {
    (draft.DraftCreate? || draft.DraftReplace?) ==> Json.WellFormed(draft.value)
  }

  // What resolves on a document also applies to it for the same principal; only the size limits
  // or an identifier that is already taken can still reject it.
  lemma ResolvedApplies(draft: Draft, document: Document, principal: Principal, freshId: EntryId,
                        now: Instant, bytes: Document -> nat)
    requires ValidDocument(document) && ValidDraft(draft)
    requires Resolve(draft, document, principal, freshId).Success?
    ensures var mutation := Resolve(draft, document, principal, freshId).value.mutation;
      var applied := Apply(document, mutation, principal, now, bytes);
      && (applied.Failure? ==> applied.error == WriteRejected)
      && (applied.Failure? <==>
            if mutation.Create? && freshId in document then true
            else !mutation.Clear? && !Fits(Edited(document, mutation, principal, now).value, bytes))
  {
    hide RevisionOf, Fits;
    if draft.DraftReplace? {
      assert ValidEntry(document[draft.id]);
    }
  }

  // What a draft asks for is what the document holds after it has been resolved and applied: delete
  // takes that one entry away, create adds one entry of the drafted content, the principal's own if
  // it is a member's, replace puts the drafted content in the place of the old, and clear alone
  // empties the document.
  lemma DraftIsCarriedOut(draft: Draft, document: Document, principal: Principal, freshId: EntryId,
                          now: Instant, bytes: Document -> nat)
    requires Resolve(draft, document, principal, freshId).Success?
    requires Apply(document, Resolve(draft, document, principal, freshId).value.mutation, principal, now,
                   bytes).Success?
    ensures var after := Apply(document, Resolve(draft, document, principal, freshId).value.mutation, principal, now,
                               bytes).value;
      match draft
      case DraftCreate(_, kind, summary, scope, value) =>
        && freshId !in document
        && after == document[freshId := Entry(kind, summary, scope, if scope == Member then Some(principal) else None,
                                              value, Some(Lifecycle(now, now, None, None)))]
      case DraftReplace(_, id, kind, summary, value) =>
        && id in document
        && after == document[id := Entry(kind, summary, document[id].scope, document[id].owner, value,
                                         if document[id].lifecycle.None? then Some(Lifecycle(now, now, None, None))
                                         else Some(document[id].lifecycle.value.(updatedAt := now)))]
      case DraftDelete(_, id) => id in document && after == document - {id}
      case DraftClear(_) => after == map[]
  {
  }

  /** The draft names an entry that is not there. */
  predicate NamesNothing(draft: Draft, document: Document) {
    (draft.DraftReplace? || draft.DraftDelete?) && draft.id !in document
  }

  /** The draft names another member's entry. */
  predicate NamesAnothers(draft: Draft, document: Document, principal: Principal) {
    && (draft.DraftReplace? || draft.DraftDelete?) && draft.id in document
    && document[draft.id].scope == Member && document[draft.id].owner != Some(principal)
  }

  // When a draft is refused, and why: first for its revision, then for what it names.
  lemma RefusedIff(draft: Draft, document: Document, principal: Principal, freshId: EntryId)
    ensures var resolved := Resolve(draft, document, principal, freshId);
      && (resolved == Failure(RevisionConflict) <==> draft.basedOn != RevisionOf(document))
      && (resolved == Failure(NotFound) <==> draft.basedOn == RevisionOf(document) && NamesNothing(draft, document))
      && (resolved == Failure(Forbidden) <==>
            draft.basedOn == RevisionOf(document) && NamesAnothers(draft, document, principal))
      && (resolved.Failure? ==> resolved.error in {RevisionConflict, NotFound, Forbidden})
  {
  }

  // Whatever takes something away or changes it needs a confirmation; a new entry needs one exactly
  // if the principal already sees one of its kind.
  lemma ConfirmationIff(draft: Draft, document: Document, principal: Principal, freshId: EntryId)
    requires Resolve(draft, document, principal, freshId).Success?
    ensures Resolve(draft, document, principal, freshId).value.requiresConfirmation <==>
      (draft.DraftCreate? ==>
         exists id :: id in document && document[id].kind == draft.kind
                      && (document[id].scope == Household || document[id].owner == Some(principal)))
  {
  }

  /** The mutation needs an entry that is not there. */
  predicate NeedsAbsent(mutation: Mutation, document: Document) {
    (mutation.Replace? || mutation.Delete?) && mutation.id !in document
  }

  /** It is for or about another member's entry, or would give an entry another owner or scope. */
  predicate Trespasses(mutation: Mutation, document: Document, principal: Principal) {
    match mutation
    case Create(id, entry) => id !in document && entry.scope == Member && entry.owner != Some(principal)
    case Replace(id, entry) =>
      id in document && ((document[id].scope == Member && document[id].owner != Some(principal))
                         || document[id].scope != entry.scope || document[id].owner != entry.owner)
    case Delete(id) => id in document && document[id].scope == Member && document[id].owner != Some(principal)
    case Clear => false
  }

  // When a mutation is refused, and why: an entry that is no entry, then one that is not there, then
  // one out of reach, and last an identifier that is taken or a document that grows too large.
  lemma ApplyRefusedIff(document: Document, mutation: Mutation, principal: Principal, now: Instant,
                        bytes: Document -> nat)
    ensures var applied := Apply(document, mutation, principal, now, bytes);
      var invalid := (mutation.Create? || mutation.Replace?) && !ValidEntry(mutation.entry);
      && (applied == Failure(Invalid) <==> invalid)
      && (applied == Failure(NotFound) <==> !invalid && NeedsAbsent(mutation, document))
      && (applied == Failure(Forbidden) <==> !invalid && Trespasses(mutation, document, principal))
      && (applied.Failure? ==> applied.error in {Invalid, NotFound, Forbidden, WriteRejected})
    ensures var applied := Apply(document, mutation, principal, now, bytes);
      applied == Failure(WriteRejected) ==>
        || (mutation.Create? && mutation.id in document)
        || (!mutation.Clear? && var edited := Edited(document, mutation, principal, now);
              edited.Success? && (|edited.value| > 50 || bytes(edited.value) > 65536))
    ensures var applied := Apply(document, mutation, principal, now, bytes);
      applied.Success? ==>
        && !(mutation.Create? && mutation.id in document)
        && (mutation.Clear? || (|applied.value| <= 50 && bytes(applied.value) <= 65536))
  {
  }

  // Create, replace and delete leave every other entry alone; replace keeps scope, owner and the
  // time of creation; the result is a valid document again.
  lemma ApplyKeepsTheRest(document: Document, mutation: Mutation, principal: Principal, now: Instant,
                          bytes: Document -> nat)
    requires ValidDocument(document)
    requires Apply(document, mutation, principal, now, bytes).Success?
    ensures var after := Apply(document, mutation, principal, now, bytes).value;
      && ValidDocument(after)
      && (!mutation.Clear? ==> after - {mutation.id} == document - {mutation.id})
      && (mutation.Replace? ==>
            && mutation.id in after
            && after[mutation.id].scope == document[mutation.id].scope
            && after[mutation.id].owner == document[mutation.id].owner
            && (document[mutation.id].lifecycle.Some? ==>
                  after[mutation.id].lifecycle.value.createdAt == document[mutation.id].lifecycle.value.createdAt))
  {
  }

  // What is written is the proposed entry, stamped: a created entry starts its life now, a replaced
  // one is updated now and keeps its creation, review and expiry times; what was there is required
  // or forbidden as the operation says.
  lemma ApplyWritesTheEntry(document: Document, mutation: Mutation, principal: Principal, now: Instant,
                            bytes: Document -> nat)
    requires Apply(document, mutation, principal, now, bytes).Success?
    requires mutation.Create? || mutation.Replace?
    ensures var after := Apply(document, mutation, principal, now, bytes).value;
      && mutation.id in after
      && after[mutation.id].(lifecycle := None) == mutation.entry.(lifecycle := None)
      && (mutation.id in document <==> mutation.Replace?)
      && after[mutation.id].lifecycle == Some(
           if mutation.Replace? && document[mutation.id].lifecycle.Some?
           then document[mutation.id].lifecycle.value.(updatedAt := now)
           else Lifecycle(now, now, None, None))
  {
  }

  // An entry the principal may not access survives every mutation except `clear`, which erases
  // the entries of all members.
  lemma OnlyClearTouchesOthers(document: Document, mutation: Mutation, principal: Principal, now: Instant,
                               bytes: Document -> nat, other: EntryId)
    requires Apply(document, mutation, principal, now, bytes).Success?
    requires other in document && !CanAccess(document[other], principal)
    ensures var after := Apply(document, mutation, principal, now, bytes).value;
      (other in after && after[other] == document[other]) <==> !mutation.Clear?
  {
  }

  // The effect of a mutation that applied is visible in the document it produced.
  lemma AppliedEffectIsPresent(document: Document, mutation: Mutation, principal: Principal, now: Instant,
                               bytes: Document -> nat)
    requires Apply(document, mutation, principal, now, bytes).Success?
    ensures EffectIsPresent(Apply(document, mutation, principal, now, bytes).value, mutation)
  {
  }

  // For a mutation that applies to `before`, read-back accepts exactly those documents in which
  // its effect is present, provided it was not there already.
  lemma ReadbackSeesTheChange(before: Document, after: Document, mutation: Mutation, principal: Principal,
                              now: Instant, bytes: Document -> nat)
    requires Apply(before, mutation, principal, now, bytes).Success?
    ensures VerifyReadback(before, after, mutation)
      <==> EffectIsPresent(after, mutation) && !EffectIsPresent(before, mutation)
  {
  }

  // So an undisturbed write passes read-back unless it is a replacement by equal content or the
  // clearing of an empty document.
  lemma ReadbackFailsOnlyOnNoChange(before: Document, mutation: Mutation, principal: Principal, now: Instant,
                                    bytes: Document -> nat)
    requires ValidDocument(before) && Apply(before, mutation, principal, now, bytes).Success?
    ensures !VerifyReadback(before, Apply(before, mutation, principal, now, bytes).value, mutation) <==>
      || (mutation.Clear? && before == map[])
      || (mutation.Replace?
          && before[mutation.id].kind == mutation.entry.kind
          && before[mutation.id].summary == mutation.entry.summary
          && Json.Same(before[mutation.id].value, mutation.entry.value))
  {
    AppliedEffectIsPresent(before, mutation, principal, now, bytes);
    ReadbackSeesTheChange(before, Apply(before, mutation, principal, now, bytes).value, mutation, principal, now,
                          bytes);
    if mutation.Replace? {
      assert ValidEntry(before[mutation.id]);
      Json.CanonicalDecidesEquality(before[mutation.id].value, mutation.entry.value);
    }
  }

  // ---------------------------------------------------------------- decoding what is stored

  /** The flexible form: entries stored without a lifecycle are given one. */
  function WithLifecycles(document: Document, now: Instant): Document {
    map id | id in document ::
      if document[id].lifecycle.Some? then document[id]
      else document[id].(lifecycle := Some(Lifecycle(now, now, None, None)))
  }

  predicate Migrated(document: Document) {
    exists id :: id in document && document[id].lifecycle.None?
  }

  // Decoding adds nothing but lifecycles, reports a migration exactly when it changed something,
  // and finds nothing left to migrate in its own result.
  lemma DecodingSettles(document: Document, now: Instant, later: Instant)
    ensures var decoded := WithLifecycles(document, now);
      && decoded.Keys == document.Keys
      && (forall id :: id in document ==> Comparable(decoded[id], document[id]))
      && (Migrated(document) <==> decoded != document)
      && !Migrated(decoded)
      && WithLifecycles(decoded, later) == decoded
  {
    var decoded := WithLifecycles(document, now);
    if Migrated(document) {
      var id :| id in document && document[id].lifecycle.None?;
      assert decoded[id].lifecycle.Some?;
    } else {
      assert decoded == document;
    }
  }

  // ---------------------------------------------------------------- the legacy form

  datatype LegacyGoal = LegacyGoal(summary: string, value: Json.Json)

  datatype LegacyConvention = LegacyConvention(key: string, convention: string)

  datatype LegacyMember = LegacyMember(
    owner: Principal,
    preferredName: Option<string>,
    nickname: Option<string>,
    value: Json.Json)

  /** A stored object that is not of the flexible form: its known fields, in the order of their keys,
      and whatever else it holds. */
  datatype Legacy = Legacy(
    goals: seq<LegacyGoal>,
    savingPreferences: Option<Json.Json>,
    communication: Option<Json.Json>,
    conventions: seq<LegacyConvention>,
    members: seq<LegacyMember>,
    unknown: seq<Json.Member>)

  ghost predicate ValidLegacy(legacy: Legacy) {
    && (forall goal :: goal in legacy.goals ==> Json.WellFormed(goal.value))
    && (legacy.savingPreferences.Some? ==> Json.WellFormed(legacy.savingPreferences.value))
    && (legacy.communication.Some? ==> Json.WellFormed(legacy.communication.value))
    && (forall member :: member in legacy.members ==> Json.WellFormed(member.value))
    && Json.WellFormed(Json.JObject(legacy.unknown))
  }

  function HouseholdFact(kind: Kind, summary: string, value: Json.Json, now: Instant): Entry {
    Entry(kind, summary, Household, None, value, Some(Lifecycle(now, now, None, None)))
  }

  function MemberFact(member: LegacyMember, now: Instant): Entry {
    var summary := if member.preferredName.Some? then member.preferredName.value
                   else if member.nickname.Some? then member.nickname.value
                   else "Member " + member.owner;
    Entry(MemberContext, summary, Member, Some(member.owner), member.value, Some(Lifecycle(now, now, None, None)))
  }

  function OptionalFact(kind: Kind, summary: string, value: Option<Json.Json>, now: Instant): seq<Entry> {
    if value.Some? then [HouseholdFact(kind, summary, value.value, now)] else []
  }

  function ConventionFact(convention: LegacyConvention, now: Instant): Entry {
    var value := Json.JObject([Json.Member("key", Json.JString(convention.key)),
                               Json.Member("convention", Json.JString(convention.convention))]);
    HouseholdFact(Convention, convention.convention, value, now)
  }

  /** The facts of the known fields. */
  function KnownFacts(legacy: Legacy, now: Instant): seq<Entry> {
    seq(|legacy.goals|, i requires 0 <= i < |legacy.goals| =>
      HouseholdFact(Goal, legacy.goals[i].summary, legacy.goals[i].value, now))
    + OptionalFact(SavingPreference, "Saving preferences", legacy.savingPreferences, now)
    + OptionalFact(CommunicationPreference, "Communication preferences", legacy.communication, now)
    + seq(|legacy.conventions|, i requires 0 <= i < |legacy.conventions| => ConventionFact(legacy.conventions[i], now))
    + seq(|legacy.members|, i requires 0 <= i < |legacy.members| => MemberFact(legacy.members[i], now))
  }

  /** ... and the one that gathers what else there is. */
  function LegacyFacts(legacy: Legacy, now: Instant): seq<Entry> {
    KnownFacts(legacy, now) +
    if legacy.unknown == [] then []
    else [HouseholdFact(Other, "Legacy working memory", Json.JObject(legacy.unknown), now)]
  }

  // Every fact is a valid entry with a lifecycle, and exactly those of the members are theirs alone:
  // the facts a principal does not see are the facts of other members.
  lemma LegacyFactsAreOwned(legacy: Legacy, now: Instant)
    requires ValidLegacy(legacy)
    ensures forall fact :: fact in LegacyFacts(legacy, now) ==> ValidEntry(fact) && fact.lifecycle.Some?
    ensures forall fact, principal :: fact in LegacyFacts(legacy, now) ==>
      (!CanAccess(fact, principal) <==>
         exists member :: member in legacy.members && member.owner != principal && fact == MemberFact(member, now))
  {
    forall fact | fact in LegacyFacts(legacy, now)
      ensures ValidEntry(fact) && fact.lifecycle.Some?
      ensures fact.scope == Member ==> exists member :: member in legacy.members && fact == MemberFact(member, now)
    {
      forall convention: LegacyConvention
        ensures ValidEntry(ConventionFact(convention, now))
      {
      }
    }
  }

  /** Which field a fact stands for, and with what content. */
  ghost predicate StandsFor(legacy: Legacy, fact: Entry) {
    match fact.kind
    case Goal => LegacyGoal(fact.summary, fact.value) in legacy.goals
    case SavingPreference => legacy.savingPreferences == Some(fact.value)
    case CommunicationPreference => legacy.communication == Some(fact.value)
    case Convention =>
      exists key :: LegacyConvention(key, fact.summary) in legacy.conventions
        && fact.value == Json.JObject([Json.Member("key", Json.JString(key)),
                                       Json.Member("convention", Json.JString(fact.summary))])
    case MemberContext =>
      exists member :: member in legacy.members && fact.owner == Some(member.owner) && fact.value == member.value
        && (member.preferredName.Some? ==> fact.summary == member.preferredName.value)
        && (member.preferredName.None? && member.nickname.Some? ==> fact.summary == member.nickname.value)
        && (member.preferredName.None? && member.nickname.None? ==> fact.summary == "Member " + member.owner)
    case Other => legacy.unknown != [] && fact.value == Json.JObject(legacy.unknown)
  }

  // Every fact stands for the field of its kind, and none is missing: there are as many as fields.
  lemma LegacyFactsStandForFields(legacy: Legacy, now: Instant)
    ensures forall fact :: fact in LegacyFacts(legacy, now) ==> StandsFor(legacy, fact)
    ensures |LegacyFacts(legacy, now)| == |legacy.goals| + |legacy.conventions| + |legacy.members|
      + (if legacy.savingPreferences.Some? then 1 else 0) + (if legacy.communication.Some? then 1 else 0)
      + (if legacy.unknown != [] then 1 else 0)
    ensures forall goal :: goal in legacy.goals ==>
      HouseholdFact(Goal, goal.summary, goal.value, now) in LegacyFacts(legacy, now)
    ensures forall member :: member in legacy.members ==> MemberFact(member, now) in LegacyFacts(legacy, now)
    ensures forall convention :: convention in legacy.conventions ==>
      ConventionFact(convention, now) in LegacyFacts(legacy, now)
  {
    var goals := seq(|legacy.goals|, i requires 0 <= i < |legacy.goals| =>
      HouseholdFact(Goal, legacy.goals[i].summary, legacy.goals[i].value, now));
    var conventions := seq(|legacy.conventions|, i requires 0 <= i < |legacy.conventions| =>
      ConventionFact(legacy.conventions[i], now));
    var members := seq(|legacy.members|, i requires 0 <= i < |legacy.members| => MemberFact(legacy.members[i], now));
    forall i | 0 <= i < |legacy.goals| ensures StandsFor(legacy, goals[i]) && goals[i] in LegacyFacts(legacy, now) {
      assert LegacyGoal(goals[i].summary, goals[i].value) == legacy.goals[i];
    }
    forall i | 0 <= i < |legacy.conventions|
      ensures StandsFor(legacy, conventions[i]) && conventions[i] in LegacyFacts(legacy, now)
    {
      assert LegacyConvention(legacy.conventions[i].key, conventions[i].summary) == legacy.conventions[i];
    }
    forall i | 0 <= i < |legacy.members|
      ensures StandsFor(legacy, members[i]) && members[i] in LegacyFacts(legacy, now)
    {
      assert legacy.members[i] in legacy.members;
    }
    forall goal | goal in legacy.goals
      ensures HouseholdFact(Goal, goal.summary, goal.value, now) in LegacyFacts(legacy, now)
    {
      var i :| 0 <= i < |legacy.goals| && legacy.goals[i] == goal;
      assert goals[i] in LegacyFacts(legacy, now);
    }
    forall member | member in legacy.members
      ensures MemberFact(member, now) in LegacyFacts(legacy, now)
    {
      var i :| 0 <= i < |legacy.members| && legacy.members[i] == member;
      assert members[i] in LegacyFacts(legacy, now);
    }
    forall convention | convention in legacy.conventions
      ensures ConventionFact(convention, now) in LegacyFacts(legacy, now)
    {
      var i :| 0 <= i < |legacy.conventions| && legacy.conventions[i] == convention;
      assert conventions[i] in LegacyFacts(legacy, now);
    }
  }

  /** The document holds these facts, each under an identifier of its own, and nothing else. */
  ghost predicate Holds(document: Document, allotted: seq<EntryId>, facts: seq<Entry>) {
    && |document| == |allotted| == |facts|
    && (forall id :: id in document <==> id in allotted)
    && forall i :: 0 <= i < |facts| ==> document[allotted[i]] == facts[i]
  }

  lemma HoldsOneMore(document: Document, allotted: seq<EntryId>, facts: seq<Entry>, id: EntryId, fact: Entry)
    requires Holds(document, allotted, facts) && id !in document
    ensures Holds(document[id := fact], allotted + [id], facts + [fact])
  {
  }

  /** Of the generated `ids` only `rest` is left to be looked at; new entries have identifiers of them. */
  ghost predicate Drawn(start: Document, document: Document, ids: seq<EntryId>, rest: seq<EntryId>) {
    && start.Keys <= document.Keys
    && (forall id :: id in document ==> id in start || id in ids)
    && (forall id :: id in ids ==> id in document || id in rest)
    && (forall id :: id in rest ==> id in ids)
  }

  lemma DrawnFurther(start: Document, middle: Document, end: Document, ids: seq<EntryId>, left: seq<EntryId>,
                     rest: seq<EntryId>)
    requires Drawn(start, middle, ids, left) && Drawn(middle, end, left, rest)
    ensures Drawn(start, end, ids, rest)
  {
  }

  // The first identifier that is not taken yet. `ids` is what the generator yields; it may repeat itself.
  method NextEntryId(document: Document, ids: seq<EntryId>) returns (next: nat)
    ensures next <= |ids|
    ensures forall i :: 0 <= i < next ==> ids[i] in document
    ensures next < |ids| ==> ids[next] !in document
  {
    next := 0;
    while next < |ids| && ids[next] in document
      invariant next <= |ids|
      invariant forall i :: 0 <= i < next ==> ids[i] in document
    {
      next := next + 1;
    }
  }

  // addEntry, once for each fact, as long as the generator has an identifier that is not taken.
  method AddEntries(start: Document, taken: seq<EntryId>, ghost before: seq<Entry>, facts: seq<Entry>,
                    ids: seq<EntryId>)
    returns (document: Document, allotted: seq<EntryId>, rest: seq<EntryId>, exhausted: bool)
    requires Holds(start, taken, before)
    ensures !exhausted ==> Holds(document, allotted, before + facts)
    ensures exhausted ==> rest == [] && |document| < |before| + |facts|
    ensures Drawn(start, document, ids, rest)
  {
    hide Holds, Drawn;
    document, allotted, rest, exhausted := start, taken, ids, false;
    assert before + facts[..0] == before;
    NothingDrawn(start, ids);
    for f := 0 to |facts|
      invariant !exhausted
      invariant Holds(document, allotted, before + facts[..f])
      invariant Drawn(start, document, ids, rest)
    {
      ghost var left, middle := rest, document;
      var next := NextEntryId(document, rest);
      if next == |rest| {
        NoneIsLeft(document, allotted, before + facts[..f], rest);
        DrawnFurther(start, document, document, ids, rest, []);
        rest, exhausted := [], true;
        return;
      }
      HoldsOneMore(document, allotted, before + facts[..f], rest[next], facts[f]);
      OneIsDrawn(document, rest, next, facts[f]);
      document, allotted := document[rest[next] := facts[f]], allotted + [rest[next]];
      rest := rest[next + 1..];
      DrawnFurther(start, middle, document, ids, left, rest);
      assert before + facts[..f + 1] == before + facts[..f] + [facts[f]];
    }
    assert facts[..|facts|] == facts;
  }

  lemma NothingDrawn(start: Document, ids: seq<EntryId>)
    ensures Drawn(start, start, ids, ids)
  {
  }

  lemma NoneIsLeft(document: Document, allotted: seq<EntryId>, facts: seq<Entry>, rest: seq<EntryId>)
    requires Holds(document, allotted, facts)
    requires forall i :: 0 <= i < |rest| ==> rest[i] in document
    ensures |document| == |facts| && Drawn(document, document, rest, [])
  {
  }

  lemma OneIsDrawn(document: Document, rest: seq<EntryId>, next: nat, fact: Entry)
    requires next < |rest| && forall i :: 0 <= i < next ==> rest[i] in document
    ensures Drawn(document, document[rest[next] := fact], rest, rest[next + 1..])
  {
    forall id | id in rest
      ensures id in document[rest[next] := fact] || id in rest[next + 1..]
    {
      var i :| 0 <= i < |rest| && rest[i] == id;
      if next < i {
        assert rest[next + 1..][i - next - 1] == id;
      }
    }
  }

  /** What the document is made of: the unknown fields are left out if they are not acceptable. */
  function DecodedFacts(legacy: Legacy, now: Instant, accepts: Json.Json -> bool): seq<Entry> {
    if legacy.unknown == [] || accepts(Json.JObject(legacy.unknown)) then LegacyFacts(legacy, now)
    else KnownFacts(legacy, now)
  }

  // Decoding succeeds exactly if what is not known is an acceptable value and the whole document
  // keeps its bounds; it then holds every fact once, under an identifier of its own. It does not end
  // only if the generator never yields enough different identifiers.
  method DecodeLegacy(legacy: Legacy, now: Instant, ids: seq<EntryId>, accepts: Json.Json -> bool,
                      bytes: Document -> nat)
    returns (decoded: Option<Document>, document: Document, allotted: seq<EntryId>, exhausted: bool)
    ensures !exhausted ==>
      && (decoded.Some? <==>
            (legacy.unknown == [] || accepts(Json.JObject(legacy.unknown))) && Fits(document, bytes))
      && (decoded.Some? ==> decoded.value == document)
      && Holds(document, allotted, DecodedFacts(legacy, now, accepts))
    ensures exhausted ==>
      && decoded.None? && |document| < |LegacyFacts(legacy, now)|
      && forall id :: id in ids ==> id in document
    ensures forall id :: id in document ==> id in ids
  {
    hide KnownFacts, Fits;
    var known := KnownFacts(legacy, now);
    var rest;
    decoded := None;
    document, allotted, rest, exhausted := AddEntries(map[], [], [], known, ids);
    assert [] + known == known;
    assert known + [] == known;
    if !exhausted && legacy.unknown != [] && accepts(Json.JObject(legacy.unknown)) {
      var other := HouseholdFact(Other, "Legacy working memory", Json.JObject(legacy.unknown), now);
      ghost var middle, left := document, rest;
      document, allotted, rest, exhausted := AddEntries(document, allotted, known, [other], rest);
      DrawnFurther(map[], middle, document, ids, left, rest);
    }
    if !exhausted && (legacy.unknown == [] || accepts(Json.JObject(legacy.unknown))) && Fits(document, bytes) {
      decoded := Some(document);
    }
  }
}
