/** What a finding of the review means for the entries it names, in the terms of the taxonomy. */
module ReviewFindings {
  import opened Wrappers
  import opened WorkingMemoryDocument
  import opened WorkingMemoryReview
  import opened Sorting
  import StringOrder
  import Json

  // ---------------------------------------------------------------- scope and staleness

  // An entry is reported for its scope exactly if it is a member's context kept for the household, or
  // a convention kept for one member.
  lemma ScopeMismatchIff(items: set<Item>, item: Item)
    requires Sound(items) && item in items
    ensures IsScopeMismatch(items, Finding(ScopeMismatch, [item.id], IncompatibleScope(item.entry.kind), false)) <==>
      || (item.entry.kind == MemberContext && item.entry.scope == Household)
      || (item.entry.kind == Convention && item.entry.scope == Member)
  {
    var finding := Finding(ScopeMismatch, [item.id], IncompatibleScope(item.entry.kind), false);
    assert forall a :: a in items && finding == ScopeFinding(a) ==> finding.ids[0] == a.id;
    assert finding == ScopeFinding(item);
    assert item.entry.scope !in PolicyOf(item.entry.kind).scopes <==>
        (item.entry.kind == MemberContext && item.entry.scope == Household)
        || (item.entry.kind == Convention && item.entry.scope == Member) by {
      match (item.entry.kind, item.entry.scope)
      case (MemberContext, _) =>
      case (Convention, _) =>
      case (_, Household) =>
      case (_, Member) =>
    }
  }

  /** After how many days an entry of this kind is due again; none means never. */
  ghost function DaysToReview(kind: Kind): Option<nat> {
    if kind == Goal then Some(90)
    else if kind == CommunicationPreference || kind == SavingPreference then Some(180)
    else if kind == Convention then Some(365)
    else None
  }

  const MILLISECONDS_A_DAY := 86400000

  /** Its own expiry has come, or so many days have gone by since it was last reviewed, or since it was
      updated if it never was. */
  ghost predicate Due(entry: Entry, now: Instant) {
    match entry.lifecycle
    case None => false
    case Some(life) =>
      || (life.expiresAt.Some? && now >= life.expiresAt.value)
      || (DaysToReview(entry.kind).Some?
          && var since := if life.lastReviewedAt.None? then life.updatedAt else life.lastReviewedAt.value;
             now - since >= DaysToReview(entry.kind).value * MILLISECONDS_A_DAY)
  }

  lemma StaleIff(items: set<Item>, now: Instant, item: Item)
    requires Sound(items) && item in items
    ensures IsStaleEntry(items, now, Finding(StaleEntry, [item.id], ReviewDue(item.entry.kind), false)) <==>
      Due(item.entry, now)
  {
    var finding := Finding(StaleEntry, [item.id], ReviewDue(item.entry.kind), false);
    assert forall a :: a in items && finding == StaleFinding(a) ==> finding.ids[0] == a.id;
    assert finding == StaleFinding(item);
    assert IsStale(item.entry, now) <==> Due(item.entry, now);
  }

  // ---------------------------------------------------------------- duplicates

  // Entries count as the same fact exactly if kind, scope and owner agree and their values are equal
  // as JSON values.
  lemma SameFactIff(a: Entry, b: Entry)
    requires Json.WellFormed(a.value) && Json.WellFormed(b.value)
    ensures FingerprintOf(a) == FingerprintOf(b) <==>
      a.kind == b.kind && a.scope == b.scope && a.owner == b.owner && Json.Same(a.value, b.value)
  {
    Json.CanonicalDecidesEquality(a.value, b.value);
  }

  function CreatedAt(item: Item): Instant
    requires item.entry.lifecycle.Some?
  {
    item.entry.lifecycle.value.createdAt
  }

  // A finding of duplicates names the ten oldest, oldest first, and proposes to delete exactly if the
  // oldest was created before all others.
  lemma DuplicateSays(items: set<Item>, ordered: seq<Item>, finding: Finding)
    requires Sound(items) && IsDuplicateOf(items, ordered, finding)
    ensures finding.category == Duplicate && finding.explanation == SameFact
    ensures |finding.ids| == (if |ordered| < 10 then |ordered| else 10)
    ensures forall i :: 0 <= i < |finding.ids| ==> finding.ids[i] == ordered[i].id
    ensures forall i, j :: 0 <= i < j < |ordered| ==>
      ordered[i] in items && ordered[j] in items && CreatedAt(ordered[i]) <= CreatedAt(ordered[j])
    ensures finding.proposesDeletion <==>
      forall j :: 1 <= j < |ordered| ==> ordered[0] in items && ordered[j] in items
                                         && CreatedAt(ordered[0]) < CreatedAt(ordered[j])
  {
    hide FingerprintOf;
    assert forall i :: 0 <= i < |ordered| ==> ordered[i] in ordered;
    forall i, j | 0 <= i < j < |ordered|
      ensures CreatedAt(ordered[i]) <= CreatedAt(ordered[j])
    {
      assert Older(ordered[i], ordered[j]);
    }
    assert CreatedAt(ordered[0]) <= CreatedAt(ordered[1]);
  }

  // ---------------------------------------------------------------- contradictions

  /** Both values are objects with this field, and they disagree on it. */
  ghost predicate DisagreeOn(a: Json.Json, b: Json.Json, key: string) {
    && a.JObject? && b.JObject? && Json.HasKey(a.members, key) && Json.HasKey(b.members, key)
    && !Json.Same(Json.Lookup(a.members, key), Json.Lookup(b.members, key))
  }

  lemma LookupIsWellFormed(members: seq<Json.Member>, key: string)
    requires Json.WellFormed(Json.JObject(members)) && Json.HasKey(members, key)
    ensures Json.WellFormed(Json.Lookup(members, key))
  {
    var value := Json.Lookup(members, key);
    assert Json.Member(key, value) in members;
    var i :| 0 <= i < |members| && members[i] == Json.Member(key, value);
    assert Json.WellFormed(members[i].value);
  }

  // The fields that are named are exactly those the two disagree on, in order.
  lemma FieldsAreTheDisagreements(a: Json.Json, b: Json.Json)
    requires Json.WellFormed(a) && Json.WellFormed(b)
    ensures forall key :: key in DifferingFields(a, b) <==> DisagreeOn(a, b, key)
    ensures Ascends(StringOrder.Less, DifferingFields(a, b))
  {
    if a.JObject? && b.JObject? {
      var keys := DifferingKeys(a.members, a.members, b.members);
      forall key ensures key in keys <==> DisagreeOn(a, b, key) {
        KeysThatDiffer(a.members, a.members, b.members, key);
        if Json.HasKey(a.members, key) && Json.HasKey(b.members, key) {
          LookupIsWellFormed(a.members, key);
          LookupIsWellFormed(b.members, key);
          SameCanonicalIff(Json.Lookup(a.members, key), Json.Lookup(b.members, key));
        }
      }
      DifferingKeysAreDistinct(a.members, a.members, b.members);
      var elements := set key | key in keys;
      CodeUnitOrder(elements);
      SortAscends(StringOrder.Less, keys, elements);
      SortKeepsElements(StringOrder.Less, keys);
    }
  }

  lemma SameCanonicalIff(a: Json.Json, b: Json.Json)
    requires Json.WellFormed(a) && Json.WellFormed(b)
    ensures SameCanonicalValue(a, b) <==> Json.Same(a, b)
  {
    Json.CanonicalDecidesEquality(a, b);
  }

  // Two entries of the same kind, scope and owner contradict each other exactly if their values are
  // not equal and they disagree on a field they share, or their kind allows one value only.
  lemma ContradictIff(a: Entry, b: Entry)
    requires Json.WellFormed(a.value) && Json.WellFormed(b.value)
    ensures Contradict(a, b) <==>
      && a.kind == b.kind && a.scope == b.scope && a.owner == b.owner
      && !Json.Same(a.value, b.value)
      && ((exists key :: DisagreeOn(a.value, b.value, key))
          || a.kind in {CommunicationPreference, SavingPreference, Convention})
  {
    hide DisagreeOn, DifferingFields;
    SameCanonicalIff(a.value, b.value);
    FieldsAreTheDisagreements(a.value, b.value);
    var fields := DifferingFields(a.value, b.value);
    if fields != [] {
      assert fields[0] in fields;
      assert DisagreeOn(a.value, b.value, fields[0]);
    }
  }

  // A finding of a contradiction names both entries, the smaller identifier first, proposes nothing,
  // and says what they disagree on, or that a choice must be made if there is no such field.
  lemma ContradictionSays(a: Item, b: Item)
    requires Json.WellFormed(a.entry.value) && Json.WellFormed(b.entry.value) && StringOrder.Less(a.id, b.id)
    ensures ContradictionFinding(a, b).ids == ContradictionFinding(b, a).ids == [a.id, b.id]
    ensures var finding := ContradictionFinding(a, b);
      && finding.category == Contradiction && !finding.proposesDeletion
      && match finding.explanation
         case Disagreement(kind, fields) =>
           && kind == a.entry.kind && fields != [] && Ascends(StringOrder.Less, fields)
           && forall key :: key in fields <==> DisagreeOn(a.entry.value, b.entry.value, key)
         case ManualChoice(kind) =>
           kind == a.entry.kind && !exists key :: DisagreeOn(a.entry.value, b.entry.value, key)
         case _ => false
  {
    hide DisagreeOn, DifferingFields;
    StringOrder.LessAsymmetric(a.id, b.id);
    FieldsAreTheDisagreements(a.entry.value, b.entry.value);
  }

  // ---------------------------------------------------------------- order

  // Duplicates come first, then contradictions, then scopes, then what is due, whatever they name.
  lemma CategoriesInOrder(f: Finding, g: Finding)
    requires f.category != g.category
    ensures Before(f, g) <==>
      || f.category == Duplicate
      || (f.category == Contradiction && g.category != Duplicate)
      || (f.category == ScopeMismatch && g.category == StaleEntry)
  {
  }
}
