/** What the review of a Working Memory document reports
    (apps/engine/src/memory/working-memory-review.ts, working-memory-taxonomy.ts), stated over the
    set of visible entries, where order has no place. */
module WorkingMemoryReview {
  import opened Wrappers
  import opened WorkingMemoryDocument
  import opened Sorting
  import StringOrder
  import Json

  datatype Item = Item(id: EntryId, entry: Entry)

  datatype ConflictPolicy = ReplaceCandidate | ShowBoth | ManualReview

  datatype Policy = Policy(scopes: set<Scope>, conflicts: ConflictPolicy, reviewAfterDays: Option<nat>)

  function PolicyOf(kind: Kind): Policy {
    match kind
    case MemberContext => Policy({Member}, ReplaceCandidate, None)
    case CommunicationPreference => Policy({Member, Household}, ManualReview, Some(180))
    case SavingPreference => Policy({Member, Household}, ManualReview, Some(180))
    case Goal => Policy({Member, Household}, ShowBoth, Some(90))
    case Convention => Policy({Household}, ManualReview, Some(365))
    case Other => Policy({Household, Member}, ShowBoth, None)
  }

  datatype Category = Duplicate | Contradiction | ScopeMismatch | StaleEntry

  datatype Explanation =
    | IncompatibleScope(kind: Kind)
    | ReviewDue(kind: Kind)
    | SameFact
    | ManualChoice(kind: Kind)
    | Disagreement(kind: Kind, fields: seq<string>)

  datatype Finding = Finding(category: Category, ids: seq<EntryId>, explanation: Explanation, proposesDeletion: bool)

  const MAX_IDS := 10
  const MAX_FINDINGS := 50
  const DAY := 24 * 60 * 60000

  // ---------------------------------------------------------------- single entries

  predicate IsStale(entry: Entry, now: Instant) {
    entry.lifecycle.Some? &&
    var life := entry.lifecycle.value;
    var policy := PolicyOf(entry.kind);
    || (life.expiresAt.Some? && life.expiresAt.value <= now)
    || (policy.reviewAfterDays.Some? &&
        (if life.lastReviewedAt.Some? then life.lastReviewedAt.value else life.updatedAt)
          + policy.reviewAfterDays.value * DAY <= now)
  }

  function ScopeFinding(item: Item): Finding {
    Finding(ScopeMismatch, [item.id], IncompatibleScope(item.entry.kind), false)
  }

  function StaleFinding(item: Item): Finding {
    Finding(StaleEntry, [item.id], ReviewDue(item.entry.kind), false)
  }

  // ---------------------------------------------------------------- duplicates

  /** workingMemoryEntryFingerprint, the hash taken as injective. */
  datatype Fingerprint = Fingerprint(kind: Kind, scope: Scope, owner: Option<Principal>, value: Json.Json)

  function FingerprintOf(entry: Entry): Fingerprint {
    Fingerprint(entry.kind, entry.scope, entry.owner, Json.Canonical(entry.value))
  }

  /** compareEntryAge is negative. */
  predicate Older(a: Item, b: Item) {
    if a.entry.lifecycle.Some? && b.entry.lifecycle.Some?
       && a.entry.lifecycle.value.createdAt != b.entry.lifecycle.value.createdAt
    then a.entry.lifecycle.value.createdAt < b.entry.lifecycle.value.createdAt
    else StringOrder.Less(a.id, b.id)
  }

  function Ids(items: seq<Item>): (ids: seq<EntryId>)
    ensures |ids| == |items| && forall i :: 0 <= i < |items| ==> ids[i] == items[i].id
  {
    seq(|items|, i requires 0 <= i < |items| => items[i].id)
  }

  function FirstTen<T>(s: seq<T>): seq<T> {
    if |s| <= MAX_IDS then s else s[..MAX_IDS]
  }

  function DuplicateFinding(ordered: seq<Item>): Finding
    requires |ordered| >= 2
  {
    var first, second := ordered[0].entry.lifecycle, ordered[1].entry.lifecycle;
    Finding(Duplicate, Ids(FirstTen(ordered)), SameFact,
            first.Some? && second.Some? && first.value.createdAt < second.value.createdAt)
  }

  // ---------------------------------------------------------------- contradictions

  datatype Identity = Identity(kind: Kind, scope: Scope, owner: Option<Principal>)

  function IdentityOf(entry: Entry): Identity {
    Identity(entry.kind, entry.scope, entry.owner)
  }

  predicate SameCanonicalValue(a: Json.Json, b: Json.Json) {
    a == b || Json.Canonical(a) == Json.Canonical(b)
  }

  predicate DiffersAt(a: seq<Json.Member>, b: seq<Json.Member>, key: string) {
    && Json.HasKey(a, key) && Json.HasKey(b, key)
    && !SameCanonicalValue(Json.Lookup(a, key), Json.Lookup(b, key))
  }

  function DifferingKeys(all: seq<Json.Member>, a: seq<Json.Member>, b: seq<Json.Member>): seq<string> {
    if all == [] then []
    else (if DiffersAt(a, b, all[0].key) then [all[0].key] else []) + DifferingKeys(all[1..], a, b)
  }

  function DifferingFields(a: Json.Json, b: Json.Json): seq<string> {
    if a.JObject? && b.JObject? then SortBy(StringOrder.Less, DifferingKeys(a.members, a.members, b.members)) else []
  }

  predicate Contradict(a: Entry, b: Entry) {
    && IdentityOf(a) == IdentityOf(b)
    && !SameCanonicalValue(a.value, b.value)
    && (DifferingFields(a.value, b.value) != [] || PolicyOf(a.kind).conflicts == ManualReview)
  }

  function SortedPair(a: EntryId, b: EntryId): seq<EntryId> {
    if StringOrder.Less(b, a) then [b, a] else [a, b]
  }

  function ContradictionFinding(a: Item, b: Item): Finding {
    var fields := DifferingFields(a.entry.value, b.entry.value);
    Finding(Contradiction, SortedPair(a.id, b.id),
            if fields == [] then ManualChoice(a.entry.kind) else Disagreement(a.entry.kind, fields), false)
  }

  // ---------------------------------------------------------------- the findings of a set of entries

  /** Entries of one document: one for each identifier, with well-formed values, each with the
      lifecycle that decoding gives it. */
  ghost predicate Sound(items: set<Item>) {
    && (forall a, b :: a in items && b in items && a.id == b.id ==> a == b)
    && (forall a :: a in items ==> Json.WellFormed(a.entry.value) && a.entry.lifecycle.Some?)
  }

  ghost predicate IsDuplicateOf(items: set<Item>, ordered: seq<Item>, finding: Finding) {
    && |ordered| >= 2 && Ascends(Older, ordered)
    && (forall x :: x in ordered <==> x in items && FingerprintOf(x.entry) == FingerprintOf(ordered[0].entry))
    && finding == DuplicateFinding(ordered)
  }

  ghost predicate IsDuplicate(items: set<Item>, finding: Finding) {
    exists ordered :: IsDuplicateOf(items, ordered, finding)
  }

  ghost predicate IsContradictionOf(items: set<Item>, a: Item, b: Item, finding: Finding) {
    && a in items && b in items && a != b && Contradict(a.entry, b.entry)
    && finding == ContradictionFinding(a, b)
  }

  ghost predicate IsContradiction(items: set<Item>, finding: Finding) {
    exists a, b :: IsContradictionOf(items, a, b, finding)
  }

  ghost predicate IsScopeMismatch(items: set<Item>, finding: Finding) {
    exists a :: a in items && a.entry.scope !in PolicyOf(a.entry.kind).scopes && finding == ScopeFinding(a)
  }

  ghost predicate IsStaleEntry(items: set<Item>, now: Instant, finding: Finding) {
    exists a :: a in items && IsStale(a.entry, now) && finding == StaleFinding(a)
  }

  ghost predicate IsFinding(items: set<Item>, now: Instant, finding: Finding) {
    match finding.category
    case Duplicate => IsDuplicate(items, finding)
    case Contradiction => IsContradiction(items, finding)
    case ScopeMismatch => IsScopeMismatch(items, finding)
    case StaleEntry => IsStaleEntry(items, now, finding)
  }

  function Rank(category: Category): nat {
    match category
    case Duplicate => 0
    case Contradiction => 1
    case ScopeMismatch => 2
    case StaleEntry => 3
  }

  /** Identifiers all have the same length, so their joined lists compare one by one. */
  predicate IdsLess(a: seq<EntryId>, b: seq<EntryId>) {
    b != [] && (a == [] || StringOrder.Less(a[0], b[0]) || (a[0] == b[0] && IdsLess(a[1..], b[1..])))
  }

  /** compareFindings is negative. */
  predicate Before(f: Finding, g: Finding) {
    Rank(f.category) < Rank(g.category) || (f.category == g.category && IdsLess(f.ids, g.ids))
  }

  /** The first fifty findings, in order. */
  ghost predicate IsReport(items: set<Item>, now: Instant, report: seq<Finding>) {
    exists all :: IsReportOf(items, now, all, report)
  }

  ghost predicate IsReportOf(items: set<Item>, now: Instant, all: seq<Finding>, report: seq<Finding>) {
    && Ascends(Before, all)
    && (forall f :: f in all <==> IsFinding(items, now, f))
    && report == if |all| <= MAX_FINDINGS then all else all[..MAX_FINDINGS]
  }

  // ---------------------------------------------------------------- age and key order

  /** An entry without a lifecycle whose identifier lies between those of two entries with one, of
      which the entry with the smaller identifier was created later. */
  predicate ComesBetween(x: Item, n: Item, y: Item) {
    && x.entry.lifecycle.Some? && n.entry.lifecycle.None? && y.entry.lifecycle.Some?
    && StringOrder.Less(x.id, n.id) && StringOrder.Less(n.id, y.id)
    && y.entry.lifecycle.value.createdAt < x.entry.lifecycle.value.createdAt
  }

  ghost predicate SomethingComesBetween(items: set<Item>) {
    exists x, n, y :: x in items && n in items && y in items && ComesBetween(x, n, y)
  }

  // Age with the identifier as tie-break is a strict total order on the entries of a document
  // exactly if none without a lifecycle comes between two that have one.
  lemma AgeOrdersIff(items: set<Item>)
    requires forall a, b :: a in items && b in items && a.id == b.id ==> a == b
    ensures StrictOrderOn(Older, items) <==> !SomethingComesBetween(items)
  {
    if SomethingComesBetween(items) {
      var x, n, y :| x in items && n in items && y in items && ComesBetween(x, n, y);
      assert Older(x, n) && Older(n, y) && !Older(x, y);
    } else {
      forall x | x in items ensures !Older(x, x) {
        StringOrder.LessIrreflexive(x.id);
      }
      forall x, y | x in items && y in items && x != y ensures Older(x, y) || Older(y, x) {
        StringOrder.LessTotal(x.id, y.id);
      }
      forall x, y, z | x in items && y in items && z in items && Older(x, y) && Older(y, z) ensures Older(x, z) {
        AgeIsTransitive(items, x, y, z);
      }
    }
  }

  lemma AgeIsTransitive(items: set<Item>, x: Item, y: Item, z: Item)
    requires forall a, b :: a in items && b in items && a.id == b.id ==> a == b
    requires !SomethingComesBetween(items)
    requires x in items && y in items && z in items && Older(x, y) && Older(y, z)
    ensures Older(x, z)
  {
    assert !ComesBetween(x, y, z) && !ComesBetween(y, z, x) && !ComesBetween(z, x, y);
    if StringOrder.Less(x.id, y.id) && StringOrder.Less(y.id, z.id) {
      StringOrder.LessTransitive(x.id, y.id, z.id);
    } else if !StringOrder.Less(x.id, z.id) {
      StringOrder.LessTotal(x.id, z.id);
      StringOrder.LessAsymmetric(x.id, y.id);
      StringOrder.LessAsymmetric(y.id, z.id);
    }
  }

  // The documents that are reviewed satisfy this, since decoding gives every entry a lifecycle.
  lemma AgeOrders(items: set<Item>)
    requires Sound(items)
    ensures StrictOrderOn(Older, items)
  {
    AgeOrdersIff(items);
  }

  // Three entries go round in a circle exactly if one of them comes between the two others.
  lemma AgeGoesRoundIff(a: Item, b: Item, c: Item)
    ensures Older(a, b) && Older(b, c) && Older(c, a) <==>
      ComesBetween(a, b, c) || ComesBetween(b, c, a) || ComesBetween(c, a, b)
  {
    LessGoesNotRound(a.id, b.id, c.id);
    LessGoesNotRound(b.id, c.id, a.id);
    LessGoesNotRound(c.id, a.id, b.id);
  }

  lemma {:induction false} LessGoesNotRound(x: EntryId, y: EntryId, z: EntryId)
    ensures !(StringOrder.Less(x, y) && StringOrder.Less(y, z) && StringOrder.Less(z, x))
    ensures !(StringOrder.Less(x, y) && StringOrder.Less(y, x))
    ensures StringOrder.Less(x, y) && StringOrder.Less(y, z) ==> StringOrder.Less(x, z)
  {
    StringOrder.LessAsymmetric(x, y);
    if StringOrder.Less(x, y) && StringOrder.Less(y, z) {
      StringOrder.LessTransitive(x, y, z);
      StringOrder.LessAsymmetric(x, z);
    }
  }

  // Such entries exist.
  lemma AgeMayGoRound() returns (a: Item, b: Item, c: Item)
    ensures Older(a, b) && Older(b, c) && Older(c, a)
  {
    a := Item("1", Entry(Goal, "", Household, None, Json.JNull, Some(Lifecycle(2, 2, None, None))));
    b := Item("2", Entry(Goal, "", Household, None, Json.JNull, None));
    c := Item("3", Entry(Goal, "", Household, None, Json.JNull, Some(Lifecycle(1, 1, None, None))));
  }

  lemma {:induction false} IdsIrreflexive(a: seq<EntryId>)
    ensures !IdsLess(a, a)
  {
    if a != [] {
      StringOrder.LessIrreflexive(a[0]);
      IdsIrreflexive(a[1..]);
    }
  }

  lemma {:induction false} IdsTotal(a: seq<EntryId>, b: seq<EntryId>)
    ensures a == b || IdsLess(a, b) || IdsLess(b, a)
  {
    if a != [] && b != [] {
      StringOrder.LessTotal(a[0], b[0]);
      IdsTotal(a[1..], b[1..]);
      assert a == [a[0]] + a[1..] && b == [b[0]] + b[1..];
    }
  }

  lemma {:induction false} IdsTransitive(a: seq<EntryId>, b: seq<EntryId>, c: seq<EntryId>)
    requires IdsLess(a, b) && IdsLess(b, c)
    ensures IdsLess(a, c)
  {
    if a != [] {
      if StringOrder.Less(a[0], b[0]) && StringOrder.Less(b[0], c[0]) {
        StringOrder.LessTransitive(a[0], b[0], c[0]);
      } else if a[0] == b[0] && b[0] == c[0] && !StringOrder.Less(a[0], b[0]) && !StringOrder.Less(b[0], c[0]) {
        IdsTransitive(a[1..], b[1..], c[1..]);
      }
    }
  }

  // ---------------------------------------------------------------- the differing fields

  lemma {:induction false} KeysThatDiffer(all: seq<Json.Member>, a: seq<Json.Member>, b: seq<Json.Member>, key: string)
    ensures key in DifferingKeys(all, a, b) <==> Json.HasKey(all, key) && DiffersAt(a, b, key)
  {
    if all != [] {
      KeysThatDiffer(all[1..], a, b, key);
      assert Json.HasKey(all, key) <==> all[0].key == key || Json.HasKey(all[1..], key) by {
        assert all == [all[0]] + all[1..];
        if Json.HasKey(all[1..], key) {
          var i :| 0 <= i < |all[1..]| && all[1..][i].key == key;
          assert all[i + 1].key == key;
        }
        if Json.HasKey(all, key) {
          var i :| 0 <= i < |all| && all[i].key == key;
          assert i == 0 || all[1..][i - 1].key == key;
        }
      }
    }
  }

  lemma {:induction false} DifferingKeysAreDistinct(all: seq<Json.Member>, a: seq<Json.Member>, b: seq<Json.Member>)
    requires Json.DistinctKeys(all)
    ensures forall i, j :: 0 <= i < j < |DifferingKeys(all, a, b)| ==>
      DifferingKeys(all, a, b)[i] != DifferingKeys(all, a, b)[j]
  {
    if all != [] {
      DifferingKeysAreDistinct(all[1..], a, b);
      KeysThatDiffer(all[1..], a, b, all[0].key);
      assert !Json.HasKey(all[1..], all[0].key);
      var rest := DifferingKeys(all[1..], a, b);
      assert all[0].key !in rest;
      assert forall j :: 0 <= j < |rest| ==> rest[j] in rest;
    }
  }

  lemma CodeUnitOrder(keys: set<string>)
    ensures StrictOrderOn(StringOrder.Less, keys)
  {
    forall x | x in keys ensures !StringOrder.Less(x, x) {
      StringOrder.LessIrreflexive(x);
    }
    forall x, y | x in keys && y in keys && x != y ensures StringOrder.Less(x, y) || StringOrder.Less(y, x) {
      StringOrder.LessTotal(x, y);
    }
    forall x, y, z | x in keys && y in keys && z in keys && StringOrder.Less(x, y) && StringOrder.Less(y, z)
      ensures StringOrder.Less(x, z)
    {
      StringOrder.LessTransitive(x, y, z);
    }
  }

  // Which of two entries comes first makes no difference to the fields they disagree on.
  lemma {:induction false} DifferingFieldsAreSymmetric(a: Json.Json, b: Json.Json)
    requires Json.WellFormed(a) && Json.WellFormed(b)
    ensures DifferingFields(a, b) == DifferingFields(b, a)
  {
    if a.JObject? && b.JObject? {
      var x, y := DifferingKeys(a.members, a.members, b.members), DifferingKeys(b.members, b.members, a.members);
      var keys := set k | k in x + y;
      forall key ensures key in x <==> key in y {
        KeysThatDiffer(a.members, a.members, b.members, key);
        KeysThatDiffer(b.members, b.members, a.members, key);
      }
      CodeUnitOrder(keys);
      DifferingKeysAreDistinct(a.members, a.members, b.members);
      DifferingKeysAreDistinct(b.members, b.members, a.members);
      assert forall key :: key in x ==> key in x + y;
      SortAscends(StringOrder.Less, x, keys);
      SortAscends(StringOrder.Less, y, keys);
      SortKeepsElements(StringOrder.Less, x);
      SortKeepsElements(StringOrder.Less, y);
      AscendingIsUnique(StringOrder.Less, SortBy(StringOrder.Less, x), SortBy(StringOrder.Less, y), keys);
    }
  }

  lemma ContradictionIsSymmetric(a: Item, b: Item)
    requires Json.WellFormed(a.entry.value) && Json.WellFormed(b.entry.value) && a.id != b.id
    ensures Contradict(a.entry, b.entry) <==> Contradict(b.entry, a.entry)
    ensures Contradict(a.entry, b.entry) ==> ContradictionFinding(a, b) == ContradictionFinding(b, a)
  {
    DifferingFieldsAreSymmetric(a.entry.value, b.entry.value);
    StringOrder.LessTotal(a.id, b.id);
    StringOrder.LessAsymmetric(a.id, b.id);
  }
}
