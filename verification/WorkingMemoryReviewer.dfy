/** The review itself: loops over the entries in the order they are stored, and the proof that the
    report says what WorkingMemoryReview specifies, whatever that order
    (apps/engine/src/memory/working-memory-review.ts, line 25). */
module WorkingMemoryReviewer {
  import opened Wrappers
  import opened WorkingMemoryDocument
  import opened WorkingMemoryReview
  import opened Sorting
  import StringOrder
  import Json

  ghost function Elements<T(!new)>(s: seq<T>): set<T> {
    set x | x in s
  }

  ghost predicate Distinct<T>(s: seq<T>) {
    forall i, j :: 0 <= i < j < |s| ==> s[i] != s[j]
  }

  // ---------------------------------------------------------------- the report is determined

  lemma SameGroupSameOrder(items: set<Item>, ordered: seq<Item>, other: seq<Item>, f: Finding, g: Finding)
    requires Sound(items) && IsDuplicateOf(items, ordered, f) && IsDuplicateOf(items, other, g)
    requires FingerprintOf(ordered[0].entry) == FingerprintOf(other[0].entry)
    ensures ordered == other && f == g
  {
    hide FingerprintOf, Older, DuplicateFinding;
    AgeOrders(items);
    AscendingIsUnique(Older, ordered, other, items);
  }

  lemma DuplicateByIds(items: set<Item>, f: Finding, g: Finding)
    requires Sound(items) && IsDuplicate(items, f) && IsDuplicate(items, g) && f.ids == g.ids
    ensures f == g
  {
    hide Older, FingerprintOf;
    var ordered: seq<Item> :| IsDuplicateOf(items, ordered, f);
    var other: seq<Item> :| IsDuplicateOf(items, other, g);
    assert ordered[0] in ordered && other[0] in other;
    assert f.ids[0] == ordered[0].id && g.ids[0] == other[0].id;
    SameGroupSameOrder(items, ordered, other, f, g);
  }

  lemma PairByIds(a: EntryId, b: EntryId, c: EntryId, d: EntryId)
    requires SortedPair(a, b) == SortedPair(c, d)
    ensures (a == c && b == d) || (a == d && b == c)
  {
    assert SortedPair(a, b)[0] == SortedPair(c, d)[0] && SortedPair(a, b)[1] == SortedPair(c, d)[1];
  }

  lemma ContradictionByIds(items: set<Item>, f: Finding, g: Finding)
    requires Sound(items) && IsContradiction(items, f) && IsContradiction(items, g) && f.ids == g.ids
    ensures f == g
  {
    hide Contradict, SortedPair;
    var a, b :| IsContradictionOf(items, a, b, f);
    var c, d :| IsContradictionOf(items, c, d, g);
    PairByIds(a.id, b.id, c.id, d.id);
    ContradictionIsSymmetric(a, b);
  }

  lemma OneOfScope(items: set<Item>, now: Instant, f: Finding, g: Finding)
    requires Sound(items) && IsScopeMismatch(items, f) && IsScopeMismatch(items, g) && f.ids == g.ids
    ensures f == g
  {
    hide IsStale;
    var a: Item :| a in items && f == ScopeFinding(a);
    var b: Item :| b in items && g == ScopeFinding(b);
    assert ScopeFinding(a).ids == [a.id] && ScopeFinding(b).ids == [b.id];
    assert a.id == f.ids[0] == b.id;
  }

  lemma OneOfStale(items: set<Item>, now: Instant, f: Finding, g: Finding)
    requires Sound(items) && IsStaleEntry(items, now, f) && IsStaleEntry(items, now, g) && f.ids == g.ids
    ensures f == g
  {
    hide IsStale;
    var a: Item :| a in items && f == StaleFinding(a);
    var b: Item :| b in items && g == StaleFinding(b);
    assert StaleFinding(a).ids == [a.id] && StaleFinding(b).ids == [b.id];
    assert a.id == f.ids[0] == b.id;
  }

  // Category and identifiers determine a finding, so the order of findings is total.
  lemma KeyDetermines(items: set<Item>, now: Instant, f: Finding, g: Finding)
    requires Sound(items) && IsFinding(items, now, f) && IsFinding(items, now, g)
    requires f.category == g.category && f.ids == g.ids
    ensures f == g
  {
    hide IsDuplicate, IsContradiction, IsScopeMismatch, IsStaleEntry, Sound;
    match f.category
    case Duplicate => DuplicateByIds(items, f, g);
    case Contradiction => ContradictionByIds(items, f, g);
    case ScopeMismatch =>
      OneOfScope(items, now, f, g);
    case StaleEntry =>
      OneOfStale(items, now, f, g);
  }

  lemma FindingsAreOrdered(items: set<Item>, now: Instant, findings: set<Finding>)
    requires Sound(items) && forall f :: f in findings ==> IsFinding(items, now, f)
    ensures StrictOrderOn(Before, findings)
  {
    hide IsFinding, Sound;
    forall f | f in findings ensures !Before(f, f) {
      IdsIrreflexive(f.ids);
    }
    forall f, g | f in findings && g in findings && f != g ensures Before(f, g) || Before(g, f) {
      if f.category == g.category {
        IdsTotal(f.ids, g.ids);
        if f.ids == g.ids {
          KeyDetermines(items, now, f, g);
        }
      }
    }
    forall f, g, h | f in findings && g in findings && h in findings && Before(f, g) && Before(g, h)
      ensures Before(f, h)
    {
      if f.category == g.category == h.category {
        IdsTransitive(f.ids, g.ids, h.ids);
      }
    }
  }

  // The report is determined by the set of visible entries: it does not depend on the order in
  // which they are stored.
  lemma ReportIgnoresEntryOrder(items: set<Item>, now: Instant, report: seq<Finding>, other: seq<Finding>)
    requires Sound(items) && IsReport(items, now, report) && IsReport(items, now, other)
    ensures report == other
  {
    hide IsFinding, Sound, Before;
    var all :| IsReportOf(items, now, all, report);
    var more :| IsReportOf(items, now, more, other);
    FindingsAreOrdered(items, now, Elements(all));
    assert forall f :: f in all <==> f in more;
    AscendingIsUnique(Before, all, more, Elements(all));
  }

  // Every identifier in a finding is that of a visible entry.
  lemma FindingsMentionOnlyVisible(items: set<Item>, now: Instant, finding: Finding, id: EntryId)
    requires IsFinding(items, now, finding) && id in finding.ids
    ensures exists a :: a in items && a.id == id
  {
    hide Older, Contradict, DifferingFields, IsStale;
    var k :| 0 <= k < |finding.ids| && finding.ids[k] == id;
    match finding.category
    case Duplicate =>
      var ordered: seq<Item> :| IsDuplicateOf(items, ordered, finding);
      assert FirstTen(ordered)[k] == ordered[k];
      assert ordered[k] in ordered && ordered[k].id == id;
    case Contradiction =>
      var a, b :| IsContradictionOf(items, a, b, finding);
      assert a.id == id || b.id == id;
    case ScopeMismatch =>
      var a: Item :| a in items && finding == ScopeFinding(a);
      assert ScopeFinding(a).ids == [a.id];
    case StaleEntry =>
      var a: Item :| a in items && finding == StaleFinding(a);
      assert StaleFinding(a).ids == [a.id];
  }

  // No two entries are both duplicates of each other and in contradiction.
  lemma DuplicatesDoNotContradict(items: set<Item>, f: Finding, g: Finding)
    requires Sound(items) && IsDuplicate(items, f) && IsContradiction(items, g)
    ensures |g.ids| == 2 && !(g.ids[0] in f.ids && g.ids[1] in f.ids)
  {
    hide Older, DifferingFields;
    var ordered: seq<Item> :| IsDuplicateOf(items, ordered, f);
    var a, b :| IsContradictionOf(items, a, b, g);
    forall item | item in items && item.id in f.ids
      ensures FingerprintOf(item.entry) == FingerprintOf(ordered[0].entry)
    {
      var k :| 0 <= k < |f.ids| && f.ids[k] == item.id;
      assert FirstTen(ordered)[k] == ordered[k] && ordered[k] in ordered;
      assert ordered[k].id == item.id;
    }
  }

  // ---------------------------------------------------------------- single entries

  method ItemFindings(visible: seq<Item>, now: Instant) returns (findings: seq<Finding>)
    requires Sound(Elements(visible)) && Distinct(visible)
    ensures forall f :: f in findings <==>
      IsScopeMismatch(Elements(visible), f) || IsStaleEntry(Elements(visible), now, f)
    ensures Distinct(findings)
  {
    findings := [];
    for i := 0 to |visible|
      invariant forall f :: f in findings <==>
        (exists k :: 0 <= k < i && FoundAt(visible[k], now, f))
      invariant Distinct(findings)
    {
      var item := visible[i];
      forall k, f | 0 <= k < i && FoundAt(visible[k], now, f) ensures !FoundAt(item, now, f) {
        OneItemFinds(Elements(visible), visible[k], item, now, f);
      }
      ghost var before := findings;
      assert forall f :: f in before ==> !FoundAt(item, now, f);
      assert forall j :: 0 <= j < |before| ==> before[j] in before;
      if item.entry.scope !in PolicyOf(item.entry.kind).scopes {
        findings := findings + [ScopeFinding(item)];
      }
      if IsStale(item.entry, now) {
        findings := findings + [StaleFinding(item)];
      }
      assert forall f :: f in findings <==> f in before || FoundAt(item, now, f);
    }
    forall f
      ensures f in findings <==> IsScopeMismatch(Elements(visible), f) || IsStaleEntry(Elements(visible), now, f)
    {
      FoundSomewhere(visible, now, f);
    }
  }

  predicate FoundAt(item: Item, now: Instant, f: Finding) {
    || (item.entry.scope !in PolicyOf(item.entry.kind).scopes && f == ScopeFinding(item))
    || (IsStale(item.entry, now) && f == StaleFinding(item))
  }

  lemma OneItemFinds(items: set<Item>, a: Item, b: Item, now: Instant, f: Finding)
    requires Sound(items) && a in items && b in items && a != b && FoundAt(a, now, f)
    ensures !FoundAt(b, now, f)
  {
    assert f.ids == [a.id] && a.id != b.id;
    assert f.ids[0] == a.id;
  }

  lemma FoundSomewhere(visible: seq<Item>, now: Instant, f: Finding)
    ensures (exists k :: 0 <= k < |visible| && FoundAt(visible[k], now, f)) <==>
      IsScopeMismatch(Elements(visible), f) || IsStaleEntry(Elements(visible), now, f)
  {
    hide IsStale;
    if IsScopeMismatch(Elements(visible), f) {
      var a :| a in Elements(visible) && a.entry.scope !in PolicyOf(a.entry.kind).scopes && f == ScopeFinding(a);
      var k :| 0 <= k < |visible| && visible[k] == a;
      assert FoundAt(visible[k], now, f);
    }
    if IsStaleEntry(Elements(visible), now, f) {
      var a :| a in Elements(visible) && IsStale(a.entry, now) && f == StaleFinding(a);
      var k :| 0 <= k < |visible| && visible[k] == a;
      assert FoundAt(visible[k], now, f);
    }
  }

  // ---------------------------------------------------------------- groups

  /** A Map filled in a loop: its keys in insertion order, each with the items pushed under it. */
  datatype Grouping<!K> = Grouping(keys: seq<K>, groups: map<K, seq<Item>>)

  ghost predicate Grouped<K(!new)>(visible: seq<Item>, key: Item -> K, g: Grouping<K>) {
    && Distinct(g.keys)
    && (forall k :: k in g.groups <==> k in g.keys)
    && (forall k :: k in g.groups ==>
          g.groups[k] != [] && Distinct(g.groups[k]) && forall x :: x in g.groups[k] <==> x in visible && key(x) == k)
    && (forall x :: x in visible ==> key(x) in g.groups)
  }

  method GroupBy<K(==, !new)>(visible: seq<Item>, key: Item -> K) returns (g: Grouping<K>)
    requires Distinct(visible)
    ensures Grouped(visible, key, g)
  {
    var keys: seq<K>, groups: map<K, seq<Item>> := [], map[];
    for i := 0 to |visible|
      invariant Grouped(visible[..i], key, Grouping(keys, groups))
    {
      var item := visible[i];
      var k := key(item);
      var group := if k in groups then groups[k] else [];
      assert visible[..i + 1] == visible[..i] + [item] && item !in visible[..i];
      PushKeepsGroups(visible[..i], item, key, Grouping(keys, groups));
      if k !in groups {
        keys := keys + [k];
      }
      groups := groups[k := group + [item]];
    }
    assert visible[..|visible|] == visible;
    return Grouping(keys, groups);
  }

  lemma PushKeepsGroups<K(!new)>(visible: seq<Item>, item: Item, key: Item -> K, g: Grouping<K>)
    requires Grouped(visible, key, g) && item !in visible
    ensures var k := key(item);
      var group := if k in g.groups then g.groups[k] else [];
      Grouped(visible + [item], key,
              Grouping(if k in g.groups then g.keys else g.keys + [k], g.groups[k := group + [item]]))
  {
    var k := key(item);
    var group := if k in g.groups then g.groups[k] else [];
    assert forall x :: x in group + [item] <==> x in visible + [item] && key(x) == k;
    assert forall j :: 0 <= j < |group| ==> group[j] in group;
    assert Distinct(group + [item]);
  }

  // ---------------------------------------------------------------- duplicates

  /** The finding of one group, if it has one. */
  ghost predicate GroupFinds(group: seq<Item>, f: Finding) {
    |group| >= 2 && f == DuplicateFinding(SortBy(Older, group))
  }

  /** Some of the first i groups has the finding. */
  ghost predicate FoundInFirst(g: Grouping<Fingerprint>, i: nat, f: Finding)
    requires i <= |g.keys| && forall k :: k in g.keys ==> k in g.groups
  {
    exists k :: 0 <= k < i && GroupFinds(g.groups[g.keys[k]], f)
  }

  method DuplicateFindings(visible: seq<Item>) returns (findings: seq<Finding>)
    requires Sound(Elements(visible)) && Distinct(visible)
    ensures forall f :: f in findings <==> IsDuplicate(Elements(visible), f)
    ensures Distinct(findings)
  {
    hide DuplicateFinding, Older, IsDuplicate, FingerprintOf, FoundInFirst, Sound;
    var key := (item: Item) => FingerprintOf(item.entry);
    var g := GroupBy(visible, key);
    findings := [];
    forall f ensures !FoundInFirst(g, 0, f) {
      NoneInFirst(g, f);
    }
    for i := 0 to |g.keys|
      invariant forall f :: f in findings <==> FoundInFirst(g, i, f)
      invariant Distinct(findings)
    {
      var group := g.groups[g.keys[i]];
      forall f ensures FoundInFirst(g, i + 1, f) <==> FoundInFirst(g, i, f) || GroupFinds(group, f)
               ensures FoundInFirst(g, i, f) ==> !GroupFinds(group, f)
      {
        OneMoreGroup(visible, key, g, i, f);
      }
      assert forall j :: 0 <= j < |findings| ==> findings[j] in findings;
      ghost var before := findings;
      if |group| >= 2 {
        findings := findings + [DuplicateFinding(SortBy(Older, group))];
      }
      assert forall f :: f in findings <==> f in before || GroupFinds(group, f);
    }
    forall f ensures FoundInFirst(g, |g.keys|, f) <==> IsDuplicate(Elements(visible), f) {
      GroupsFindTheDuplicates(visible, key, g, f);
    }
  }

  lemma NoneInFirst(g: Grouping<Fingerprint>, f: Finding)
    requires forall k :: k in g.keys ==> k in g.groups
    ensures !FoundInFirst(g, 0, f)
  {
  }

  lemma OneMoreGroup(visible: seq<Item>, key: Item -> Fingerprint, g: Grouping<Fingerprint>, i: nat, f: Finding)
    requires Sound(Elements(visible)) && Grouped(visible, key, g) && i < |g.keys|
    ensures FoundInFirst(g, i + 1, f) <==> FoundInFirst(g, i, f) || GroupFinds(g.groups[g.keys[i]], f)
    ensures FoundInFirst(g, i, f) ==> !GroupFinds(g.groups[g.keys[i]], f)
  {
    hide GroupFinds;
    if k :| 0 <= k < i && GroupFinds(g.groups[g.keys[k]], f) {
      GroupsFindApart(visible, key, g, k, i, f);
    }
  }

  lemma {:induction false} SortedGroup(items: set<Item>, group: seq<Item>)
    requires Sound(items) && Distinct(group) && forall x :: x in group ==> x in items
    ensures Ascends(Older, SortBy(Older, group)) && forall x :: x in SortBy(Older, group) <==> x in group
  {
    AgeOrders(items);
    SortAscends(Older, group, items);
    SortKeepsElements(Older, group);
  }

  // The oldest entry of a group is the first the finding names.
  lemma FindingNamesItsGroup(items: set<Item>, group: seq<Item>, f: Finding) returns (first: Item)
    requires Sound(items) && Distinct(group) && (forall x :: x in group ==> x in items) && GroupFinds(group, f)
    ensures first in group && f.ids != [] && f.ids[0] == first.id
  {
    SortedGroup(items, group);
    var ordered := SortBy(Older, group);
    first := ordered[0];
    assert ordered[0] in ordered;
    assert FirstTen(ordered)[0] == ordered[0];
  }

  lemma GroupsFindApart(visible: seq<Item>, key: Item -> Fingerprint, g: Grouping<Fingerprint>, k: nat, i: nat,
                        f: Finding)
    requires Sound(Elements(visible)) && Grouped(visible, key, g)
    requires k < i < |g.keys| && GroupFinds(g.groups[g.keys[k]], f)
    ensures !GroupFinds(g.groups[g.keys[i]], f)
  {
    hide GroupFinds;
    var first := FindingNamesItsGroup(Elements(visible), g.groups[g.keys[k]], f);
    if GroupFinds(g.groups[g.keys[i]], f) {
      var other := FindingNamesItsGroup(Elements(visible), g.groups[g.keys[i]], f);
    }
  }

  lemma GroupsFindTheDuplicates(visible: seq<Item>, key: Item -> Fingerprint, g: Grouping<Fingerprint>, f: Finding)
    requires Sound(Elements(visible)) && Grouped(visible, key, g)
    requires forall item: Item :: key(item) == FingerprintOf(item.entry)
    ensures FoundInFirst(g, |g.keys|, f) <==> IsDuplicate(Elements(visible), f)
  {
    hide Older, DuplicateFinding, FingerprintOf;
    var items := Elements(visible);
    if k :| 0 <= k < |g.keys| && GroupFinds(g.groups[g.keys[k]], f) {
      var group := g.groups[g.keys[k]];
      var ordered := SortBy(Older, group);
      SortedGroup(items, group);
      assert ordered[0] in ordered;
      assert forall x :: x in ordered <==> x in items && FingerprintOf(x.entry) == g.keys[k];
      assert IsDuplicateOf(items, ordered, f);
    }
    if IsDuplicate(items, f) {
      var ordered: seq<Item> :| IsDuplicateOf(items, ordered, f);
      assert ordered[0] in ordered;
      var group := g.groups[key(ordered[0])];
      var k :| 0 <= k < |g.keys| && g.keys[k] == key(ordered[0]);
      assert forall x :: x in ordered <==> x in group;
      SortedGroup(items, group);
      AgeOrders(items);
      AscendingIsUnique(Older, ordered, SortBy(Older, group), items);
      assert GroupFinds(g.groups[g.keys[k]], f);
    }
  }

  // ---------------------------------------------------------------- contradictions

  ghost predicate PairFinds(group: seq<Item>, l: int, r: int, f: Finding) {
    0 <= l < r < |group| && Contradict(group[l].entry, group[r].entry) && f == ContradictionFinding(group[l], group[r])
  }

  /** A pair of positions the nested loops have passed. */
  predicate Passed(l: int, r: int, left: int, right: int) {
    l < left || (l == left && r < right)
  }

  ghost predicate PairsFound(group: seq<Item>, left: int, right: int, f: Finding) {
    exists l, r :: PairFinds(group, l, r, f) && Passed(l, r, left, right)
  }

  lemma PairsFindApart(items: set<Item>, group: seq<Item>, l: int, r: int, m: int, n: int, f: Finding)
    requires Sound(items) && Distinct(group) && forall x :: x in group ==> x in items
    requires PairFinds(group, l, r, f) && PairFinds(group, m, n, f)
    ensures l == m && r == n
  {
    hide Contradict, SortedPair;
    PairByIds(group[l].id, group[r].id, group[m].id, group[n].id);
    assert group[l] in group && group[r] in group && group[m] in group && group[n] in group;
  }

  // Passing one more pair adds its finding, which is new.
  lemma OneMorePair(items: set<Item>, group: seq<Item>, left: nat, right: nat, f: Finding)
    requires Sound(items) && Distinct(group) && forall x :: x in group ==> x in items
    requires left < right < |group|
    ensures PairsFound(group, left, right + 1, f) <==>
      PairsFound(group, left, right, f) || PairFinds(group, left, right, f)
    ensures PairsFound(group, left, right, f) ==> !PairFinds(group, left, right, f)
  {
    hide PairFinds;
    if l, r :| PairFinds(group, l, r, f) && Passed(l, r, left, right) {
      if PairFinds(group, left, right, f) {
        PairsFindApart(items, group, l, r, left, right, f);
      }
      assert Passed(l, r, left, right + 1);
    }
    if PairFinds(group, left, right, f) {
      assert Passed(left, right, left, right + 1);
    }
    if l, r :| PairFinds(group, l, r, f) && Passed(l, r, left, right + 1) {
      assert (l == left && r == right) || Passed(l, r, left, right);
    }
  }

  method PairFindings(ghost items: set<Item>, group: seq<Item>) returns (findings: seq<Finding>)
    requires Sound(items) && Distinct(group) && forall x :: x in group ==> x in items
    requires forall a, b :: a in group && b in group ==> IdentityOf(a.entry) == IdentityOf(b.entry)
    ensures forall f :: f in findings <==> PairsFound(group, |group|, 0, f)
    ensures Distinct(findings)
  {
    hide Sound, ContradictionFinding, PairsFound, DifferingFields, SameCanonicalValue;
    findings := [];
    forall f ensures !PairsFound(group, 0, 0, f) {
      NoPairsYet(group, f);
    }
    for left := 0 to |group|
      invariant forall f :: f in findings <==> PairsFound(group, left, 0, f)
      invariant Distinct(findings)
    {
      forall f ensures PairsFound(group, left, left + 1, f) <==> PairsFound(group, left, 0, f) {
        RowStarts(group, left, f);
      }
      for right := left + 1 to |group|
        invariant forall f :: f in findings <==> PairsFound(group, left, right, f)
        invariant Distinct(findings)
      {
        var first, second := group[left], group[right];
        forall f
          ensures PairsFound(group, left, right + 1, f) <==>
            PairsFound(group, left, right, f) || PairFinds(group, left, right, f)
          ensures PairsFound(group, left, right, f) ==> !PairFinds(group, left, right, f)
        {
          OneMorePair(items, group, left, right, f);
        }
        assert forall j :: 0 <= j < |findings| ==> findings[j] in findings;
        assert first in group && second in group && group[0] in group;
        ghost var before := findings;
        if !SameCanonicalValue(first.entry.value, second.entry.value) {
          var differingFields := DifferingFields(first.entry.value, second.entry.value);
          if differingFields != [] || PolicyOf(group[0].entry.kind).conflicts == ManualReview {
            findings := findings + [ContradictionFinding(first, second)];
          }
        }
        assert forall f :: f in findings <==> f in before || PairFinds(group, left, right, f);
      }
      forall f ensures PairsFound(group, left + 1, 0, f) <==> PairsFound(group, left, |group|, f) {
        RowEnds(group, left, f);
      }
    }
  }

  lemma NoPairsYet(group: seq<Item>, f: Finding)
    ensures !PairsFound(group, 0, 0, f)
  {
  }

  lemma RowStarts(group: seq<Item>, left: nat, f: Finding)
    ensures PairsFound(group, left, left + 1, f) <==> PairsFound(group, left, 0, f)
  {
    if l, r :| PairFinds(group, l, r, f) && Passed(l, r, left, left + 1) {
      assert Passed(l, r, left, 0);
    }
    if l, r :| PairFinds(group, l, r, f) && Passed(l, r, left, 0) {
      assert Passed(l, r, left, left + 1);
    }
  }

  lemma RowEnds(group: seq<Item>, left: nat, f: Finding)
    ensures PairsFound(group, left + 1, 0, f) <==> PairsFound(group, left, |group|, f)
  {
    if l, r :| PairFinds(group, l, r, f) && Passed(l, r, left, |group|) {
      assert Passed(l, r, left + 1, 0);
    }
    if l, r :| PairFinds(group, l, r, f) && Passed(l, r, left + 1, 0) {
      assert Passed(l, r, left, |group|);
    }
  }

  /** Some of the first i groups has a pair with the finding. */
  ghost predicate PairInFirst(g: Grouping<Identity>, i: nat, f: Finding)
    requires i <= |g.keys| && forall k :: k in g.keys ==> k in g.groups
  {
    exists k :: 0 <= k < i && PairsFound(g.groups[g.keys[k]], |g.groups[g.keys[k]]|, 0, f)
  }

  lemma PairsBelongToOneGroup(visible: seq<Item>, key: Item -> Identity, g: Grouping<Identity>, k: nat, i: nat,
                              f: Finding)
    requires Sound(Elements(visible)) && Grouped(visible, key, g)
    requires k < i < |g.keys| && PairsFound(g.groups[g.keys[k]], |g.groups[g.keys[k]]|, 0, f)
    ensures !PairsFound(g.groups[g.keys[i]], |g.groups[g.keys[i]]|, 0, f)
  {
    hide Contradict, SortedPair;
    var one, two := g.groups[g.keys[k]], g.groups[g.keys[i]];
    var l, r :| PairFinds(one, l, r, f);
    assert one[l] in one && one[r] in one;
    if m, n :| PairFinds(two, m, n, f) {
      assert two[m] in two && two[n] in two;
      PairByIds(one[l].id, one[r].id, two[m].id, two[n].id);
    }
  }

  lemma OneMoreGroupOfPairs(visible: seq<Item>, key: Item -> Identity, g: Grouping<Identity>, i: nat, f: Finding)
    requires Sound(Elements(visible)) && Grouped(visible, key, g) && i < |g.keys|
    ensures var group := g.groups[g.keys[i]];
      && (PairInFirst(g, i + 1, f) <==> PairInFirst(g, i, f) || PairsFound(group, |group|, 0, f))
      && (PairInFirst(g, i, f) ==> !PairsFound(group, |group|, 0, f))
  {
    hide PairsFound;
    if k :| 0 <= k < i && PairsFound(g.groups[g.keys[k]], |g.groups[g.keys[k]]|, 0, f) {
      PairsBelongToOneGroup(visible, key, g, k, i, f);
    }
  }

  lemma PairsAreTheContradictions(visible: seq<Item>, key: Item -> Identity, g: Grouping<Identity>, f: Finding)
    requires Sound(Elements(visible)) && Grouped(visible, key, g)
    requires forall item: Item :: key(item) == IdentityOf(item.entry)
    ensures PairInFirst(g, |g.keys|, f) <==> IsContradiction(Elements(visible), f)
  {
    hide SameCanonicalValue, DifferingFields, ContradictionFinding;
    var items := Elements(visible);
    if k :| 0 <= k < |g.keys| && PairsFound(g.groups[g.keys[k]], |g.groups[g.keys[k]]|, 0, f) {
      var group := g.groups[g.keys[k]];
      var l, r :| PairFinds(group, l, r, f);
      assert group[l] in group && group[r] in group;
      assert IsContradictionOf(items, group[l], group[r], f);
    }
    if IsContradiction(items, f) {
      var a, b :| IsContradictionOf(items, a, b, f);
      var group := g.groups[key(a)];
      var k :| 0 <= k < |g.keys| && g.keys[k] == key(a);
      var l :| 0 <= l < |group| && group[l] == a;
      var r :| 0 <= r < |group| && group[r] == b;
      ContradictionIsSymmetric(a, b);
      var low, high := if l < r then l else r, if l < r then r else l;
      assert PairFinds(group, low, high, f) && Passed(low, high, |group|, 0);
      assert PairsFound(g.groups[g.keys[k]], |g.groups[g.keys[k]]|, 0, f);
    }
  }

  method ContradictionFindings(visible: seq<Item>) returns (findings: seq<Finding>)
    requires Sound(Elements(visible)) && Distinct(visible)
    ensures forall f :: f in findings <==> IsContradiction(Elements(visible), f)
    ensures Distinct(findings)
  {
    hide Sound, PairsFound, PairInFirst, IsContradiction;
    var key := (item: Item) => IdentityOf(item.entry);
    var g := GroupBy(visible, key);
    findings := [];
    forall f ensures !PairInFirst(g, 0, f) {
      NoGroupOfPairsYet(g, f);
    }
    for i := 0 to |g.keys|
      invariant forall f :: f in findings <==> PairInFirst(g, i, f)
      invariant Distinct(findings)
    {
      var group := g.groups[g.keys[i]];
      forall f ensures PairInFirst(g, i + 1, f) <==> PairInFirst(g, i, f) || PairsFound(group, |group|, 0, f)
               ensures PairInFirst(g, i, f) ==> !PairsFound(group, |group|, 0, f)
      {
        OneMoreGroupOfPairs(visible, key, g, i, f);
      }
      if |group| < 2 {
        forall f ensures !PairsFound(group, |group|, 0, f) {
          NoPairInOne(group, f);
        }
      } else {
        var more := PairFindings(Elements(visible), group);
        AppendDistinct(findings, more);
        findings := findings + more;
      }
    }
    forall f ensures PairInFirst(g, |g.keys|, f) <==> IsContradiction(Elements(visible), f) {
      PairsAreTheContradictions(visible, key, g, f);
    }
  }

  lemma NoGroupOfPairsYet(g: Grouping<Identity>, f: Finding)
    requires forall k :: k in g.keys ==> k in g.groups
    ensures !PairInFirst(g, 0, f)
  {
  }

  lemma NoPairInOne(group: seq<Item>, f: Finding)
    requires |group| < 2
    ensures !PairsFound(group, |group|, 0, f)
  {
  }

  lemma AppendDistinct<T>(a: seq<T>, b: seq<T>)
    requires Distinct(a) && Distinct(b) && forall x :: x in a ==> x !in b
    ensures Distinct(a + b)
  {
    assert forall i :: 0 <= i < |a| ==> a[i] in a;
    assert forall j :: 0 <= j < |b| ==> b[j] in b;
  }

  // ---------------------------------------------------------------- the review

  /** The entries of the document in stored order, as far as the principal may see them. */
  function VisibleItems(document: seq<Item>, principal: Principal): (visible: seq<Item>)
    ensures forall x :: x in visible <==> x in document && CanAccess(x.entry, principal)
  {
    if document == [] then []
    else
      assert document == [document[0]] + document[1..];
      (if CanAccess(document[0].entry, principal) then [document[0]] else []) + VisibleItems(document[1..], principal)
  }

  lemma {:induction false} VisibleItemsAreDistinct(document: seq<Item>, principal: Principal)
    requires Distinct(document)
    ensures Distinct(VisibleItems(document, principal))
  {
    if document != [] {
      VisibleItemsAreDistinct(document[1..], principal);
      assert document[0] !in document[1..];
      AppendDistinct(if CanAccess(document[0].entry, principal) then [document[0]] else [],
                     VisibleItems(document[1..], principal));
    }
  }

  /** reviewWorkingMemoryDocument. */
  method Review(document: seq<Item>, principal: Principal, now: Instant) returns (report: seq<Finding>)
    requires Sound(Elements(document)) && Distinct(document)
    ensures IsReport(Elements(VisibleItems(document, principal)), now, report)
    ensures |report| <= MAX_FINDINGS
  {
    hide Sound, IsDuplicate, IsContradiction, IsScopeMismatch, IsStaleEntry, Before;
    var visible := VisibleItems(document, principal);
    VisibleItemsAreDistinct(document, principal);
    ghost var items := Elements(visible);
    VisibleIsSound(document, principal);
    var single := ItemFindings(visible, now);
    var duplicates := DuplicateFindings(visible);
    var contradictions := ContradictionFindings(visible);
    var findings := single + duplicates + contradictions;
    forall f ensures f in findings <==> IsFinding(items, now, f) {
      CategoriesAreApart(items, now, f);
    }
    forall f | f in single ensures f !in duplicates && f !in contradictions {
      CategoriesAreApart(items, now, f);
    }
    forall f | f in duplicates ensures f !in contradictions {
      CategoriesAreApart(items, now, f);
    }
    AppendDistinct(single, duplicates);
    AppendDistinct(single + duplicates, contradictions);
    FindingsAreOrdered(items, now, Elements(findings));
    SortAscends(Before, findings, Elements(findings));
    SortKeepsElements(Before, findings);
    var sorted := SortBy(Before, findings);
    report := if |sorted| <= MAX_FINDINGS then sorted else sorted[..MAX_FINDINGS];
    assert IsReportOf(items, now, sorted, report);
  }

  lemma {:induction false} VisibleIsSound(document: seq<Item>, principal: Principal)
    requires Sound(Elements(document))
    ensures Sound(Elements(VisibleItems(document, principal)))
  {
    assert forall x :: x in Elements(VisibleItems(document, principal)) ==> x in Elements(document);
  }

  lemma CategoriesAreApart(items: set<Item>, now: Instant, f: Finding)
    ensures IsDuplicate(items, f) ==> f.category == Duplicate
    ensures IsContradiction(items, f) ==> f.category == Contradiction
    ensures IsScopeMismatch(items, f) ==> f.category == ScopeMismatch
    ensures IsStaleEntry(items, now, f) ==> f.category == StaleEntry
  {
  }
}
