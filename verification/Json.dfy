/** JSON values and their canonical form (working-memory-taxonomy.ts, working-memory-review.ts).
    An object keeps its members in insertion order; canonicalizing sorts them by key. */
module Json {
  import opened Wrappers
  import opened StringOrder

  datatype Json =
    | JNull
    | JBool(flag: bool)
    | JNumber(text: string)
    | JString(text: string)
    | JArray(items: seq<Json>)
    | JObject(members: seq<Member>)

  datatype Member = Member(key: string, value: Json)

  predicate DistinctKeys(members: seq<Member>) {
    forall i, j :: 0 <= i < j < |members| ==> members[i].key != members[j].key
  }

  /** No object has two members of the same key, at any depth. */
  predicate WellFormed(json: Json) {
    match json
    case JArray(items) => forall i :: 0 <= i < |items| ==> WellFormed(items[i])
    case JObject(members) =>
      DistinctKeys(members) && forall i :: 0 <= i < |members| ==> WellFormed(members[i].value)
    case _ => true
  }

  /** Equality as JSON values: the order of an object's members does not matter. */
  predicate Same(a: Json, b: Json)
    decreases a
  {
    match (a, b)
    case (JArray(xs), JArray(ys)) => |xs| == |ys| && forall i :: 0 <= i < |xs| ==> Same(xs[i], ys[i])
    case (JObject(xs), JObject(ys)) =>
      && |xs| == |ys|
      && (forall i :: 0 <= i < |xs| ==>
            HasKey(ys, xs[i].key) && Same(xs[i].value, Lookup(ys, xs[i].key)))
    case (_, _) => a == b
  }

  predicate HasKey(members: seq<Member>, key: string) {
    exists i :: 0 <= i < |members| && members[i].key == key
  }

  function Lookup(members: seq<Member>, key: string): (value: Json)
    requires HasKey(members, key)
    ensures Member(key, value) in members
  {
    if members[0].key == key then members[0].value
    else
      assert HasKey(members[1..], key) by {
        var i :| 0 <= i < |members| && members[i].key == key;
        assert members[1..][i - 1] == members[i];
      }
      Lookup(members[1..], key)
  }

  // ---------------------------------------------------------------- canonical form

  function Insert(member: Member, sorted: seq<Member>): seq<Member> {
    if sorted == [] || !Less(sorted[0].key, member.key) then [member] + sorted
    else [sorted[0]] + Insert(member, sorted[1..])
  }

  function Sort(members: seq<Member>): seq<Member> {
    if members == [] then [] else Insert(members[0], Sort(members[1..]))
  }

  /** canonicalizeWorkingMemoryValue and sortJson. */
  function Canonical(json: Json): Json {
    match json
    case JArray(items) => JArray(CanonicalItems(items))
    case JObject(members) => JObject(Sort(CanonicalMembers(members)))
    case _ => json
  }

  function CanonicalItems(items: seq<Json>): (canonical: seq<Json>)
    ensures |canonical| == |items|
    ensures forall i :: 0 <= i < |items| ==> canonical[i] == Canonical(items[i])
  {
    if items == [] then [] else [Canonical(items[0])] + CanonicalItems(items[1..])
  }

  function CanonicalMembers(members: seq<Member>): (canonical: seq<Member>)
    ensures |canonical| == |members|
    ensures forall i :: 0 <= i < |members| ==>
      canonical[i] == Member(members[i].key, Canonical(members[i].value))
  {
    if members == [] then []
    else [Member(members[0].key, Canonical(members[0].value))] + CanonicalMembers(members[1..])
  }

  predicate KeySorted(members: seq<Member>) {
    forall i, j :: 0 <= i < j < |members| ==> Less(members[i].key, members[j].key)
  }

  lemma {:induction false} InsertKeepsOrder(member: Member, sorted: seq<Member>)
    requires KeySorted(sorted) && !HasKey(sorted, member.key)
    ensures KeySorted(Insert(member, sorted))
    ensures multiset(Insert(member, sorted)) == multiset(sorted) + multiset{member}
  {
    if sorted == [] {
    } else if !Less(sorted[0].key, member.key) {
      LessTotal(sorted[0].key, member.key);
      forall j | 0 <= j < |sorted|
        ensures Less(member.key, sorted[j].key)
      {
        if j > 0 {
          LessTransitive(member.key, sorted[0].key, sorted[j].key);
        }
      }
    } else {
      var rest := sorted[1..];
      assert forall i :: 0 <= i < |rest| ==> rest[i] == sorted[i + 1];
      InsertKeepsOrder(member, rest);
      var inserted := Insert(member, rest);
      assert sorted == [sorted[0]] + rest;
      forall j | 0 <= j < |inserted|
        ensures Less(sorted[0].key, inserted[j].key)
      {
        assert inserted[j] in multiset(inserted);
        if inserted[j] != member {
          assert inserted[j] in rest;
        }
      }
    }
  }

  lemma {:induction false} SortIsOrdered(members: seq<Member>)
    requires DistinctKeys(members)
    ensures KeySorted(Sort(members)) && multiset(Sort(members)) == multiset(members)
  {
    if members != [] {
      var rest := members[1..];
      assert members == [members[0]] + rest;
      SortIsOrdered(rest);
      assert !HasKey(Sort(rest), members[0].key) by {
        forall i | 0 <= i < |Sort(rest)|
          ensures Sort(rest)[i].key != members[0].key
        {
          assert Sort(rest)[i] in multiset(Sort(rest));
          assert Sort(rest)[i] in rest;
        }
      }
      InsertKeepsOrder(members[0], Sort(rest));
    }
  }

  lemma {:induction false} SortKeepsMembers(members: seq<Member>)
    requires DistinctKeys(members)
    ensures KeySorted(Sort(members)) && |Sort(members)| == |members|
    ensures forall m :: m in Sort(members) <==> m in members
  {
    hide Sort;
    SortIsOrdered(members);
    SameMultisetSameMembers(Sort(members), members);
  }

  lemma SameMultisetSameMembers<T>(xs: seq<T>, ys: seq<T>)
    requires multiset(xs) == multiset(ys)
    ensures |xs| == |ys| && forall m :: m in xs <==> m in ys
  {
    assert |xs| == |multiset(xs)| && |ys| == |multiset(ys)|;
    forall m
      ensures m in xs <==> m in ys
    {
      assert m in xs <==> m in multiset(xs);
      assert m in ys <==> m in multiset(ys);
    }
  }

  // Two key-sorted sequences with the same members are the same sequence.
  lemma {:induction false} SortedIsUnique(xs: seq<Member>, ys: seq<Member>)
    requires KeySorted(xs) && KeySorted(ys)
    requires |xs| == |ys| && forall m :: m in xs <==> m in ys
    ensures xs == ys
  {
    if xs != [] {
      assert xs[0] in ys;
      assert ys[0] in xs;
      var i :| 0 <= i < |xs| && xs[i] == ys[0];
      var j :| 0 <= j < |ys| && ys[j] == xs[0];
      if i > 0 && j > 0 {
        LessAsymmetric(xs[0].key, ys[0].key);
      }
      assert xs[0] == ys[0];
      forall m
        ensures m in xs[1..] <==> m in ys[1..]
      {
        LessIrreflexive(m.key);
        assert xs == [xs[0]] + xs[1..] && ys == [ys[0]] + ys[1..];
        if m in xs[1..] {
          assert m in ys;
        }
        if m in ys[1..] {
          assert m in xs;
        }
      }
      SortedIsUnique(xs[1..], ys[1..]);
    }
  }

  // ---------------------------------------------------------------- the canonical form decides equality

  function Keys(members: seq<Member>): set<string> {
    set i | 0 <= i < |members| :: members[i].key
  }

  lemma KeysSplit(members: seq<Member>)
    requires members != []
    ensures Keys(members) == Keys(members[1..]) + {members[0].key}
  {
    var rest := members[1..];
    forall key | key in Keys(members) ensures key in Keys(rest) + {members[0].key} {
      var i :| 0 <= i < |members| && members[i].key == key;
      assert i > 0 ==> rest[i - 1] == members[i];
    }
    forall key | key in Keys(rest) ensures key in Keys(members) {
      var i :| 0 <= i < |rest| && rest[i].key == key;
      assert members[i + 1] == rest[i];
    }
  }

  lemma {:induction false} DistinctKeysAreCounted(members: seq<Member>)
    requires DistinctKeys(members)
    ensures |Keys(members)| == |members|
  {
    if members != [] {
      var rest := members[1..];
      assert forall i :: 0 <= i < |rest| ==> rest[i] == members[i + 1];
      DistinctKeysAreCounted(rest);
      assert members[0].key !in Keys(rest);
      KeysSplit(members);
      hide Keys;
    }
  }

  lemma {:induction false} LookupFinds(members: seq<Member>, i: nat)
    requires DistinctKeys(members) && i < |members|
    ensures HasKey(members, members[i].key) && Lookup(members, members[i].key) == members[i].value
  {
    var value := Lookup(members, members[i].key);
    var j :| 0 <= j < |members| && members[j] == Member(members[i].key, value);
  }

  // Members that agree key by key are the same members, whatever their order.
  lemma {:induction false} AgreeingMembers(xs: seq<Member>, ys: seq<Member>)
    requires DistinctKeys(xs) && DistinctKeys(ys) && |xs| == |ys|
    requires forall i :: 0 <= i < |xs| ==> HasKey(ys, xs[i].key) && xs[i].value == Lookup(ys, xs[i].key)
    ensures forall m :: m in xs <==> m in ys
  {
    DistinctKeysAreCounted(xs);
    DistinctKeysAreCounted(ys);
    forall i | 0 <= i < |xs|
      ensures xs[i] in ys && xs[i].key in Keys(ys)
    {
      var j :| 0 <= j < |ys| && ys[j] == Member(xs[i].key, Lookup(ys, xs[i].key));
    }
    assert Keys(xs) <= Keys(ys);
    SubsetOfSameSize(Keys(xs), Keys(ys));
    forall j | 0 <= j < |ys|
      ensures ys[j] in xs
    {
      assert ys[j].key in Keys(ys);
      var i :| 0 <= i < |xs| && xs[i].key == ys[j].key;
      LookupFinds(ys, j);
    }
  }

  lemma {:induction false} SortedFromSameMembers(cx: seq<Member>, cy: seq<Member>)
    requires DistinctKeys(cx) && DistinctKeys(cy) && |cx| == |cy|
    requires forall m :: m in cx <==> m in cy
    ensures Sort(cx) == Sort(cy)
  {
    hide Sort, DistinctKeys, KeySorted;
    SortKeepsMembers(cx);
    SortKeepsMembers(cy);
    SortedIsUnique(Sort(cx), Sort(cy));
  }

  lemma {:induction false} SameObjectsSortAlike(xs: seq<Member>, ys: seq<Member>)
    requires DistinctKeys(xs) && DistinctKeys(ys) && |xs| == |ys|
    requires forall i :: 0 <= i < |xs| ==>
      HasKey(ys, xs[i].key) && Canonical(xs[i].value) == Canonical(Lookup(ys, xs[i].key))
    ensures Sort(CanonicalMembers(xs)) == Sort(CanonicalMembers(ys))
  {
    hide Canonical, CanonicalMembers, Sort;
    var cx, cy := CanonicalMembers(xs), CanonicalMembers(ys);
    forall i | 0 <= i < |cx|
      ensures HasKey(cy, cx[i].key) && cx[i].value == Lookup(cy, cx[i].key)
    {
      var j :| 0 <= j < |ys| && ys[j] == Member(xs[i].key, Lookup(ys, xs[i].key));
      LookupFinds(cy, j);
    }
    AgreeingMembers(cx, cy);
    SortedFromSameMembers(cx, cy);
  }

  lemma SubsetOfSameSize<T>(a: set<T>, b: set<T>)
    requires a <= b && |a| == |b|
    ensures a == b
  {
    assert |b - a| == |b| - |a|;
  }

  lemma {:induction false} SortedAlikeHaveSameMembers(xs: seq<Member>, ys: seq<Member>)
    requires DistinctKeys(xs) && DistinctKeys(ys)
    requires Sort(CanonicalMembers(xs)) == Sort(CanonicalMembers(ys))
    ensures |xs| == |ys|
    ensures forall i :: 0 <= i < |xs| ==>
      HasKey(ys, xs[i].key) && Canonical(xs[i].value) == Canonical(Lookup(ys, xs[i].key))
  {
    hide Canonical, CanonicalMembers, Sort;
    var cx, cy := CanonicalMembers(xs), CanonicalMembers(ys);
    SortKeepsMembers(cx);
    SortKeepsMembers(cy);
    forall i | 0 <= i < |xs|
      ensures HasKey(ys, xs[i].key) && Canonical(xs[i].value) == Canonical(Lookup(ys, xs[i].key))
    {
      assert cx[i] in Sort(cy);
      var j :| 0 <= j < |cy| && cy[j] == cx[i];
      LookupFinds(ys, j);
    }
  }

  // Two values have the same canonical form exactly when they are equal as JSON values.
  lemma {:induction false} CanonicalDecidesEquality(a: Json, b: Json)
    requires WellFormed(a) && WellFormed(b)
    ensures Canonical(a) == Canonical(b) <==> Same(a, b)
    decreases a
  {
    match (a, b)
    case (JArray(xs), JArray(ys)) =>
      forall i | 0 <= i < |xs| && i < |ys|
        ensures Canonical(xs[i]) == Canonical(ys[i]) <==> Same(xs[i], ys[i])
      {
        CanonicalDecidesEquality(xs[i], ys[i]);
      }
      if Canonical(a) == Canonical(b) {
        assert CanonicalItems(xs) == CanonicalItems(ys);
      }
    case (JObject(xs), JObject(ys)) =>
      forall i | 0 <= i < |xs| && HasKey(ys, xs[i].key)
        ensures Canonical(xs[i].value) == Canonical(Lookup(ys, xs[i].key))
          <==> Same(xs[i].value, Lookup(ys, xs[i].key))
      {
        CanonicalDecidesEquality(xs[i].value, Lookup(ys, xs[i].key));
      }
      if Canonical(a) == Canonical(b) {
        SortedAlikeHaveSameMembers(xs, ys);
      }
      if Same(a, b) {
        SameObjectsSortAlike(xs, ys);
      }
    case (_, _) =>
  }

  // Canonicalizing keeps the value, so it is also idempotent.
  lemma {:induction false} CanonicalKeepsValue(json: Json)
    requires WellFormed(json)
    ensures WellFormed(Canonical(json)) && Canonical(Canonical(json)) == Canonical(json)
    decreases json
  {
    match json
    case JArray(items) =>
      forall i | 0 <= i < |items|
        ensures WellFormed(Canonical(items[i])) && Canonical(Canonical(items[i])) == Canonical(items[i])
      {
        CanonicalKeepsValue(items[i]);
      }
      assert CanonicalItems(CanonicalItems(items)) == CanonicalItems(items);
    case JObject(members) =>
      var canonical := CanonicalMembers(members);
      var sorted := Sort(canonical);
      SortKeepsMembers(canonical);
      KeySortedIsDistinct(sorted);
      forall i | 0 <= i < |sorted|
        ensures WellFormed(sorted[i].value) && Canonical(sorted[i].value) == sorted[i].value
      {
        assert sorted[i] in canonical;
        var j :| 0 <= j < |canonical| && canonical[j] == sorted[i];
        CanonicalKeepsValue(members[j].value);
      }
      assert CanonicalMembers(sorted) == sorted;
      SortKeepsMembers(sorted);
      SortedIsUnique(Sort(sorted), sorted);
    case _ =>
  }

  lemma KeySortedIsDistinct(members: seq<Member>)
    requires KeySorted(members)
    ensures DistinctKeys(members)
  {
    forall i, j | 0 <= i < j < |members|
      ensures members[i].key != members[j].key
    {
      LessIrreflexive(members[i].key);
    }
  }

  lemma {:induction false} SameIsSymmetric(a: Json, b: Json)
    requires WellFormed(a) && WellFormed(b)
    ensures Same(a, b) <==> Same(b, a)
  {
    CanonicalDecidesEquality(a, b);
    CanonicalDecidesEquality(b, a);
  }
}
