/** Array.prototype.sort with a comparison that is a strict total order on the elements at hand. */
module Sorting {
  ghost predicate StrictOrderOn<T(!new)>(less: (T, T) -> bool, elements: set<T>) {
    && (forall x :: x in elements ==> !less(x, x))
    && (forall x, y :: x in elements && y in elements && x != y ==> less(x, y) || less(y, x))
    && (forall x, y, z :: x in elements && y in elements && z in elements && less(x, y) && less(y, z) ==> less(x, z))
  }

  ghost predicate Ascends<T>(less: (T, T) -> bool, s: seq<T>) {
    forall i, j :: 0 <= i < j < |s| ==> less(s[i], s[j])
  }

  function InsertBy<T>(less: (T, T) -> bool, x: T, sorted: seq<T>): seq<T> {
    if sorted == [] || less(x, sorted[0]) then [x] + sorted else [sorted[0]] + InsertBy(less, x, sorted[1..])
  }

  function SortBy<T>(less: (T, T) -> bool, s: seq<T>): (sorted: seq<T>)
    ensures |sorted| == |s|
  {
    if s == [] then []
    else
      InsertLength(less, s[0], SortBy(less, s[1..]));
      InsertBy(less, s[0], SortBy(less, s[1..]))
  }

  lemma {:induction false} InsertLength<T>(less: (T, T) -> bool, x: T, sorted: seq<T>)
    ensures |InsertBy(less, x, sorted)| == |sorted| + 1
  {
    if !(sorted == [] || less(x, sorted[0])) {
      InsertLength(less, x, sorted[1..]);
    }
  }

  lemma {:induction false} InsertKeepsElements<T>(less: (T, T) -> bool, x: T, sorted: seq<T>)
    ensures forall y :: y in InsertBy(less, x, sorted) <==> y == x || y in sorted
  {
    if !(sorted == [] || less(x, sorted[0])) {
      InsertKeepsElements(less, x, sorted[1..]);
      assert sorted == [sorted[0]] + sorted[1..];
    }
  }

  lemma {:induction false} SortKeepsElements<T>(less: (T, T) -> bool, s: seq<T>)
    ensures forall y :: y in SortBy(less, s) <==> y in s
  {
    if s != [] {
      SortKeepsElements(less, s[1..]);
      InsertKeepsElements(less, s[0], SortBy(less, s[1..]));
      assert s == [s[0]] + s[1..];
    }
  }

  lemma {:induction false} InsertAscends<T(!new)>(less: (T, T) -> bool, x: T, sorted: seq<T>, elements: set<T>)
    requires StrictOrderOn(less, elements) && x in elements && x !in sorted
    requires (forall y :: y in sorted ==> y in elements) && Ascends(less, sorted)
    ensures Ascends(less, InsertBy(less, x, sorted))
  {
    if sorted != [] {
      assert sorted[0] in elements;
      if less(x, sorted[0]) {
        assert forall j :: 0 <= j < |sorted| ==> sorted[j] in elements;
      } else {
        assert forall j :: 0 < j < |sorted| ==> sorted[j] in sorted[1..];
        InsertAscends(less, x, sorted[1..], elements);
        InsertKeepsElements(less, x, sorted[1..]);
        var rest := InsertBy(less, x, sorted[1..]);
        assert forall j :: 0 <= j < |rest| ==> rest[j] in rest;
        assert forall y :: y in sorted[1..] ==> less(sorted[0], y);
      }
    }
  }

  // Distinct elements come out in ascending order.
  lemma {:induction false} SortAscends<T(!new)>(less: (T, T) -> bool, s: seq<T>, elements: set<T>)
    requires StrictOrderOn(less, elements) && forall y :: y in s ==> y in elements
    requires forall i, j :: 0 <= i < j < |s| ==> s[i] != s[j]
    ensures Ascends(less, SortBy(less, s))
  {
    if s != [] {
      assert s == [s[0]] + s[1..];
      assert forall y :: y in s[1..] ==> y in s;
      SortAscends(less, s[1..], elements);
      SortKeepsElements(less, s[1..]);
      assert s[0] !in s[1..];
      InsertAscends(less, s[0], SortBy(less, s[1..]), elements);
    }
  }

  lemma Member<T>(s: seq<T>) returns (x: T)
    requires s != []
    ensures x in s
  {
    x := s[0];
  }

  // Two ascending sequences of the same elements are the same.
  lemma {:induction false} AscendingIsUnique<T(!new)>(less: (T, T) -> bool, s: seq<T>, t: seq<T>, elements: set<T>)
    requires StrictOrderOn(less, elements) && Ascends(less, s) && Ascends(less, t)
    requires forall y :: y in s <==> y in t
    requires forall y :: y in s ==> y in elements
    ensures s == t
  {
    if s == [] {
      if t != [] {
        var first := Member(t);
      }
    } else {
      assert s[0] in t;
      FirstIsFirst(less, s, t, elements);
      TailOfAscending(less, s, elements);
      TailOfAscending(less, t, elements);
      assert forall y :: y in s[1..] ==> y in s;
      AscendingIsUnique(less, s[1..], t[1..], elements);
    }
  }

  lemma TailOfAscending<T(!new)>(less: (T, T) -> bool, s: seq<T>, elements: set<T>)
    requires StrictOrderOn(less, elements) && Ascends(less, s) && s != []
    requires forall y :: y in s ==> y in elements
    ensures forall y :: y in s[1..] <==> y in s && y != s[0]
  {
    assert s == [s[0]] + s[1..];
    forall k | 0 < k < |s| ensures s[k] != s[0] {
      assert less(s[0], s[k]) && s[k] in elements;
    }
  }

  lemma FirstIsFirst<T(!new)>(less: (T, T) -> bool, s: seq<T>, t: seq<T>, elements: set<T>)
    requires StrictOrderOn(less, elements) && Ascends(less, s) && Ascends(less, t)
    requires forall y :: y in s <==> y in t
    requires forall y :: y in s ==> y in elements
    requires s != []
    ensures t != [] && s[0] == t[0]
  {
    assert s[0] in t;
    assert t[0] in s;
    var i :| 0 <= i < |t| && t[i] == s[0];
    var j :| 0 <= j < |s| && s[j] == t[0];
    assert s[0] in elements && t[0] in elements;
    var first, other := s[0], t[0];
    assert i == 0 || less(other, first);
    assert j == 0 || less(first, other);
  }
}
