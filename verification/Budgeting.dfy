/** Follow-ups to a budgeting request: which retained facts a message may change
    (apps/engine/src/budgeting/budgeting-request.ts). */
module Budgeting {
  import opened Wrappers
  import Decimal

  datatype Money = Money(amount: string, currency: string)

  datatype Timeframe = Timeframe(start: string, end: Option<string>)

  datatype Category = Category(name: string, target: Option<Money>)

  /** BudgetingKnownInputsV1 without its evidence. */
  datatype Facts = Facts(
    priorities: Option<seq<string>>,
    timeframe: Option<Timeframe>,
    target: Option<Money>,
    categories: Option<seq<Category>>)

  datatype Span = Span(path: string, sourceQuote: string, start: nat, end: nat)

  /** The places a fact can stand in. */
  datatype Place = Priority(index: nat) | Start | End | Target | CategoryAt(index: nat)

  datatype Fact = Text(text: string) | Amount(money: Money) | Named(category: Category)

  function ItemAt<T>(items: Option<seq<T>>, index: nat): Option<T> {
    if items.Some? && index < |items.value| then Some(items.value[index]) else None
  }

  function FactAt(facts: Facts, place: Place): Option<Fact> {
    match place
    case Priority(i) => (match ItemAt(facts.priorities, i) case None => None case Some(text) => Some(Text(text)))
    case Start => if facts.timeframe.None? then None else Some(Text(facts.timeframe.value.start))
    case End =>
      if facts.timeframe.None? || facts.timeframe.value.end.None? then None
      else Some(Text(facts.timeframe.value.end.value))
    case Target => if facts.target.None? then None else Some(Amount(facts.target.value))
    case CategoryAt(i) => (match ItemAt(facts.categories, i) case None => None case Some(c) => Some(Named(c)))
  }

  function IndexedPath(list: string, index: nat): string {
    list + "[" + Decimal.Digits(index) + "]"
  }

  function PathOf(place: Place): string {
    match place
    case Priority(i) => IndexedPath("priorities", i)
    case Start => "timeframe.start"
    case End => "timeframe.end"
    case Target => "targetAmount"
    case CategoryAt(i) => IndexedPath("categories", i)
  }

  predicate StartsWith(s: string, prefix: string) {
    prefix <= s
  }

  predicate Covers(required: string, evidence: string) {
    || evidence == required
    || StartsWith(required, evidence + ".") || StartsWith(required, evidence + "[")
    || StartsWith(evidence, required + ".") || StartsWith(evidence, required + "[")
  }

  /** What may follow a path for it to be the path of something inside: nothing, a member or an index. */
  ghost predicate LeadsInside(rest: string) {
    rest == "" || rest[0] == '.' || rest[0] == '['
  }

  // A path covers another exactly if they are the same or one lies inside the other.
  lemma CoversIff(required: string, evidence: string)
    ensures Covers(required, evidence) <==>
      || (exists rest :: LeadsInside(rest) && required == evidence + rest)
      || (exists rest :: LeadsInside(rest) && evidence == required + rest)
  {
    if evidence == required {
      assert required == evidence + "" && LeadsInside("");
    } else if StartsWith(required, evidence + ".") || StartsWith(required, evidence + "[") {
      assert required == evidence + required[|evidence|..];
    } else if StartsWith(evidence, required + ".") || StartsWith(evidence, required + "[") {
      assert evidence == required + evidence[|required|..];
    }
    if rest :| LeadsInside(rest) && required == evidence + rest {
      InsideStartsWith(required, evidence, rest);
    }
    if rest :| LeadsInside(rest) && evidence == required + rest {
      InsideStartsWith(evidence, required, rest);
    }
  }

  lemma InsideStartsWith(inner: string, outer: string, rest: string)
    requires LeadsInside(rest) && inner == outer + rest
    ensures inner == outer || StartsWith(inner, outer + ".") || StartsWith(inner, outer + "[")
  {
    if rest == "" {
      assert inner == outer;
    } else {
      assert inner[..|outer| + 1] == outer + [rest[0]];
    }
  }

  predicate CategoryEqual(left: Category, right: Option<Category>) {
    right.Some? && left.name == right.value.name && (left.target.None? || left.target == right.value.target)
  }

  // ---------------------------------------------------------------- what changes

  /** Whether current states something else at a place than retained does. */
  predicate ChangesAt(current: Facts, retained: Facts, place: Place) {
    match place
    case Priority(i) =>
      ItemAt(current.priorities, i).Some? && ItemAt(retained.priorities, i) != ItemAt(current.priorities, i)
    case Start =>
      current.timeframe.Some?
      && (retained.timeframe.None? || retained.timeframe.value.start != current.timeframe.value.start)
    case End =>
      current.timeframe.Some? && current.timeframe.value.end.Some?
      && (retained.timeframe.None? || retained.timeframe.value.end != current.timeframe.value.end)
    case Target => current.target.Some? && current.target != retained.target
    case CategoryAt(i) =>
      ItemAt(current.categories, i).Some?
      && !CategoryEqual(ItemAt(current.categories, i).value, ItemAt(retained.categories, i))
  }

  ghost predicate Names(paths: seq<string>, places: seq<Place>) {
    |paths| == |places| && forall k :: 0 <= k < |paths| ==> paths[k] == PathOf(places[k])
  }

  /** changedBudgetFactPaths: a path for each changed place, and nothing else. */
  method ChangedBudgetFactPaths(current: Facts, retained: Facts) returns (paths: seq<string>)
    ensures forall path :: path in paths <==>
      exists place :: ChangesAt(current, retained, place) && PathOf(place) == path
    ensures paths == [] <==> !exists place :: ChangesAt(current, retained, place)
  {
    hide PathOf, CategoryEqual;
    ghost var places: seq<Place>;
    paths, places := [], [];
    if current.priorities.Some? {
      for i := 0 to |current.priorities.value|
        invariant Names(paths, places)
        invariant forall place :: place in places <==>
          place.Priority? && place.index < i && ChangesAt(current, retained, place)
      {
        if ItemAt(retained.priorities, i) != Some(current.priorities.value[i]) {
          paths, places := paths + [PathOf(Priority(i))], places + [Priority(i)];
        }
      }
    }
    if current.timeframe.Some? {
      if retained.timeframe.None? || retained.timeframe.value.start != current.timeframe.value.start {
        paths, places := paths + [PathOf(Start)], places + [Start];
      }
      if current.timeframe.value.end.Some?
        && (retained.timeframe.None? || retained.timeframe.value.end != current.timeframe.value.end) {
        paths, places := paths + [PathOf(End)], places + [End];
      }
    }
    if current.target.Some? && current.target != retained.target {
      paths, places := paths + [PathOf(Target)], places + [Target];
    }
    if current.categories.Some? {
      for i := 0 to |current.categories.value|
        invariant Names(paths, places)
        invariant forall place :: place in places <==>
          (place.CategoryAt? ==> place.index < i) && ChangesAt(current, retained, place)
      {
        if !CategoryEqual(current.categories.value[i], ItemAt(retained.categories, i)) {
          paths, places := paths + [PathOf(CategoryAt(i))], places + [CategoryAt(i)];
        }
      }
    }
    PathsNamePlaces(current, retained, paths, places);
  }

  // ---------------------------------------------------------------- merging

  function Longer<T>(retained: seq<T>, current: seq<T>): nat {
    if |retained| < |current| then |current| else |retained|
  }

  function MergeIndexedValues(retained: Option<seq<string>>, current: Option<seq<string>>): Option<seq<string>> {
    if retained.None? && current.None? then None
    else
      var before, stated := if retained.Some? then retained.value else [], if current.Some? then current.value else [];
      Some(seq(Longer(before, stated), i requires 0 <= i < Longer(before, stated) =>
        if i < |stated| then stated[i] else before[i]))
  }

  function MergeCategory(previous: Category, next: Category): Category {
    Category(next.name, if next.target.Some? then next.target else previous.target)
  }

  function MergeCategories(retained: Option<seq<Category>>, current: Option<seq<Category>>): Option<seq<Category>> {
    if retained.None? then current
    else if current.None? then retained
    else
      var before, stated := retained.value, current.value;
      Some(seq(Longer(before, stated), i requires 0 <= i < Longer(before, stated) =>
        if i >= |before| then stated[i] else if i >= |stated| then before[i] else MergeCategory(before[i], stated[i])))
  }

  function MergeTimeframe(retained: Option<Timeframe>, current: Option<Timeframe>): Option<Timeframe> {
    if current.None? then retained
    else Some(Timeframe(current.value.start,
      if current.value.end.Some? then current.value.end
      else if retained.Some? then retained.value.end else None))
  }

  function Merge(retained: Facts, current: Facts): Facts {
    Facts(MergeIndexedValues(retained.priorities, current.priorities),
          MergeTimeframe(retained.timeframe, current.timeframe),
          if current.target.Some? then current.target else retained.target,
          MergeCategories(retained.categories, current.categories))
  }

  // Merging changes a retained fact exactly at the places that are reported as changed.
  lemma MergeChangesTheChangedPlaces(retained: Facts, current: Facts, place: Place)
    ensures FactAt(Merge(retained, current), place) != FactAt(retained, place) <==> ChangesAt(current, retained, place)
  {
  }

  // No list gets shorter, no fact disappears, and what current states is what stands there now;
  // a category without a target keeps the one it had.
  lemma MergeKeepsAndAdopts(retained: Facts, current: Facts, place: Place)
    ensures FactAt(retained, place).Some? ==> FactAt(Merge(retained, current), place).Some?
    ensures FactAt(current, place).Some? && !place.CategoryAt? ==>
      FactAt(Merge(retained, current), place) == FactAt(current, place)
    ensures FactAt(current, place).Some? && place.CategoryAt? ==>
      var merged, stated := FactAt(Merge(retained, current), place), FactAt(current, place).value.category;
      && merged.Some? && merged.value.category.name == stated.name
      && (stated.target.Some? ==> merged.value.category.target == stated.target)
      && (stated.target.None? && FactAt(retained, place).Some? ==>
            merged.value.category.target == FactAt(retained, place).value.category.target)
    ensures retained.priorities.Some? ==>
      && Merge(retained, current).priorities.Some?
      && |retained.priorities.value| <= |Merge(retained, current).priorities.value|
    ensures retained.categories.Some? ==>
      && Merge(retained, current).categories.Some?
      && |retained.categories.value| <= |Merge(retained, current).categories.value|
  {
  }

  // A fixpoint: nothing that was merged is reported as changed again.
  lemma MergedIsUnchanged(retained: Facts, current: Facts, place: Place)
    ensures !ChangesAt(current, Merge(retained, current), place)
  {
  }

  // ---------------------------------------------------------------- evidence

  /** The words of a message and, for the quotes themselves, whether the instruction contains them
      after normalization. */
  datatype Source = Source(body: string, inInstruction: string -> bool)

  predicate QuotesTheBody(source: Source, span: Span) {
    span.start <= span.end <= |source.body| && source.body[span.start..span.end] == span.sourceQuote
  }

  /** The quote is what the body says between the two offsets, or it stands in the instruction. */
  ghost predicate Grounded(source: Source, span: Span) {
    || (span.start <= span.end <= |source.body| && span.sourceQuote == source.body[span.start..span.end])
    || source.inInstruction(span.sourceQuote)
  }

  lemma QuotedIsGrounded(source: Source, span: Span)
    ensures Grounded(source, span) <==> QuotesTheBody(source, span) || source.inInstruction(span.sourceQuote)
  {
  }

  function Candidates(evidence: seq<Span>, paths: seq<string>): (candidates: seq<Span>)
    ensures forall span :: span in candidates <==>
      span in evidence && exists path :: path in paths && Covers(path, span.path)
  {
    if evidence == [] then []
    else
      assert evidence == [evidence[0]] + evidence[1..];
      (if exists path :: path in paths && Covers(path, evidence[0].path) then [evidence[0]] else [])
        + Candidates(evidence[1..], paths)
  }

  /** budgetingEvidenceCoversPaths. */
  predicate CoversAll(spans: seq<Span>, paths: seq<string>) {
    forall path :: path in paths ==> exists span :: span in spans && Covers(path, span.path)
  }

  /** A follow-up is taken over if its changes are all covered and their evidence is grounded. */
  predicate Accepted(source: Source, evidence: seq<Span>, paths: seq<string>) {
    var candidates := Candidates(evidence, paths);
    && ((forall span :: span in candidates ==> QuotesTheBody(source, span))
        || (forall span :: span in candidates ==> source.inInstruction(span.sourceQuote)))
    && CoversAll(candidates, paths)
  }

  /** prepareBudgetingDraft for a compatible continuation: the known facts it settles on. */
  method Prepare(source: Source, current: Facts, evidence: Option<seq<Span>>, retained: Facts) returns (known: Facts)
    ensures known == retained || known == Merge(retained, current)
    ensures forall place :: FactAt(known, place) != FactAt(retained, place) ==>
      evidence.Some?
      && exists span :: span in evidence.value && Covers(PathOf(place), span.path) && Grounded(source, span)
    ensures forall place :: FactAt(retained, place).Some? ==> FactAt(known, place).Some?
    ensures known == Prepared(source, current, evidence, retained)
  {
    hide ChangesAt, Covers, PathOf, QuotesTheBody, Candidates, Merge, FactAt, Accepted, ChangesAccepted;
    var paths := ChangedBudgetFactPaths(current, retained);
    var spans := if evidence.Some? then evidence.value else [];
    PathsAreSettled(current, retained, paths, spans, source);
    if paths == [] || !Accepted(source, spans, paths) {
      return retained;
    }
    known := Merge(retained, current);
    forall place ensures FactAt(known, place) != FactAt(retained, place) ==>
      exists span :: span in spans && Covers(PathOf(place), span.path) && Grounded(source, span)
    {
      MergeChangesTheChangedPlaces(retained, current, place);
      if ChangesAt(current, retained, place) {
        AcceptedIsGrounded(source, spans, current, retained, place);
      }
    }
    forall place ensures FactAt(retained, place).Some? ==> FactAt(known, place).Some? {
      MergeKeepsAndAdopts(retained, current, place);
    }
  }

  // Each accepted change is covered by a span of the evidence that is grounded.
  lemma AcceptedIsGrounded(source: Source, spans: seq<Span>, current: Facts, retained: Facts, place: Place)
    requires ChangesAccepted(source, spans, current, retained) && ChangesAt(current, retained, place)
    ensures exists span :: span in spans && Covers(PathOf(place), span.path) && Grounded(source, span)
  {
    hide ChangesAt, Covers, PathOf, QuotesTheBody, Grounded;
    var span :| IsCandidate(spans, current, retained, span) && Covers(PathOf(place), span.path);
    QuotedIsGrounded(source, span);
  }

  /** The same as a function: the order of the paths is of no consequence. */
  ghost function Prepared(source: Source, current: Facts, evidence: Option<seq<Span>>, retained: Facts): Facts {
    var spans := if evidence.Some? then evidence.value else [];
    if (exists place :: ChangesAt(current, retained, place)) && ChangesAccepted(source, spans, current, retained)
    then Merge(retained, current) else retained
  }

  ghost predicate IsCandidate(spans: seq<Span>, current: Facts, retained: Facts, span: Span) {
    span in spans && exists place :: ChangesAt(current, retained, place) && Covers(PathOf(place), span.path)
  }

  ghost predicate ChangesAccepted(source: Source, spans: seq<Span>, current: Facts, retained: Facts) {
    && ((forall span :: IsCandidate(spans, current, retained, span) ==> QuotesTheBody(source, span))
        || (forall span :: IsCandidate(spans, current, retained, span) ==> source.inInstruction(span.sourceQuote)))
    && ChangesCovered(spans, current, retained)
  }

  ghost predicate ChangesCovered(spans: seq<Span>, current: Facts, retained: Facts) {
    forall place :: ChangesAt(current, retained, place) ==>
      exists span :: IsCandidate(spans, current, retained, span) && Covers(PathOf(place), span.path)
  }

  lemma PathsNamePlaces(current: Facts, retained: Facts, paths: seq<string>, places: seq<Place>)
    requires Names(paths, places) && forall place :: place in places <==> ChangesAt(current, retained, place)
    ensures forall path :: path in paths <==>
      exists place :: ChangesAt(current, retained, place) && PathOf(place) == path
    ensures paths == [] <==> !exists place :: ChangesAt(current, retained, place)
  {
    hide ChangesAt, PathOf;
    forall path
      ensures path in paths <==> exists place :: ChangesAt(current, retained, place) && PathOf(place) == path
    {
      if path in paths {
        var k :| 0 <= k < |paths| && paths[k] == path;
        assert places[k] in places;
      }
      if place :| ChangesAt(current, retained, place) && PathOf(place) == path {
        var k :| 0 <= k < |places| && places[k] == place;
        assert paths[k] == path;
      }
    }
    assert paths != [] ==> places[0] in places;
  }

  lemma PathsAreSettled(current: Facts, retained: Facts, paths: seq<string>, spans: seq<Span>, source: Source)
    requires forall path :: path in paths <==>
      exists place :: ChangesAt(current, retained, place) && PathOf(place) == path
    ensures Accepted(source, spans, paths) <==> ChangesAccepted(source, spans, current, retained)
  {
    hide ChangesAt, Covers, PathOf, QuotesTheBody, Candidates, CoversAll, ChangesCovered;
    var candidates := Candidates(spans, paths);
    forall span ensures span in candidates <==> IsCandidate(spans, current, retained, span) {
    }
    CoverageAgrees(current, retained, paths, spans, candidates);
  }

  lemma CoverageAgrees(current: Facts, retained: Facts, paths: seq<string>, spans: seq<Span>, candidates: seq<Span>)
    requires forall path :: path in paths <==>
      exists place :: ChangesAt(current, retained, place) && PathOf(place) == path
    requires forall span :: span in candidates <==> IsCandidate(spans, current, retained, span)
    ensures CoversAll(candidates, paths) <==> ChangesCovered(spans, current, retained)
  {
    hide ChangesAt, Covers, PathOf, IsCandidate;
    if CoversAll(candidates, paths) {
      forall place | ChangesAt(current, retained, place)
        ensures exists span :: IsCandidate(spans, current, retained, span) && Covers(PathOf(place), span.path)
      {
        assert PathOf(place) in paths;
        var span :| span in candidates && Covers(PathOf(place), span.path);
      }
    }
    if ChangesCovered(spans, current, retained) {
      forall path | path in paths ensures exists span :: span in candidates && Covers(path, span.path) {
        var place :| ChangesAt(current, retained, place) && PathOf(place) == path;
        var span :| IsCandidate(spans, current, retained, span) && Covers(PathOf(place), span.path);
        assert span in candidates;
      }
    }
  }

  // Resending the same follow-up changes nothing more, whether it was taken over or not.
  lemma PreparingTwice(source: Source, current: Facts, evidence: Option<seq<Span>>, retained: Facts)
    ensures var once := Prepared(source, current, evidence, retained);
      Prepared(source, current, evidence, once) == once
  {
    var once := Prepared(source, current, evidence, retained);
    forall place | once == Merge(retained, current) ensures !ChangesAt(current, once, place) {
      MergedIsUnchanged(retained, current, place);
    }
  }

  // ---------------------------------------------------------------- evidence for one place

  lemma DelimitersInPaths(place: Place)
    ensures |PathOf(place)| >= 12
    ensures forall k :: 0 <= k < |PathOf(place)| && PathOf(place)[k] == '.' ==> k == 9
    ensures forall k :: 0 <= k < |PathOf(place)| && PathOf(place)[k] == '[' ==> k == 10
  {
    match place
    case Priority(i) => DelimitersInIndexedPath("priorities", i);
    case CategoryAt(i) => DelimitersInIndexedPath("categories", i);
    case _ =>
  }

  lemma {:induction false} DelimitersInIndexedPath(list: string, index: nat)
    requires |list| == 10 && '.' !in list && '[' !in list
    ensures var path := IndexedPath(list, index);
      && |path| >= 13 && path[..10] == list
      && Decimal.Digits(index) == path[11..|path| - 1]
      && forall k :: 0 <= k < |path| ==> path[k] != '.' && (path[k] == '[' ==> k == 10)
  {
    hide Decimal.Digits, Decimal.Value;
    Decimal.DigitsAreTheValue(index);
    var path, digits := IndexedPath(list, index), Decimal.Digits(index);
    forall k | 0 <= k < |path| ensures path[k] != '.' && (path[k] == '[' ==> k == 10) {
      if k < 10 {
        assert path[k] == list[k] && list[k] in list;
      } else if 10 < k < |path| - 1 {
        assert path[k] == digits[k - 11];
      }
    }
  }

  /** Reads the place back from its path. */
  function PlaceFrom(path: string): Place {
    if |path| < 13 || path[10] != '[' then
      (if path == "timeframe.start" then Start else if path == "timeframe.end" then End else Target)
    else
      var value := Decimal.Value(path[11..|path| - 1]);
      var index := if value < 0 then 0 else value;
      if path[0] == 'p' then Priority(index) else CategoryAt(index)
  }

  lemma PathReadsBack(place: Place)
    ensures PlaceFrom(PathOf(place)) == place
  {
    hide Decimal.Digits, Decimal.Value;
    match place
    case Priority(i) =>
      DelimitersInIndexedPath("priorities", i);
      Decimal.DigitsAreTheValue(i);
      assert PathOf(place)[0] == PathOf(place)[..10][0];
    case CategoryAt(i) =>
      DelimitersInIndexedPath("categories", i);
      Decimal.DigitsAreTheValue(i);
      assert PathOf(place)[0] == PathOf(place)[..10][0];
    case _ =>
  }

  // Evidence given for one place is no evidence for another: paths of different items do not
  // cover each other, not even categories[1] and categories[10].
  lemma PlacesDoNotCoverEachOther(place: Place, other: Place)
    ensures Covers(PathOf(place), PathOf(other)) <==> place == other
  {
    hide PathOf;
    DelimitersInPaths(place);
    DelimitersInPaths(other);
    PathReadsBack(place);
    PathReadsBack(other);
    NoExtension(PathOf(place), PathOf(other));
    NoExtension(PathOf(other), PathOf(place));
  }

  lemma NoExtension(path: string, other: string)
    requires |other| >= 12
    requires forall k :: 0 <= k < |path| && path[k] == '.' ==> k == 9
    requires forall k :: 0 <= k < |path| && path[k] == '[' ==> k == 10
    ensures !StartsWith(path, other + ".") && !StartsWith(path, other + "[")
  {
    assert (other + ".")[|other|] == '.' && (other + "[")[|other|] == '[';
  }
}
