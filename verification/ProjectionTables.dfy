/** The projection tables of one household and the operations on them: posting a journal, the drift
    checks, the rebuild, and the close of a day (packages/accounting/src/posting,
    packages/reporting/src). */
module ProjectionTables {
  import opened Wrappers
  import opened Ledger
  import opened Projections

  datatype DailyRow = DailyRow(native: int, reporting: int)

  datatype NetWorthRow = NetWorthRow(assets: int, liabilities: int, netWorth: int)

  type DailyTable = map<(AccountId, Date), DailyRow>

  datatype Key = CurrentBalances | DailyBalances | NetWorth

  datatype DriftRecord = DriftRecord(
    key: Key, account: Option<AccountId>, date: Date, projected: int, authoritative: int, resolved: bool)

  /** What a caller posts: accounts, directions and amounts. */
  datatype Line = Line(account: AccountId, direction: Direction, amount: int)

  // ---------------------------------------------------------------- closing a day

  /** The first statement of ProjectionFinalizer.finalizeDay. */
  function Closed(current: Table, daily: DailyTable, date: Date): DailyTable {
    daily + map id | id in current && current[id].asOf <= date ::
      (id, date) := DailyRow(current[id].native, current[id].reporting)
  }

  function DayRows(daily: DailyTable, date: Date): map<AccountId, DailyRow> {
    map key | key in daily && key.1 == date :: key.0 := daily[key]
  }

  function ClassOf(books: Books, id: AccountId): Class {
    if id in books.accounts then books.accounts[id].accountingClass else OtherClass
  }

  function AssetAmount(books: Books, id: AccountId, amount: int): int {
    if ClassOf(books, id) == Asset then amount else 0
  }

  function LiabilityAmount(books: Books, id: AccountId, amount: int): int {
    if ClassOf(books, id) == Liability then amount else 0
  }

  function NetAmount(books: Books, id: AccountId, amount: int): int {
    match ClassOf(books, id)
    case Asset => amount
    case Liability => -amount
    case OtherClass => 0
  }

  function Assets(books: Books, rows: map<AccountId, DailyRow>): map<AccountId, int> {
    map id | id in rows :: AssetAmount(books, id, rows[id].reporting)
  }

  function Liabilities(books: Books, rows: map<AccountId, DailyRow>): map<AccountId, int> {
    map id | id in rows :: LiabilityAmount(books, id, rows[id].reporting)
  }

  function Nets(books: Books, rows: map<AccountId, DailyRow>): map<AccountId, int> {
    map id | id in rows :: NetAmount(books, id, rows[id].reporting)
  }

  /** The rows of one accounting class, as the statements join them. */
  ghost function OfClass(books: Books, rows: map<AccountId, DailyRow>, kind: Class): map<AccountId, int> {
    map id | id in rows && id in books.accounts && books.accounts[id].accountingClass == kind :: rows[id].reporting
  }

  // A row for one more account moves the three totals as the account's class says.
  lemma RowMovesTotals(books: Books, rows: map<AccountId, DailyRow>, id: AccountId, row: DailyRow)
    requires id !in rows && id in books.accounts
    ensures var more, r := rows[id := row], row.reporting;
      var assets := Total(Assets(books, more)) - Total(Assets(books, rows));
      var liabilities := Total(Liabilities(books, more)) - Total(Liabilities(books, rows));
      var net := Total(Nets(books, more)) - Total(Nets(books, rows));
      match books.accounts[id].accountingClass
      case Asset => assets == r && liabilities == 0 && net == r
      case Liability => assets == 0 && liabilities == r && net == -r
      case OtherClass => assets == 0 && liabilities == 0 && net == 0
  {
    var more := rows[id := row];
    assert more - {id} == rows;
    TotalTakesAny(Assets(books, more), id);
    TotalTakesAny(Liabilities(books, more), id);
    TotalTakesAny(Nets(books, more), id);
    assert Assets(books, more) - {id} == Assets(books, rows);
    assert Liabilities(books, more) - {id} == Liabilities(books, rows);
    assert Nets(books, more) - {id} == Nets(books, rows);
  }

  // So the two sums are over the rows of the accounts of that class, and nothing else.
  lemma {:induction false} TotalsAreByClass(books: Books, rows: map<AccountId, DailyRow>)
    ensures Total(Assets(books, rows)) == Total(OfClass(books, rows, Asset))
    ensures Total(Liabilities(books, rows)) == Total(OfClass(books, rows, Liability))
  {
    ClassPart(Assets(books, rows), OfClass(books, rows, Asset));
    ClassPart(Liabilities(books, rows), OfClass(books, rows, Liability));
  }

  lemma {:induction false} ClassPart(all: map<AccountId, int>, part: map<AccountId, int>)
    requires part.Keys <= all.Keys
    requires forall id :: id in all ==> all[id] == if id in part then part[id] else 0
    ensures Total(all) == Total(part)
  {
    TotalOfParts(all, part.Keys);
    TotalOfZeros(all - part.Keys);
    assert (map id | id in part.Keys :: all[id]) == part;
  }

  lemma NetWorthIsAssetsMinusLiabilities(books: Books, rows: map<AccountId, DailyRow>)
    ensures Total(Nets(books, rows)) == Total(Assets(books, rows)) - Total(Liabilities(books, rows))
  {
    TotalIsLinear(Assets(books, rows), Liabilities(books, rows), Nets(books, rows));
  }

  /** The rows checkDailyBalanceDrift selects. */
  function DailyDrifted(current: Table, daily: DailyTable, date: Date): set<AccountId> {
    set id | id in current && current[id].asOf <= date && (id, date) in daily
          && daily[(id, date)].native != current[id].native
  }

  lemma NothingDriftsRightAfter(current: Table, daily: DailyTable, date: Date)
    ensures DailyDrifted(current, Closed(current, daily, date), date) == {}
  {
  }

  // ---------------------------------------------------------------- what a closed day says

  /** An account's balance at the end of a day, as it reports. */
  ghost function DayBalance(books: Books, journals: seq<Journal>, postings: seq<Posting>, id: AccountId, date: Date)
    : int
    requires Refers(books, journals, postings) && id in books.accounts
  {
    if SameCurrency(books, id) then Sum(books, journals, postings, id, UpTo(date)) else 0
  }

  /** The household's net worth at the end of a day. */
  ghost function TrueNets(books: Books, journals: seq<Journal>, postings: seq<Posting>, date: Date): map<AccountId, int>
    requires Refers(books, journals, postings)
  {
    map id | id in books.accounts && Touches(journals, postings, id, All) ::
      NetAmount(books, id, DayBalance(books, journals, postings, id, date))
  }

  /** The accounts with a posting dated after the day. */
  ghost function Omitted(books: Books, journals: seq<Journal>, postings: seq<Posting>, date: Date): set<AccountId>
    requires Refers(books, journals, postings)
  {
    set id | id in books.accounts && Touches(journals, postings, id, Later(date))
  }

  lemma {:induction false} LatestDateIsReached(journals: seq<Journal>, postings: seq<Posting>, id: AccountId)
    requires forall i :: 0 <= i < |postings| ==> postings[i].journal < |journals|
    requires LatestDate(journals, postings, id, All).Some?
    ensures exists i :: (0 <= i < |postings| && postings[i].account == id
              && journals[postings[i].journal].effectiveOn == LatestDate(journals, postings, id, All).value)
  {
    var last := |postings| - 1;
    if postings[last].account != id
      || LatestDate(journals, postings, id, All).value != journals[postings[last].journal].effectiveOn {
      LatestDateIsReached(journals, postings[..last], id);
      var i :| 0 <= i < last && postings[..last][i].account == id
            && journals[postings[..last][i].journal].effectiveOn
              == LatestDate(journals, postings[..last], id, All).value;
      assert postings[..last][i] == postings[i];
    }
  }

  lemma {:induction false} LatestAgainstLater(journals: seq<Journal>, postings: seq<Posting>, id: AccountId,
                                              date: Date)
    requires forall i :: 0 <= i < |postings| ==> postings[i].journal < |journals|
    requires Touches(journals, postings, id, All)
    ensures LatestDate(journals, postings, id, All).Some?
    ensures date < LatestDate(journals, postings, id, All).value <==> Touches(journals, postings, id, Later(date))
  {
    LatestDateIsReached(journals, postings, id);
    LatestDateBounds(journals, postings, id, All);
    if date < LatestDate(journals, postings, id, All).value {
      var i :| 0 <= i < |postings| && postings[i].account == id
            && journals[postings[i].journal].effectiveOn == LatestDate(journals, postings, id, All).value;
      assert InWindow(journals, postings[i], Later(date));
    }
  }

  // A daily row written for a day is the account's true balance at the end of that day, and the
  // accounts that get one are exactly those without a later posting.
  lemma {:induction false} ClosedRowIsTheDaysBalance(books: Books, journals: seq<Journal>, postings: seq<Posting>,
                                                     daily: DailyTable, date: Date, id: AccountId)
    requires Refers(books, journals, postings)
    requires id in books.accounts && Touches(journals, postings, id, All)
    ensures var after := Closed(Folded(books, journals, postings), daily, date);
      if id in Omitted(books, journals, postings, date) then
        ((id, date) in after <==> (id, date) in daily)
          && ((id, date) in after ==> after[(id, date)] == daily[(id, date)])
      else
        (id, date) in after
        && after[(id, date)].native == Sum(books, journals, postings, id, UpTo(date))
        && after[(id, date)].reporting == DayBalance(books, journals, postings, id, date)
  {
    hide Sum, LatestDate, LastJournal, Touches, InWindow;
    LatestAgainstLater(journals, postings, id, date);
    SumSplitsAtDate(books, journals, postings, id, date);
    if !Touches(journals, postings, id, Later(date)) {
      UntouchedSumsToZero(books, journals, postings, id, Later(date));
    }
  }

  // The net worth of a day closed for the first time is the true one less whatever the omitted
  // accounts held: it is right if and only if that nets to zero.
  lemma ClosedNetWorthMissesTheOmitted(books: Books, journals: seq<Journal>, postings: seq<Posting>, daily: DailyTable,
                                       date: Date)
    requires Refers(books, journals, postings) && forall id :: (id, date) !in daily
    ensures var trueNets, omitted := TrueNets(books, journals, postings, date),
                                     Omitted(books, journals, postings, date);
      && omitted <= trueNets.Keys
      && Total(Nets(books, DayRows(Closed(Folded(books, journals, postings), daily, date), date)))
           == Total(trueNets) - Total(map id | id in omitted :: trueNets[id])
  {
    hide Sum, LatestDate, LastJournal, Touches, DayBalance, NetAmount;
    var table, omitted := Folded(books, journals, postings), Omitted(books, journals, postings, date);
    var trueNets := TrueNets(books, journals, postings, date);
    var after := Closed(table, daily, date);
    forall id | id in omitted ensures Touches(journals, postings, id, All) {
      LaterIsSome(journals, postings, id, date);
    }
    forall id | id in trueNets
      ensures (id, date) in after <==> id !in omitted
      ensures id !in omitted ==> after[(id, date)].reporting == DayBalance(books, journals, postings, id, date)
    {
      ClosedRowIsTheDaysBalance(books, journals, postings, daily, date, id);
    }
    TotalOfParts(trueNets, omitted);
    NetsOfDay(books, after, trueNets - omitted, date);
  }

  lemma LaterIsSome(journals: seq<Journal>, postings: seq<Posting>, id: AccountId, date: Date)
    requires forall i :: 0 <= i < |postings| ==> postings[i].journal < |journals|
    requires Touches(journals, postings, id, Later(date))
    ensures Touches(journals, postings, id, All)
  {
    var i :| 0 <= i < |postings| && postings[i].account == id && InWindow(journals, postings[i], Later(date));
    assert InWindow(journals, postings[i], All);
  }

  lemma NetsOfDay(books: Books, daily: DailyTable, nets: map<AccountId, int>, date: Date)
    requires forall id :: (id, date) in daily <==> id in nets
    requires forall id :: id in nets ==> nets[id] == NetAmount(books, id, daily[(id, date)].reporting)
    ensures Nets(books, DayRows(daily, date)) == nets
  {
    var rows := DayRows(daily, date);
    forall id ensures id in rows <==> id in nets {
      if id in nets {
        assert (id, date) in daily;
      }
    }
  }

  // One more journal after the close of a day: the day's check reports an account that had nothing
  // dated later exactly if the journal is dated on or before that day and moves the account, and
  // it never reports an account that had.
  lemma {:induction false} DailyDriftAfterPosting(books: Books, journals: seq<Journal>, postings: seq<Posting>,
                                                  journal: Journal, rows: seq<Posting>, daily: DailyTable, date: Date,
                                                  id: AccountId)
    requires Refers(books, journals, postings) && id in books.accounts && Touches(journals, postings, id, All)
    requires NewRows(journals, rows) && Refers(books, journals + [journal], rows)
    ensures Refers(books, journals + [journal], postings + rows)
    ensures var js, ps := journals + [journal], postings + rows;
      var reported := DailyDrifted(Folded(books, js, ps), Closed(Folded(books, journals, postings), daily, date), date);
      && (LatestDate(journals, postings, id, All).value <= date ==>
            (id in reported <==> journal.effectiveOn <= date && Sum(books, js, rows, id, All) != 0))
      && (date < LatestDate(journals, postings, id, All).value ==> id !in reported)
  {
    hide Sum, Touches, LatestDate, LastJournal, InWindow;
    AccountAfterJournal(books, journals, postings, journal, rows, id);
    RowAfterJournal(books, journals, postings, journal, rows, id);
  }

  // ---------------------------------------------------------------- the tables

  ghost predicate Reports(records: seq<DriftRecord>, id: AccountId) {
    exists i :: 0 <= i < |records| && records[i].account == Some(id)
  }

  lemma OneMoreReport(records: seq<DriftRecord>, record: DriftRecord, id: AccountId)
    ensures Reports(records + [record], id) <==> Reports(records, id) || record.account == Some(id)
  {
    var more := records + [record];
    if i :| 0 <= i < |records| && records[i].account == Some(id) {
      assert more[i] == records[i];
    }
    assert more[|records|] == record;
  }

  method SumUp(amounts: map<AccountId, int>) returns (total: int)
    ensures total == Total(amounts)
  {
    var rest := amounts;
    total := 0;
    while rest != map[]
      invariant total + Total(rest) == Total(amounts)
      decreases |rest|
    {
      var id :| id in rest;
      TotalTakesAny(rest, id);
      total := total + rest[id];
      rest := rest - {id};
    }
  }

  class Tables {
    const books: Books
    var journals: seq<Journal>
    var postings: seq<Posting>
    var current: Table
    var daily: DailyTable
    var netWorth: map<Date, NetWorthRow>
    var drift: seq<DriftRecord>
    var health: map<(Key, Date), nat>

    ghost predicate Valid()
      reads this
    {
      Refers(books, journals, postings)
    }

    /** The balance table holds the fold over all postings. */
    ghost predicate Maintained()
      reads this
      requires Valid()
    {
      current == Folded(books, journals, postings)
    }

    /** How far the account's native and reporting amounts are from what its postings amount to. */
    ghost function Errors(id: AccountId): (int, int)
      reads this
      requires Valid() && id in books.accounts
    {
      (NativeError(books, journals, postings, current, id), ReportingError(books, journals, postings, current, id))
    }

    constructor (books: Books)
      ensures Valid() && Maintained() && this.books == books && journals == [] && postings == []
    {
      this.books := books;
      journals, postings, current, daily, netWorth, drift, health := [], [], map[], map[], map[], [], map[];
    }

    /** JournalPostingService.postInTransaction: the journal, its postings one by one, and the
        projection; an unknown account rolls everything back. */
    method Post(effectiveOn: Date, lines: seq<Line>) returns (posted: bool)
      requires Valid()
      modifies this`journals, this`postings, this`current
      ensures Valid()
      ensures posted <==> forall line :: line in lines ==> line.account in books.accounts
      ensures !posted ==> journals == old(journals) && postings == old(postings) && current == old(current)
      ensures posted ==> journals == old(journals) + [Journal(effectiveOn)]
      ensures posted ==> postings == old(postings) + RowsOf(|old(journals)|, lines)
      ensures posted ==> current == Upserted(books, journals, postings, old(current), |old(journals)|)
      ensures old(Maintained()) ==> Maintained()
      ensures forall id :: id in books.accounts ==> Errors(id) == old(Errors(id))
    {
      if line :| line in lines && line.account !in books.accounts {
        return false;
      }
      ghost var before := postings;
      var journal := |journals|;
      journals := journals + [Journal(effectiveOn)];
      for i := 0 to |lines|
        invariant journals == old(journals) + [Journal(effectiveOn)] && current == old(current)
        invariant postings == before + RowsOf(journal, lines[..i])
      {
        postings := postings + [Posting(journal, lines[i].account, lines[i].direction, lines[i].amount)];
        assert RowsOf(journal, lines[..i + 1])
            == RowsOf(journal, lines[..i]) + [Posting(journal, lines[i].account, lines[i].direction, lines[i].amount)];
      }
      assert lines[..|lines|] == lines;
      UpsertRefinesFold(books, old(journals), before, Journal(effectiveOn), RowsOf(journal, lines));
      forall id | id in books.accounts
        ensures (NativeError(books, journals, postings, Upserted(books, journals, postings, current, journal), id),
                 ReportingError(books, journals, postings, Upserted(books, journals, postings, current, journal), id))
             == old(Errors(id))
      {
        UpsertKeepsErrors(books, old(journals), before, Journal(effectiveOn), RowsOf(journal, lines), current, id);
      }
      current := Upserted(books, journals, postings, current, journal);
      return true;
    }

    /** The rows are recorded one by one, in whatever order they come. */
    method CheckCurrentBalanceDrift(asOf: Date) returns (reported: seq<DriftRecord>)
      requires Valid()
      modifies this`drift, this`health
      ensures drift == old(drift) + reported
      ensures health == old(health)[(CurrentBalances, asOf) := |Drifted(books, journals, postings, current, asOf)|]
      ensures |reported| == |Drifted(books, journals, postings, current, asOf)|
      ensures forall id :: id in Drifted(books, journals, postings, current, asOf) <==> Reports(reported, id)
      ensures forall record :: record in reported ==>
        record.account.Some? && record.account.value in current && record.account.value in books.accounts
        && record == DriftRecord(CurrentBalances, record.account, asOf, current[record.account.value].native,
                                 Sum(books, journals, postings, record.account.value, UpTo(asOf)), false)
    {
      var drifted := Drifted(books, journals, postings, current, asOf);
      var pending := drifted;
      reported := [];
      while pending != {}
        invariant pending <= drifted && |reported| + |pending| == |drifted|
        invariant drift == old(drift) + reported && health == old(health)
        invariant forall id :: id in drifted - pending <==> Reports(reported, id)
        invariant forall record :: record in reported ==>
          record.account.Some? && record.account.value in drifted
          && record == DriftRecord(CurrentBalances, record.account, asOf, current[record.account.value].native,
                                   Sum(books, journals, postings, record.account.value, UpTo(asOf)), false)
        decreases |pending|
      {
        var id :| id in pending;
        var record := DriftRecord(CurrentBalances, Some(id), asOf, current[id].native,
                                  Sum(books, journals, postings, id, UpTo(asOf)), false);
        forall other ensures Reports(reported + [record], other) <==> Reports(reported, other) || other == id {
          OneMoreReport(reported, record, other);
        }
        reported := reported + [record];
        drift := drift + [record];
        pending := pending - {id};
      }
      health := health[(CurrentBalances, asOf) := |drifted|];
    }

    /** The table is emptied and filled from the postings, and open drift records are closed. */
    method RebuildCurrentBalances(asOf: Date)
      requires Valid()
      modifies this`current, this`drift
      ensures Valid() && current == Rebuilt(books, journals, postings, asOf)
      ensures forall id :: id in books.accounts && SameCurrency(books, id) ==>
        var later := Sum(books, journals, postings, id, Later(asOf)); Errors(id) == (-later, -later)
      ensures forall id :: id in books.accounts && !SameCurrency(books, id) ==>
        Errors(id) == (-Sum(books, journals, postings, id, All), Sum(books, journals, postings, id, UpTo(asOf)))
      ensures |drift| == |old(drift)|
      ensures forall i :: 0 <= i < |drift| ==>
        drift[i] == old(drift)[i].(resolved := old(drift)[i].resolved || old(drift)[i].key == CurrentBalances)
    {
      hide Sum, NativeError, ReportingError, Rebuilt;
      current := map[];
      current := current + Rebuilt(books, journals, postings, asOf);
      assert map[] + Rebuilt(books, journals, postings, asOf) == Rebuilt(books, journals, postings, asOf);
      forall id | id in books.accounts
        ensures var later := Sum(books, journals, postings, id, Later(asOf));
          && (SameCurrency(books, id) ==> Errors(id) == (-later, -later))
          && (!SameCurrency(books, id) ==>
                Errors(id) == (-Sum(books, journals, postings, id, All),
                               Sum(books, journals, postings, id, UpTo(asOf))))
      {
        ErrorsOfRebuilt(books, journals, postings, asOf, id);
      }
      drift := seq(|drift|, i requires 0 <= i < |drift| reads this =>
        if drift[i].key == CurrentBalances then drift[i].(resolved := true) else drift[i]);
    }

    /** The day's balances, then the net worth from the daily rows of that day. Right after it both
        daily checks have nothing to report. */
    method FinalizeDay(date: Date)
      modifies this`daily, this`netWorth
      ensures daily == Closed(current, old(daily), date)
      ensures netWorth.Keys == old(netWorth).Keys + {date}
      ensures forall other :: other in old(netWorth) && other != date ==> netWorth[other] == old(netWorth)[other]
      ensures netWorth[date].assets == Total(Assets(books, DayRows(daily, date)))
      ensures netWorth[date].liabilities == Total(Liabilities(books, DayRows(daily, date)))
      ensures netWorth[date].assets == Total(OfClass(books, DayRows(daily, date), Asset))
      ensures netWorth[date].liabilities == Total(OfClass(books, DayRows(daily, date), Liability))
      ensures netWorth[date].netWorth == netWorth[date].assets - netWorth[date].liabilities
      ensures netWorth[date].netWorth == Total(Nets(books, DayRows(daily, date)))
      ensures DailyDrifted(current, daily, date) == {}
    {
      hide Assets, Liabilities, Nets, OfClass, DayRows, Closed, DailyDrifted;
      NothingDriftsRightAfter(current, daily, date);
      daily := Closed(current, daily, date);
      var rows := DayRows(daily, date);
      var assets := SumUp(Assets(books, rows));
      var liabilities := SumUp(Liabilities(books, rows));
      var net := SumUp(Nets(books, rows));
      NetWorthIsAssetsMinusLiabilities(books, rows);
      TotalsAreByClass(books, rows);
      netWorth := netWorth[date := NetWorthRow(assets, liabilities, net)];
    }

    /** checkDailyBalanceDrift: the rows of that day against the balance table. */
    method CheckDailyBalanceDrift(date: Date) returns (reported: seq<DriftRecord>)
      modifies this`drift, this`health
      ensures drift == old(drift) + reported
      ensures health == old(health)[(DailyBalances, date) := |DailyDrifted(current, daily, date)|]
      ensures |reported| == |DailyDrifted(current, daily, date)|
      ensures forall id :: id in DailyDrifted(current, daily, date) <==> Reports(reported, id)
      ensures forall record :: record in reported ==>
        record.account.Some? && record.account.value in current && (record.account.value, date) in daily
        && record == DriftRecord(DailyBalances, record.account, date, daily[(record.account.value, date)].native,
                                 current[record.account.value].native, false)
    {
      var drifted := DailyDrifted(current, daily, date);
      var pending := drifted;
      reported := [];
      while pending != {}
        invariant pending <= drifted && |reported| + |pending| == |drifted|
        invariant drift == old(drift) + reported && health == old(health)
        invariant forall id :: id in drifted - pending <==> Reports(reported, id)
        invariant forall record :: record in reported ==>
          record.account.Some? && record.account.value in drifted
          && record == DriftRecord(DailyBalances, record.account, date, daily[(record.account.value, date)].native,
                                   current[record.account.value].native, false)
        decreases |pending|
      {
        var id :| id in pending;
        var record := DriftRecord(DailyBalances, Some(id), date, daily[(id, date)].native, current[id].native, false);
        forall other ensures Reports(reported + [record], other) <==> Reports(reported, other) || other == id {
          OneMoreReport(reported, record, other);
        }
        reported := reported + [record];
        drift := drift + [record];
        pending := pending - {id};
      }
      health := health[(DailyBalances, date) := |drifted|];
    }

    /** checkNetWorthDrift: the stored net worth against the daily rows of that day. */
    method CheckNetWorthDrift(date: Date) returns (reported: bool)
      modifies this`drift, this`health
      ensures reported <==>
        date in netWorth && netWorth[date].netWorth != Total(Nets(books, DayRows(daily, date)))
      ensures drift == old(drift) + if reported
        then [DriftRecord(NetWorth, None, date, netWorth[date].netWorth, Total(Nets(books, DayRows(daily, date))),
                          false)]
        else []
      ensures health == old(health)[(NetWorth, date) := if reported then 1 else 0]
    {
      var authoritative := SumUp(Nets(books, DayRows(daily, date)));
      reported := date in netWorth && netWorth[date].netWorth != authoritative;
      if reported {
        drift := drift + [DriftRecord(NetWorth, None, date, netWorth[date].netWorth, authoritative, false)];
      }
      health := health[(NetWorth, date) := if reported then 1 else 0];
    }
  }

  function RowsOf(journal: nat, lines: seq<Line>): (rows: seq<Posting>)
    ensures |rows| == |lines|
  {
    seq(|lines|, i requires 0 <= i < |lines| => Posting(journal, lines[i].account, lines[i].direction, lines[i].amount))
  }
}
