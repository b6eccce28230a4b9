/** The balance tables as functions of the postings: what one statement writes, what the tables
    should hold, and how the two relate (packages/reporting/src). */
module Projections {
  import opened Wrappers
  import opened Ledger

  /** reporting.account_current_balances, without the timestamps. */
  datatype BalanceRow = BalanceRow(asOf: Date, native: int, reporting: int, lastJournal: nat)

  type Table = map<AccountId, BalanceRow>

  function Max(a: nat, b: nat): nat {
    if a < b then b else a
  }

  function MaxOption(a: Option<nat>, b: Option<nat>): Option<nat> {
    if a.None? then b else if b.None? then a else Some(Max(a.value, b.value))
  }

  /** max(journal.id), and the latest date, over an account's postings in a window. */
  function LastJournal(journals: seq<Journal>, postings: seq<Posting>, id: AccountId,
                       window: Window)
    : (last: Option<nat>)
    requires forall i :: 0 <= i < |postings| ==> postings[i].journal < |journals|
    ensures last.Some? <==> Touches(journals, postings, id, window)
  {
    if postings == [] then None
    else
      var posting := postings[|postings| - 1];
      var rest := LastJournal(journals, postings[..|postings| - 1], id, window);
      assert Touches(journals, postings[..|postings| - 1], id, window) ==> Touches(journals, postings, id, window);
      if posting.account == id && InWindow(journals, posting, window) then MaxOption(rest, Some(posting.journal))
      else rest
  }

  function LatestDate(journals: seq<Journal>, postings: seq<Posting>, id: AccountId,
                      window: Window)
    : (latest: Option<Date>)
    requires forall i :: 0 <= i < |postings| ==> postings[i].journal < |journals|
    ensures latest.Some? <==> Touches(journals, postings, id, window)
  {
    if postings == [] then None
    else
      var posting := postings[|postings| - 1];
      var rest := LatestDate(journals, postings[..|postings| - 1], id, window);
      assert Touches(journals, postings[..|postings| - 1], id, window) ==> Touches(journals, postings, id, window);
      if posting.account == id && InWindow(journals, posting, window)
      then MaxOption(rest, Some(journals[posting.journal].effectiveOn)) else rest
  }

  // ---------------------------------------------------------------- the statements

  /** ProjectionWriter.applyJournal: one group for each account the journal touches, added to the
      row that is there. Amounts in a currency other than the reporting one report as zero. */
  function Upserted(books: Books, journals: seq<Journal>, postings: seq<Posting>, table: Table, journal: nat): Table
    requires Refers(books, journals, postings) && journal < |journals|
  {
    map id | id in table.Keys + books.accounts.Keys
             && (id in table || Touches(journals, postings, id, Of(journal))) ::
      if id in books.accounts && Touches(journals, postings, id, Of(journal)) then
        var amount := Sum(books, journals, postings, id, Of(journal));
        var reported := if SameCurrency(books, id) then amount else 0;
        if id in table then
          BalanceRow(Max(table[id].asOf, journals[journal].effectiveOn), table[id].native + amount,
                     table[id].reporting + reported, journal)
        else BalanceRow(journals[journal].effectiveOn, amount, reported, journal)
      else table[id]
  }

  /** ProjectionRebuilder.rebuildCurrentBalances: here it is the native amount that is zero for an
      account in another currency. */
  function Rebuilt(books: Books, journals: seq<Journal>, postings: seq<Posting>, asOf: Date): Table
    requires Refers(books, journals, postings)
  {
    map id | id in books.accounts && Touches(journals, postings, id, UpTo(asOf)) ::
      BalanceRow(asOf,
                 if SameCurrency(books, id) then Sum(books, journals, postings, id, UpTo(asOf)) else 0,
                 Sum(books, journals, postings, id, UpTo(asOf)),
                 LastJournal(journals, postings, id, UpTo(asOf)).value)
  }

  /** The rows checkCurrentBalanceDrift selects: the projected accounts whose native amount is not
      the sum of their postings up to the date. */
  function Drifted(books: Books, journals: seq<Journal>, postings: seq<Posting>, table: Table, asOf: Date)
    : set<AccountId>
    requires Refers(books, journals, postings)
  {
    set id | id in table && id in books.accounts && table[id].native != Sum(books, journals, postings, id, UpTo(asOf))
  }

  // ---------------------------------------------------------------- what the table should hold

  /** The specification: every account that has postings, with their sum. */
  ghost function Folded(books: Books, journals: seq<Journal>, postings: seq<Posting>): Table
    requires Refers(books, journals, postings)
  {
    map id | id in books.accounts && Touches(journals, postings, id, All) ::
      BalanceRow(LatestDate(journals, postings, id, All).value,
                 Sum(books, journals, postings, id, All),
                 if books.accounts[id].nativeCurrency == books.reportingCurrency
                 then Sum(books, journals, postings, id, All) else 0,
                 LastJournal(journals, postings, id, All).value)
  }

  // ---------------------------------------------------------------- one more journal

  ghost predicate NewRows(journals: seq<Journal>, rows: seq<Posting>) {
    forall i :: 0 <= i < |rows| ==> rows[i].journal == |journals|
  }

  lemma TouchesOfConcat(journals: seq<Journal>, first: seq<Posting>, second: seq<Posting>, id: AccountId,
                        window: Window)
    requires forall p :: p in first + second ==> p.journal < |journals|
    ensures Touches(journals, first + second, id, window)
      <==> (Touches(journals, first, id, window) || Touches(journals, second, id, window))
  {
    var all := first + second;
    if Touches(journals, first, id, window) {
      var i :| 0 <= i < |first| && first[i].account == id && InWindow(journals, first[i], window);
      assert all[i] == first[i];
    }
    if Touches(journals, second, id, window) {
      var i :| 0 <= i < |second| && second[i].account == id && InWindow(journals, second[i], window);
      assert all[|first| + i] == second[i];
    }
  }

  lemma {:induction false} LatestDateOfConcat(journals: seq<Journal>, first: seq<Posting>, second: seq<Posting>,
                                              id: AccountId, window: Window)
    requires forall i :: 0 <= i < |first| ==> first[i].journal < |journals|
    requires forall i :: 0 <= i < |second| ==> second[i].journal < |journals|
    ensures LatestDate(journals, first + second, id, window)
         == MaxOption(LatestDate(journals, first, id, window), LatestDate(journals, second, id, window))
  {
    hide Touches;
    if second == [] {
      assert first + second == first;
    } else {
      LatestDateOfConcat(journals, first, second[..|second| - 1], id, window);
      assert (first + second)[..|first + second| - 1] == first + second[..|second| - 1];
    }
  }

  lemma {:induction false} LastJournalOfConcat(journals: seq<Journal>, first: seq<Posting>, second: seq<Posting>,
                                               id: AccountId, window: Window)
    requires forall i :: 0 <= i < |first| ==> first[i].journal < |journals|
    requires forall i :: 0 <= i < |second| ==> second[i].journal < |journals|
    ensures LastJournal(journals, first + second, id, window)
         == MaxOption(LastJournal(journals, first, id, window), LastJournal(journals, second, id, window))
  {
    hide Touches;
    if second == [] {
      assert first + second == first;
    } else {
      LastJournalOfConcat(journals, first, second[..|second| - 1], id, window);
      assert (first + second)[..|first + second| - 1] == first + second[..|second| - 1];
    }
  }

  lemma {:induction false} LatestDateBounds(journals: seq<Journal>, postings: seq<Posting>, id: AccountId,
                                            window: Window)
    requires forall i :: 0 <= i < |postings| ==> postings[i].journal < |journals|
    ensures forall i :: 0 <= i < |postings| && postings[i].account == id && InWindow(journals, postings[i], window) ==>
      LatestDate(journals, postings, id, window).Some?
      && journals[postings[i].journal].effectiveOn <= LatestDate(journals, postings, id, window).value
  {
    if postings != [] {
      var last := |postings| - 1;
      LatestDateBounds(journals, postings[..last], id, window);
      assert forall i :: 0 <= i < last ==> postings[..last][i] == postings[i];
    }
  }

  // One more journal does not change what the earlier postings amount to.
  lemma {:induction false} LatestIgnoresNewJournal(journals: seq<Journal>, journal: Journal, postings: seq<Posting>,
                                                   id: AccountId)
    requires forall i :: 0 <= i < |postings| ==> postings[i].journal < |journals|
    ensures LatestDate(journals + [journal], postings, id, All) == LatestDate(journals, postings, id, All)
    ensures LastJournal(journals + [journal], postings, id, All) == LastJournal(journals, postings, id, All)
    ensures LastJournal(journals, postings, id, All).Some? ==>
      LastJournal(journals, postings, id, All).value < |journals|
  {
    if postings != [] {
      LatestIgnoresNewJournal(journals, journal, postings[..|postings| - 1], id);
    }
  }

  lemma {:induction false} LatestOfOneJournal(journals: seq<Journal>, rows: seq<Posting>, journal: nat, id: AccountId)
    requires journal < |journals| && forall i :: 0 <= i < |rows| ==> rows[i].journal == journal
    requires Touches(journals, rows, id, All)
    ensures LatestDate(journals, rows, id, All) == Some(journals[journal].effectiveOn)
    ensures LastJournal(journals, rows, id, All) == Some(journal)
  {
    var last := |rows| - 1;
    if Touches(journals, rows[..last], id, All) {
      LatestOfOneJournal(journals, rows[..last], journal, id);
    } else {
      var i :| 0 <= i < |rows| && rows[i].account == id;
      assert forall k :: 0 <= k < last ==> rows[..last][k] == rows[k];
    }
  }

  /** What one account's row is after one more journal. */
  lemma {:induction false} AccountAfterJournal(books: Books, journals: seq<Journal>, postings: seq<Posting>,
                                               journal: Journal, rows: seq<Posting>, id: AccountId)
    requires Refers(books, journals, postings) && id in books.accounts
    requires NewRows(journals, rows) && Refers(books, journals + [journal], rows)
    ensures Refers(books, journals + [journal], postings + rows)
    ensures var js, ps := journals + [journal], postings + rows;
      && (Touches(js, ps, id, Of(|journals|)) <==> Touches(js, rows, id, All))
      && (Touches(js, ps, id, All) <==> Touches(journals, postings, id, All) || Touches(js, rows, id, All))
      && Sum(books, js, ps, id, Of(|journals|)) == Sum(books, js, rows, id, All)
      && Sum(books, js, ps, id, All) == Sum(books, journals, postings, id, All) + Sum(books, js, rows, id, All)
      && LatestDate(js, ps, id, All) == MaxOption(LatestDate(journals, postings, id, All),
                                                  LatestDate(js, rows, id, All))
      && LastJournal(js, ps, id, All) == MaxOption(LastJournal(journals, postings, id, All),
                                                   LastJournal(js, rows, id, All))
  {
    var js, ps, j := journals + [journal], postings + rows, |journals|;
    assert Refers(books, js, postings);
    TouchesOfConcat(js, postings, rows, id, Of(j));
    TouchesOfConcat(js, postings, rows, id, All);
    SumOfConcat(books, js, postings, rows, id, Of(j));
    SumOfConcat(books, js, postings, rows, id, All);
    SumSeesOnlyTheWindow(books, js, js, rows, id, Of(j), All);
    SumSeesOnlyTheWindow(books, journals, js, postings, id, All, All);
    UntouchedSumsToZero(books, js, postings, id, Of(j));
    LatestDateOfConcat(js, postings, rows, id, All);
    LastJournalOfConcat(js, postings, rows, id, All);
    LatestIgnoresNewJournal(journals, journal, postings, id);
  }

  // The incremental upsert refines the fold: applied to a table that holds the fold over the
  // earlier postings it gives the fold over all of them.
  lemma UpsertRefinesFold(books: Books, journals: seq<Journal>, postings: seq<Posting>, journal: Journal,
                          rows: seq<Posting>)
    requires Refers(books, journals, postings)
    requires NewRows(journals, rows) && Refers(books, journals + [journal], rows)
    ensures Refers(books, journals + [journal], postings + rows)
    ensures Upserted(books, journals + [journal], postings + rows, Folded(books, journals, postings), |journals|)
         == Folded(books, journals + [journal], postings + rows)
  {
    hide Sum, Touches, LatestDate, LastJournal, InWindow;
    var js, ps := journals + [journal], postings + rows;
    assert Refers(books, js, ps);
    var before, after := Folded(books, journals, postings), Folded(books, js, ps);
    var upserted := Upserted(books, js, ps, before, |journals|);
    forall id | id in books.accounts
      ensures id in upserted <==> id in after
      ensures id in after ==> upserted[id] == after[id]
    {
      AccountAfterJournal(books, journals, postings, journal, rows, id);
      RowAfterJournal(books, journals, postings, journal, rows, id);
    }
  }

  lemma {:induction false} RowAfterJournal(books: Books, journals: seq<Journal>, postings: seq<Posting>,
                                           journal: Journal, rows: seq<Posting>, id: AccountId)
    requires Refers(books, journals, postings) && id in books.accounts
    requires NewRows(journals, rows) && Refers(books, journals + [journal], rows)
    ensures var js := journals + [journal];
      Touches(js, rows, id, All) ==>
        && LatestDate(js, rows, id, All) == Some(journal.effectiveOn)
        && LastJournal(js, rows, id, All) == Some(|journals|)
    ensures LastJournal(journals, postings, id, All).Some? ==>
      LastJournal(journals, postings, id, All).value < |journals|
    ensures !Touches(journals + [journal], rows, id, All) ==> Sum(books, journals + [journal], rows, id, All) == 0
    ensures !Touches(journals, postings, id, All) ==> Sum(books, journals, postings, id, All) == 0
  {
    var js := journals + [journal];
    if Touches(js, rows, id, All) {
      LatestOfOneJournal(js, rows, |journals|, id);
    } else {
      UntouchedSumsToZero(books, js, rows, id, All);
    }
    if !Touches(journals, postings, id, All) {
      UntouchedSumsToZero(books, journals, postings, id, All);
    }
    LatestIgnoresNewJournal(journals, journal, postings, id);
  }

  // ---------------------------------------------------------------- drift and rebuild

  // On a table that holds the fold, the drift check at a date reports exactly the projected
  // accounts whose postings dated later do not net to zero.
  lemma {:induction false} DriftIsWhatComesLater(books: Books, journals: seq<Journal>, postings: seq<Posting>,
                                                 asOf: Date, id: AccountId)
    requires Refers(books, journals, postings)
    ensures id in Drifted(books, journals, postings, Folded(books, journals, postings), asOf) <==>
      && id in books.accounts && Touches(journals, postings, id, All)
      && Sum(books, journals, postings, id, Later(asOf)) != 0
  {
    hide Touches, LatestDate, LastJournal;
    if id in books.accounts {
      SumSplitsAtDate(books, journals, postings, id, asOf);
    }
  }

  ghost predicate NothingLater(journals: seq<Journal>, postings: seq<Posting>, asOf: Date)
    requires forall i :: 0 <= i < |postings| ==> postings[i].journal < |journals|
  {
    forall i :: 0 <= i < |postings| ==> journals[postings[i].journal].effectiveOn <= asOf
  }

  lemma {:induction false} WindowsCoincide(books: Books, journals: seq<Journal>, postings: seq<Posting>, asOf: Date,
                                           id: AccountId)
    requires Refers(books, journals, postings) && NothingLater(journals, postings, asOf) && id in books.accounts
    ensures Touches(journals, postings, id, UpTo(asOf)) <==> Touches(journals, postings, id, All)
    ensures Sum(books, journals, postings, id, UpTo(asOf)) == Sum(books, journals, postings, id, All)
    ensures LastJournal(journals, postings, id, UpTo(asOf)) == LastJournal(journals, postings, id, All)
  {
    SumSeesOnlyTheWindow(books, journals, journals, postings, id, UpTo(asOf), All);
    LastInWindows(journals, postings, asOf, id);
  }

  lemma {:induction false} LastInWindows(journals: seq<Journal>, postings: seq<Posting>, asOf: Date, id: AccountId)
    requires forall i :: 0 <= i < |postings| ==> postings[i].journal < |journals|
    requires NothingLater(journals, postings, asOf)
    ensures LastJournal(journals, postings, id, UpTo(asOf)) == LastJournal(journals, postings, id, All)
  {
    if postings != [] {
      LastInWindows(journals, postings[..|postings| - 1], asOf, id);
    }
  }

  // A rebuild at a date on or after every journal has the accounts, amounts and last journals of
  // the incremental table; for accounts in another currency the two amounts are exchanged.
  lemma RebuildAgainstIncremental(books: Books, journals: seq<Journal>, postings: seq<Posting>, asOf: Date)
    requires Refers(books, journals, postings) && NothingLater(journals, postings, asOf)
    ensures var rebuilt, kept := Rebuilt(books, journals, postings, asOf), Folded(books, journals, postings);
      && rebuilt.Keys == kept.Keys
      && (forall id :: id in kept ==>
            && rebuilt[id].lastJournal == kept[id].lastJournal
            && kept[id].asOf <= rebuilt[id].asOf == asOf
            && (SameCurrency(books, id) ==>
                  rebuilt[id].native == kept[id].native && rebuilt[id].reporting == kept[id].reporting)
            && (!SameCurrency(books, id) ==>
                  rebuilt[id].native == kept[id].reporting && rebuilt[id].reporting == kept[id].native))
  {
    hide Sum, Touches, LatestDate, LastJournal, InWindow;
    var rebuilt, kept := Rebuilt(books, journals, postings, asOf), Folded(books, journals, postings);
    forall id | id in books.accounts
      ensures id in rebuilt <==> id in kept
      ensures id in kept ==> rebuilt[id].lastJournal == kept[id].lastJournal && kept[id].asOf <= asOf
      ensures id in kept ==> rebuilt[id].reporting == kept[id].native
    {
      WindowsCoincide(books, journals, postings, asOf, id);
      LatestIsNotLater(journals, postings, asOf, id);
    }
  }

  lemma {:induction false} LatestIsNotLater(journals: seq<Journal>, postings: seq<Posting>, asOf: Date, id: AccountId)
    requires forall i :: 0 <= i < |postings| ==> postings[i].journal < |journals|
    requires NothingLater(journals, postings, asOf)
    ensures LatestDate(journals, postings, id, All).Some? ==> LatestDate(journals, postings, id, All).value <= asOf
  {
    if postings != [] {
      LatestIsNotLater(journals, postings[..|postings| - 1], asOf, id);
    }
  }

  // So the drift check right after a rebuild at that date reports exactly the accounts in another
  // currency whose balance is not zero, and a rebuild heals the table if and only if there are none.
  lemma {:induction false} RebuildDriftsOnForeignAccounts(books: Books, journals: seq<Journal>, postings: seq<Posting>,
                                                          asOf: Date, id: AccountId)
    requires Refers(books, journals, postings)
    ensures id in Drifted(books, journals, postings, Rebuilt(books, journals, postings, asOf), asOf) <==>
      && id in books.accounts && !SameCurrency(books, id)
      && Sum(books, journals, postings, id, UpTo(asOf)) != 0
  {
    hide LastJournal;
    if id in books.accounts && !Touches(journals, postings, id, UpTo(asOf)) {
      UntouchedSumsToZero(books, journals, postings, id, UpTo(asOf));
    }
  }

  // ---------------------------------------------------------------- what a rebuild leaves to later journals

  /** The amounts of an account's row, zero without one. */
  function NativeIn(table: Table, id: AccountId): int {
    if id in table then table[id].native else 0
  }

  function ReportingIn(table: Table, id: AccountId): int {
    if id in table then table[id].reporting else 0
  }

  /** How far the two amounts are from what all postings of the account amount to. */
  ghost function NativeError(books: Books, journals: seq<Journal>, postings: seq<Posting>, table: Table, id: AccountId)
    : int
    requires Refers(books, journals, postings) && id in books.accounts
  {
    NativeIn(table, id) - Sum(books, journals, postings, id, All)
  }

  ghost function ReportingError(books: Books, journals: seq<Journal>, postings: seq<Posting>, table: Table,
                                id: AccountId)
    : int
    requires Refers(books, journals, postings) && id in books.accounts
  {
    ReportingIn(table, id) - if SameCurrency(books, id) then Sum(books, journals, postings, id, All) else 0
  }

  // The upsert neither heals nor worsens an amount: whatever the table holds, every account's two
  // errors are the same after one more journal.
  lemma UpsertKeepsErrors(books: Books, journals: seq<Journal>, postings: seq<Posting>, journal: Journal,
                          rows: seq<Posting>, table: Table, id: AccountId)
    requires Refers(books, journals, postings) && id in books.accounts
    requires NewRows(journals, rows) && Refers(books, journals + [journal], rows)
    ensures Refers(books, journals + [journal], postings + rows)
    ensures var js, ps := journals + [journal], postings + rows;
      var after := Upserted(books, js, ps, table, |journals|);
      && NativeError(books, js, ps, after, id) == NativeError(books, journals, postings, table, id)
      && ReportingError(books, js, ps, after, id) == ReportingError(books, journals, postings, table, id)
  {
    hide Sum, Touches, LatestDate, LastJournal, InWindow;
    AccountAfterJournal(books, journals, postings, journal, rows, id);
    RowAfterJournal(books, journals, postings, journal, rows, id);
  }

  // The table that holds the fold has no errors.
  lemma FoldHasNoErrors(books: Books, journals: seq<Journal>, postings: seq<Posting>, id: AccountId)
    requires Refers(books, journals, postings) && id in books.accounts
    ensures NativeError(books, journals, postings, Folded(books, journals, postings), id) == 0
    ensures ReportingError(books, journals, postings, Folded(books, journals, postings), id) == 0
  {
    if !Touches(journals, postings, id, All) {
      UntouchedSumsToZero(books, journals, postings, id, All);
    }
  }

  // What a rebuild at a date leaves: amounts in the reporting currency lack what is dated later; of
  // the others the native amount lacks everything, and the reporting amount has all up to the date
  // in excess.
  lemma {:induction false} ErrorsOfRebuilt(books: Books, journals: seq<Journal>, postings: seq<Posting>, asOf: Date,
                                           id: AccountId)
    requires Refers(books, journals, postings) && id in books.accounts
    ensures var rebuilt := Rebuilt(books, journals, postings, asOf);
      var later := Sum(books, journals, postings, id, Later(asOf));
      && (SameCurrency(books, id) ==>
            && NativeError(books, journals, postings, rebuilt, id) == -later
            && ReportingError(books, journals, postings, rebuilt, id) == -later)
      && (!SameCurrency(books, id) ==>
            && NativeError(books, journals, postings, rebuilt, id) == -Sum(books, journals, postings, id, All)
            && ReportingError(books, journals, postings, rebuilt, id) == Sum(books, journals, postings, id, UpTo(asOf)))
  {
    hide LastJournal;
    SumSplitsAtDate(books, journals, postings, id, asOf);
    if !Touches(journals, postings, id, UpTo(asOf)) {
      UntouchedSumsToZero(books, journals, postings, id, UpTo(asOf));
    }
  }
}
