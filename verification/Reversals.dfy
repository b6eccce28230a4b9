/** Exact reversals and the trial balance (packages/accounting/src/posting/corrections.ts;
    database/migrations/0004_accounting_ledger.sql, accounting.validate_complete_journal). */
module Reversals {
  import opened Ledger
  import opened ProjectionTables

  /** buildExactReversalPostings, as far as accounts, directions and amounts go. */
  function Reversal(lines: seq<Line>): (reversed: seq<Line>)
    ensures |reversed| == |lines|
  {
    seq(|lines|, i requires 0 <= i < |lines| => Line(lines[i].account, Flip(lines[i].direction), lines[i].amount))
  }

  /** The constraint reversal_exact_opposite: the same rows with directions exchanged, as multisets. */
  predicate ReversesExactly(original: seq<Line>, reversal: seq<Line>) {
    multiset(reversal) == multiset(Reversal(original))
  }

  // Reversing twice gives back every account, direction and amount in its place.
  lemma ReversingTwice(lines: seq<Line>)
    ensures Reversal(Reversal(lines)) == lines
  {
  }

  predicate Known(books: Books, lines: seq<Line>) {
    forall line :: line in lines ==> line.account in books.accounts
  }

  function SignedLine(books: Books, line: Line): int
    requires line.account in books.accounts
  {
    if line.direction == books.accounts[line.account].normalBalance then line.amount else -line.amount
  }

  /** What the lines of one journal add to an account. */
  function LineSum(books: Books, lines: seq<Line>, id: AccountId): int
    requires Known(books, lines)
  {
    if lines == [] then 0
    else
      var last := lines[|lines| - 1];
      LineSum(books, lines[..|lines| - 1], id) + if last.account == id then SignedLine(books, last) else 0
  }

  lemma {:induction false} RowsSumToLines(books: Books, journals: seq<Journal>, journal: nat, lines: seq<Line>,
                                          id: AccountId, window: Window)
    requires Known(books, lines) && id in books.accounts && journal < |journals|
    ensures Refers(books, journals, RowsOf(journal, lines))
    ensures Sum(books, journals, RowsOf(journal, lines), id, window)
         == if InWindow(journals, Posting(journal, id, Debit, 0), window) then LineSum(books, lines, id) else 0
  {
    var rows := RowsOf(journal, lines);
    assert forall i :: 0 <= i < |rows| ==> lines[i] in lines;
    if lines != [] {
      RowsSumToLines(books, journals, journal, lines[..|lines| - 1], id, window);
      assert rows[..|rows| - 1] == RowsOf(journal, lines[..|lines| - 1]);
    }
  }

  lemma {:induction false} LineSumOfConcat(books: Books, first: seq<Line>, second: seq<Line>, id: AccountId)
    requires Known(books, first) && Known(books, second)
    ensures Known(books, first + second)
    ensures LineSum(books, first + second, id) == LineSum(books, first, id) + LineSum(books, second, id)
  {
    if second == [] {
      assert first + second == first;
    } else {
      LineSumOfConcat(books, first, second[..|second| - 1], id);
      assert (first + second)[..|first + second| - 1] == first + second[..|second| - 1];
    }
  }

  lemma KnownIgnoresOrder(books: Books, lines: seq<Line>, shuffled: seq<Line>)
    requires Known(books, lines) && multiset(lines) == multiset(shuffled)
    ensures Known(books, shuffled)
  {
    forall line | line in shuffled ensures line.account in books.accounts {
      assert line in multiset(shuffled);
      assert line in lines;
    }
  }

  lemma {:induction false} LineSumIgnoresOrder(books: Books, lines: seq<Line>, shuffled: seq<Line>, id: AccountId)
    requires Known(books, lines) && Known(books, shuffled) && multiset(lines) == multiset(shuffled)
    ensures LineSum(books, lines, id) == LineSum(books, shuffled, id)
  {
    if lines == [] {
      assert |multiset(shuffled)| == |shuffled|;
    } else {
      var k := FindLast(lines, shuffled);
      TakeOut(books, shuffled, k, id);
      TakeOut(books, lines, |lines| - 1, id);
      assert lines[..|lines| - 1] + lines[|lines|..] == lines[..|lines| - 1];
      LineSumIgnoresOrder(books, lines[..|lines| - 1], shuffled[..k] + shuffled[k + 1..], id);
    }
  }

  lemma {:induction false} TakeOut(books: Books, lines: seq<Line>, k: nat, id: AccountId)
    requires Known(books, lines) && k < |lines|
    ensures Known(books, lines[..k] + lines[k + 1..]) && lines[k].account in books.accounts
    ensures LineSum(books, lines, id) == LineSum(books, lines[..k] + lines[k + 1..], id)
      + if lines[k].account == id then SignedLine(books, lines[k]) else 0
  {
    var left, one, right := lines[..k], [lines[k]], lines[k + 1..];
    assert lines == left + one + right && lines[k] in lines;
    LineSumOfConcat(books, left + one, right, id);
    LineSumOfConcat(books, left, one, id);
    LineSumOfConcat(books, left, right, id);
    assert one[..0] == [] && LineSum(books, [], id) == 0;
  }

  lemma {:induction false} ReversalNegates(books: Books, lines: seq<Line>, id: AccountId)
    requires Known(books, lines)
    ensures Known(books, Reversal(lines))
    ensures LineSum(books, Reversal(lines), id) == -LineSum(books, lines, id)
  {
    if lines != [] {
      var last := lines[|lines| - 1];
      assert last in lines;
      ReversalNegates(books, lines[..|lines| - 1], id);
      var reversed := Reversal(lines);
      assert reversed[..|reversed| - 1] == Reversal(lines[..|lines| - 1]);
      assert Known(books, reversed) by {
        assert reversed == reversed[..|reversed| - 1] + [reversed[|reversed| - 1]];
      }
    }
  }

  // A journal and any later journal that passes the reversal constraint cancel on every account,
  // whatever was posted before and between them, in every window that holds both or neither; in
  // a window that holds only one of them the balance is off by exactly what the lines add.
  lemma {:induction false} ReversalRestoresBalances(books: Books, journals: seq<Journal>, before: seq<Posting>,
                                                    original: nat, lines: seq<Line>, between: seq<Posting>,
                                                    reversing: nat, reversal: seq<Line>, id: AccountId, window: Window)
    requires Refers(books, journals, before) && Refers(books, journals, between) && id in books.accounts
    requires original < |journals| && reversing < |journals|
    requires Known(books, lines) && ReversesExactly(lines, reversal)
    ensures var all := before + RowsOf(original, lines) + between + RowsOf(reversing, reversal);
      var holdsOriginal := InWindow(journals, Posting(original, id, Debit, 0), window);
      var holdsReversal := InWindow(journals, Posting(reversing, id, Debit, 0), window);
      && Refers(books, journals, all) && Refers(books, journals, before + between)
      && Sum(books, journals, all, id, window)
           == Sum(books, journals, before + between, id, window)
              + (if holdsOriginal then LineSum(books, lines, id) else 0)
              - (if holdsReversal then LineSum(books, lines, id) else 0)
  {
    hide Sum, LineSum;
    ReversalNegates(books, lines, id);
    KnownIgnoresOrder(books, Reversal(lines), reversal);
    LineSumIgnoresOrder(books, Reversal(lines), reversal, id);
    RowsSumToLines(books, journals, original, lines, id, window);
    RowsSumToLines(books, journals, reversing, reversal, id, window);
    var first, last := RowsOf(original, lines), RowsOf(reversing, reversal);
    SumOfConcat(books, journals, before, first, id, window);
    SumOfConcat(books, journals, before + first, between, id, window);
    SumOfConcat(books, journals, before + first + between, last, id, window);
    SumOfConcat(books, journals, before, between, id, window);
  }

  // ---------------------------------------------------------------- trial balance

  function LineTotal(lines: seq<Line>, direction: Direction): int {
    if lines == [] then 0
    else
      var last := lines[|lines| - 1];
      LineTotal(lines[..|lines| - 1], direction) + if last.direction == direction then last.amount else 0
  }

  // A total is additive, and one line counts for its own direction.
  lemma {:induction false} LineTotalAdds(first: seq<Line>, second: seq<Line>, line: Line, direction: Direction)
    ensures LineTotal(first + second, direction) == LineTotal(first, direction) + LineTotal(second, direction)
    ensures LineTotal([line], direction) == if line.direction == direction then line.amount else 0
  {
    assert [line][..0] == [];
    if second == [] {
      assert first + second == first;
    } else {
      LineTotalAdds(first, second[..|second| - 1], line, direction);
      assert (first + second)[..|first + second| - 1] == first + second[..|second| - 1];
    }
  }

  /** The constraint journals_transaction_currency_balanced, for a journal in one currency. */
  predicate Balanced(lines: seq<Line>) {
    LineTotal(lines, Debit) == LineTotal(lines, Credit)
  }

  // Reversing exchanges the two totals, so the reversal of a balanced journal is balanced.
  lemma {:induction false} ReversalExchangesTotals(lines: seq<Line>, direction: Direction)
    ensures LineTotal(Reversal(lines), direction) == LineTotal(lines, Flip(direction))
  {
    if lines != [] {
      ReversalExchangesTotals(lines[..|lines| - 1], direction);
      var reversed := Reversal(lines);
      assert reversed[..|reversed| - 1] == Reversal(lines[..|lines| - 1]);
    }
  }

  /** The postings after a run of journals, each given by its lines. */
  function Posted(run: seq<seq<Line>>): seq<Posting> {
    if run == [] then []
    else Posted(run[..|run| - 1]) + RowsOf(|run| - 1, run[|run| - 1])
  }

  /** Every account's change by the lines of one journal, or by a whole run, those of the other
      normal balance left out. */
  function SideOfLines(books: Books, lines: seq<Line>, side: Direction): map<AccountId, int>
    requires Known(books, lines)
  {
    map id | id in books.accounts :: if books.accounts[id].normalBalance == side then LineSum(books, lines, id) else 0
  }

  function RunSum(books: Books, run: seq<seq<Line>>, id: AccountId): int
    requires forall lines :: lines in run ==> Known(books, lines)
  {
    if run == [] then 0
    else
      assert run[|run| - 1] in run;
      RunSum(books, run[..|run| - 1], id) + LineSum(books, run[|run| - 1], id)
  }

  function SideOfRun(books: Books, run: seq<seq<Line>>, side: Direction): map<AccountId, int>
    requires forall lines :: lines in run ==> Known(books, lines)
  {
    map id | id in books.accounts :: if books.accounts[id].normalBalance == side then RunSum(books, run, id) else 0
  }

  lemma {:induction false} RunSumIsTheBalance(books: Books, journals: seq<Journal>, run: seq<seq<Line>>, id: AccountId)
    requires forall lines :: lines in run ==> Known(books, lines)
    requires |run| <= |journals| && id in books.accounts
    ensures Refers(books, journals, Posted(run))
    ensures Sum(books, journals, Posted(run), id, All) == RunSum(books, run, id)
  {
    if run != [] {
      var last := |run| - 1;
      assert run[last] in run;
      assert forall lines :: lines in run[..last] ==> lines in run;
      RunSumIsTheBalance(books, journals, run[..last], id);
      RowsSumToLines(books, journals, last, run[last], id, All);
      SumOfConcat(books, journals, Posted(run[..last]), RowsOf(last, run[last]), id, All);
    }
  }

  lemma {:induction false} TotalsAdd(first: map<AccountId, int>, second: map<AccountId, int>, sum: map<AccountId, int>)
    requires first.Keys == second.Keys == sum.Keys
    requires forall id :: id in sum ==> sum[id] == first[id] + second[id]
    ensures Total(sum) == Total(first) + Total(second)
  {
    TotalIsLinear(sum, second, first);
  }

  lemma {:induction false} TotalOfOne(amounts: map<AccountId, int>, id: AccountId)
    requires id in amounts && forall other :: other in amounts && other != id ==> amounts[other] == 0
    ensures Total(amounts) == amounts[id]
  {
    TotalTakesAny(amounts, id);
    TotalOfZeros(amounts - {id});
  }

  // The debit-normal side less the credit-normal side is debits less credits: each line moves one
  // account, by its amount with the sign of its direction.
  lemma {:induction false} SidesOfLines(books: Books, lines: seq<Line>)
    requires Known(books, lines)
    ensures Total(SideOfLines(books, lines, Debit)) - Total(SideOfLines(books, lines, Credit))
         == LineTotal(lines, Debit) - LineTotal(lines, Credit)
  {
    if lines == [] {
      TotalOfZeros(SideOfLines(books, lines, Debit));
      TotalOfZeros(SideOfLines(books, lines, Credit));
    } else {
      var last, rest := lines[|lines| - 1], lines[..|lines| - 1];
      assert last in lines;
      SidesOfLines(books, rest);
      SideAfterLine(books, rest, last, lines, Debit);
      SideAfterLine(books, rest, last, lines, Credit);
    }
  }

  lemma SideAfterLine(books: Books, rest: seq<Line>, last: Line, lines: seq<Line>, side: Direction)
    requires Known(books, lines) && lines == rest + [last] && last.account in books.accounts && Known(books, rest)
    ensures Total(SideOfLines(books, lines, side))
         == Total(SideOfLines(books, rest, side))
            + if books.accounts[last.account].normalBalance == side then SignedLine(books, last) else 0
  {
    var moved := map id | id in books.accounts ::
      if id == last.account && books.accounts[id].normalBalance == side then SignedLine(books, last) else 0;
    assert lines[..|lines| - 1] == rest;
    TotalsAdd(SideOfLines(books, rest, side), moved, SideOfLines(books, lines, side));
    TotalOfOne(moved, last.account);
  }

  // Over every run of balanced journals in one currency, debit-normal balances and credit-normal
  // balances have the same total.
  lemma {:induction false} TrialBalance(books: Books, run: seq<seq<Line>>)
    requires forall lines :: lines in run ==> Known(books, lines) && Balanced(lines)
    ensures Total(SideOfRun(books, run, Debit)) == Total(SideOfRun(books, run, Credit))
  {
    if run == [] {
      TotalOfZeros(SideOfRun(books, run, Debit));
      TotalOfZeros(SideOfRun(books, run, Credit));
    } else {
      var last, rest := run[|run| - 1], run[..|run| - 1];
      assert last in run;
      assert forall lines :: lines in rest ==> lines in run;
      TrialBalance(books, rest);
      SidesOfLines(books, last);
      TotalsAdd(SideOfRun(books, rest, Debit), SideOfLines(books, last, Debit), SideOfRun(books, run, Debit));
      TotalsAdd(SideOfRun(books, rest, Credit), SideOfLines(books, last, Credit), SideOfRun(books, run, Credit));
    }
  }

  ghost function SideOfLedger(books: Books, journals: seq<Journal>, postings: seq<Posting>, side: Direction)
    : map<AccountId, int>
    requires Refers(books, journals, postings)
  {
    map id | id in books.accounts ::
      if books.accounts[id].normalBalance == side then Sum(books, journals, postings, id, All) else 0
  }

  // The same in terms of what is posted, and so of what the balance table holds.
  lemma {:induction false} LedgerTrialBalance(books: Books, journals: seq<Journal>, run: seq<seq<Line>>)
    requires forall lines :: lines in run ==> Known(books, lines) && Balanced(lines)
    requires |run| <= |journals|
    ensures Refers(books, journals, Posted(run))
    ensures Total(SideOfLedger(books, journals, Posted(run), Debit))
      == Total(SideOfLedger(books, journals, Posted(run), Credit))
  {
    hide Sum, RunSum, Posted, Known, Balanced;
    assert Refers(books, journals, Posted(run)) by {
      PostedRefers(books, journals, run);
    }
    forall id | id in books.accounts
      ensures Sum(books, journals, Posted(run), id, All) == RunSum(books, run, id)
    {
      RunSumIsTheBalance(books, journals, run, id);
    }
    assert SideOfLedger(books, journals, Posted(run), Debit) == SideOfRun(books, run, Debit);
    assert SideOfLedger(books, journals, Posted(run), Credit) == SideOfRun(books, run, Credit);
    TrialBalance(books, run);
  }

  lemma {:induction false} PostedRefers(books: Books, journals: seq<Journal>, run: seq<seq<Line>>)
    requires forall lines :: lines in run ==> Known(books, lines)
    requires |run| <= |journals|
    ensures Refers(books, journals, Posted(run))
  {
    if run != [] {
      var last := |run| - 1;
      assert run[last] in run;
      assert forall i :: 0 <= i < |run[last]| ==> run[last][i] in run[last];
      assert forall lines :: lines in run[..last] ==> lines in run;
      PostedRefers(books, journals, run[..last]);
    }
  }
}
