/** The ledger and the balance tables derived from it (packages/accounting/src/posting,
    packages/reporting/src). Amounts are whole numbers of the smallest unit the NUMERIC columns
    hold; one household. Each SQL statement is one assignment of a table. */
module Ledger {
  import opened Wrappers

  type AccountId = string
  type Date = nat
  type Currency = string

  datatype Direction = Debit | Credit

  datatype Class = Asset | Liability | OtherClass

  datatype Account = Account(normalBalance: Direction, nativeCurrency: Currency, accountingClass: Class)

  /** accounting.accounts and the household's reporting currency. */
  datatype Books = Books(accounts: map<AccountId, Account>, reportingCurrency: Currency)

  /** A posting row; `journal` is the position of its journal, that is, its database id. */
  datatype Posting = Posting(journal: nat, account: AccountId, direction: Direction, amount: int)

  datatype Journal = Journal(effectiveOn: Date)

  /** Which postings a statement sums. */
  datatype Window = All | UpTo(date: Date) | Later(date: Date) | Of(journal: nat)

  function Flip(direction: Direction): Direction {
    if direction == Debit then Credit else Debit
  }

  predicate SameCurrency(books: Books, id: AccountId)
    requires id in books.accounts
  {
    books.accounts[id].nativeCurrency == books.reportingCurrency
  }

  /** Foreign keys: every posting belongs to a journal and to an account. */
  predicate Refers(books: Books, journals: seq<Journal>, postings: seq<Posting>) {
    forall i :: 0 <= i < |postings| ==> postings[i].journal < |journals| && postings[i].account in books.accounts
  }

  predicate InWindow(journals: seq<Journal>, posting: Posting, window: Window)
    requires posting.journal < |journals|
  {
    match window
    case All => true
    case UpTo(date) => journals[posting.journal].effectiveOn <= date
    case Later(date) => date < journals[posting.journal].effectiveOn
    case Of(journal) => posting.journal == journal
  }

  /** CASE WHEN posting.direction = account.normal_balance THEN amount ELSE -amount END. */
  function Signed(account: Account, posting: Posting): int {
    if posting.direction == account.normalBalance then posting.amount else -posting.amount
  }

  /** The signed sum of an account's postings in a window. */
  function Sum(books: Books, journals: seq<Journal>, postings: seq<Posting>, id: AccountId, window: Window): int
    requires Refers(books, journals, postings) && id in books.accounts
  {
    if postings == [] then 0
    else
      var last := postings[|postings| - 1];
      Sum(books, journals, postings[..|postings| - 1], id, window)
        + if last.account == id && InWindow(journals, last, window) then Signed(books.accounts[id], last) else 0
  }

  /** Some posting of the account lies in the window. */
  predicate Touches(journals: seq<Journal>, postings: seq<Posting>, id: AccountId, window: Window)
    requires forall i :: 0 <= i < |postings| ==> postings[i].journal < |journals|
  {
    exists i :: 0 <= i < |postings| && postings[i].account == id && InWindow(journals, postings[i], window)
  }

  // ---------------------------------------------------------------- sums

  lemma {:induction false} SumSplitsAtDate(books: Books, journals: seq<Journal>, postings: seq<Posting>, id: AccountId,
                                           date: Date)
    requires Refers(books, journals, postings) && id in books.accounts
    ensures Sum(books, journals, postings, id, All)
         == Sum(books, journals, postings, id, UpTo(date)) + Sum(books, journals, postings, id, Later(date))
  {
    if postings != [] {
      SumSplitsAtDate(books, journals, postings[..|postings| - 1], id, date);
    }
  }

  lemma {:induction false} SumOfConcat(books: Books, journals: seq<Journal>, first: seq<Posting>, second: seq<Posting>,
                                       id: AccountId, window: Window)
    requires Refers(books, journals, first) && Refers(books, journals, second) && id in books.accounts
    ensures Refers(books, journals, first + second)
    ensures Sum(books, journals, first + second, id, window)
         == Sum(books, journals, first, id, window) + Sum(books, journals, second, id, window)
  {
    if second == [] {
      assert first + second == first;
    } else {
      SumOfConcat(books, journals, first, second[..|second| - 1], id, window);
      assert (first + second)[..|first + second| - 1] == first + second[..|second| - 1];
    }
  }

  // Postings that agree on what the window sees have the same sum in it.
  lemma {:induction false} SumSeesOnlyTheWindow(books: Books, journals: seq<Journal>, more: seq<Journal>,
                                                postings: seq<Posting>, id: AccountId, window: Window, other: Window)
    requires Refers(books, journals, postings) && id in books.accounts && |journals| <= |more|
    requires forall i :: 0 <= i < |postings| && postings[i].account == id ==>
      (InWindow(journals, postings[i], window) <==> InWindow(more, postings[i], other))
    ensures Sum(books, journals, postings, id, window) == Sum(books, more, postings, id, other)
  {
    if postings != [] {
      SumSeesOnlyTheWindow(books, journals, more, postings[..|postings| - 1], id, window, other);
    }
  }

  lemma {:induction false} UntouchedSumsToZero(books: Books, journals: seq<Journal>, postings: seq<Posting>,
                                               id: AccountId, window: Window)
    requires Refers(books, journals, postings) && id in books.accounts
    requires !Touches(journals, postings, id, window)
    ensures Sum(books, journals, postings, id, window) == 0
  {
    if postings != [] {
      assert forall i :: 0 <= i < |postings| ==>
          !(postings[i].account == id && InWindow(journals, postings[i], window));
      UntouchedSumsToZero(books, journals, postings[..|postings| - 1], id, window);
    }
  }

  lemma FindLast<T>(xs: seq<T>, ys: seq<T>) returns (k: nat)
    requires xs != [] && multiset(xs) == multiset(ys)
    ensures k < |ys| && ys[k] == xs[|xs| - 1]
    ensures multiset(xs[..|xs| - 1]) == multiset(ys[..k] + ys[k + 1..])
  {
    var last, rest := xs[|xs| - 1], xs[..|xs| - 1];
    assert xs == rest + [last];
    assert last in multiset(ys);
    k :| 0 <= k < |ys| && ys[k] == last;
    var left, right := ys[..k], ys[k + 1..];
    assert ys == left + [last] + right;
    assert multiset(ys) == multiset(left) + multiset{last} + multiset(right);
    assert multiset(rest) == multiset(xs) - multiset{last};
  }

  // The order in which postings were written does not matter.
  lemma {:induction false} SumIgnoresOrder(books: Books, journals: seq<Journal>, postings: seq<Posting>,
                                           shuffled: seq<Posting>, id: AccountId, window: Window)
    requires Refers(books, journals, postings) && Refers(books, journals, shuffled) && id in books.accounts
    requires multiset(postings) == multiset(shuffled)
    ensures Sum(books, journals, postings, id, window) == Sum(books, journals, shuffled, id, window)
  {
    if postings == [] {
      assert |multiset(postings)| == 0;
      assert |multiset(shuffled)| == |shuffled|;
    } else {
      var last, rest := postings[|postings| - 1], postings[..|postings| - 1];
      var k := FindLast(postings, shuffled);
      var left, right := shuffled[..k], shuffled[k + 1..];
      assert shuffled == left + [last] + right && postings == rest + [last];
      assert Refers(books, journals, left) && Refers(books, journals, right) && Refers(books, journals, [last]);
      SumIgnoresOrder(books, journals, rest, left + right, id, window);
      SumOfConcat(books, journals, left, right, id, window);
      SumOfConcat(books, journals, left + [last], right, id, window);
      SumOfConcat(books, journals, left, [last], id, window);
      SumOfConcat(books, journals, rest, [last], id, window);
    }
  }

  /** The sum of the values of a map. */
  ghost function Total(amounts: map<AccountId, int>): int {
    if amounts == map[] then 0
    else
      var id :| id in amounts;
      amounts[id] + Total(amounts - {id})
  }

  lemma {:induction false} TotalTakesAny(amounts: map<AccountId, int>, id: AccountId)
    requires id in amounts
    ensures Total(amounts) == amounts[id] + Total(amounts - {id})
    decreases |amounts|
  {
    var first :| first in amounts && Total(amounts) == amounts[first] + Total(amounts - {first});
    if first != id {
      TotalTakesAny(amounts - {first}, id);
      TotalTakesAny(amounts - {id}, first);
      assert amounts - {first} - {id} == amounts - {id} - {first};
    }
  }

  lemma {:induction false} TotalIsLinear(plus: map<AccountId, int>, minus: map<AccountId, int>,
                                         both: map<AccountId, int>)
    requires plus.Keys == minus.Keys == both.Keys
    requires forall id :: id in both ==> both[id] == plus[id] - minus[id]
    ensures Total(both) == Total(plus) - Total(minus)
    decreases |both|
  {
    if both == map[] {
      assert plus == map[] && minus == map[];
    } else {
      var id :| id in both;
      TotalTakesAny(both, id);
      TotalTakesAny(plus, id);
      TotalTakesAny(minus, id);
      TotalIsLinear(plus - {id}, minus - {id}, both - {id});
    }
  }

  lemma {:induction false} TotalOfZeros(amounts: map<AccountId, int>)
    requires forall id :: id in amounts ==> amounts[id] == 0
    ensures Total(amounts) == 0
    decreases |amounts|
  {
    if amounts != map[] {
      var id :| id in amounts;
      TotalTakesAny(amounts, id);
      TotalOfZeros(amounts - {id});
    }
  }

  lemma {:induction false} TotalOfParts(amounts: map<AccountId, int>, part: set<AccountId>)
    requires part <= amounts.Keys
    ensures Total(amounts) == Total(amounts - part) + Total(map id | id in part :: amounts[id])
    decreases |part|
  {
    if part == {} {
      assert amounts - part == amounts;
      assert (map id | id in part :: amounts[id]) == map[];
    } else {
      var id :| id in part;
      var picked := map i | i in part :: amounts[i];
      TotalTakesAny(amounts, id);
      TotalTakesAny(picked, id);
      TotalOfParts(amounts - {id}, part - {id});
      assert amounts - {id} - (part - {id}) == amounts - part;
      assert picked - {id} == map i | i in part - {id} :: (amounts - {id})[i];
    }
  }
}
