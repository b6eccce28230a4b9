/** Month bounds and the resolution of accounting periods
    (apps/engine/src/accounting/accounting-request-materializers.ts). */
module AccountingPeriods {
  import opened Wrappers
  import opened Decimal
  import opened Calendar

  datatype Error = InvalidDate | AllocatorMissing | MaterializationFailed

  /** addLocalDays, from the numbers its date is split into. */
  function AddLocalDays(year: int, month: int, day: int, offset: int): Result<string, Error> {
    var shifted := Decode(DateUtc(year, month - 1, day + offset));
    if shifted.year >= 0 && IsRealLocalDate(Text(shifted)) then Success(Text(shifted)) else Failure(InvalidDate)
  }

  datatype Bounds = Bounds(periodStart: string, periodEnd: string)

  function MonthlyPeriodBounds(occurredOn: string): Result<Bounds, Error> {
    if !IsRealLocalDate(occurredOn) then Failure(InvalidDate)
    else
      var year, month := YearOf(occurredOn), MonthOf(occurredOn);
      if year < 0 || month < 1 || !IsRealLocalDate(Text(Civil(year, month - 1, 1))) then Failure(InvalidDate)
      else
        var next := Decode(DateUtc(year, month, 1));
        match AddLocalDays(next.year, next.month + 1, 1, -1)
        case Failure(error) => Failure(error)
        case Success(periodEnd) => Success(Bounds(Text(Civil(year, month - 1, 1)), periodEnd))
  }

  // ---------------------------------------------------------------- writing dates

  lemma {:induction false} DigitCount(n: nat, length: nat)
    requires n < Pow10(length) && length >= 1
    ensures |Digits(n)| <= length
  {
    if length > 1 && n >= 10 {
      DigitCount(n / 10, length - 1);
    }
  }

  lemma {:induction false} PaddedField(n: nat, length: nat)
    requires n < Pow10(length) && length >= 1
    ensures var field := PadStart(Digits(n), length); |field| == length && AllDigits(field) && Value(field) == n
  {
    DigitCount(n, length);
    PaddedDigits(n, length);
  }

  // A date of the years 100 to 9999 is written so that it reads back as the same date.
  lemma TextReadsBack(date: Civil)
    requires Exists(date) && 100 <= date.year <= 9999
    ensures IsRealLocalDate(Text(date))
    ensures YearOf(Text(date)) == date.year && MonthOf(Text(date)) == date.month + 1 && DayOf(Text(date)) == date.day
  {
    hide Digits, PadStart, Value, Decode, MakeDay;
    Pow10Values();
    PaddedField(date.year, 4);
    PaddedField(date.month + 1, 2);
    PaddedField(date.day, 2);
    var text := Text(date);
    var y, m, d := PadStart(Digits(date.year), 4), PadStart(Digits(date.month + 1), 2), PadStart(Digits(date.day), 2);
    assert text[..4] == y && text[5..7] == m && text[8..] == d;
    RealIsGregorian(text);
  }

  lemma {:induction false} ManyDigits(n: nat, length: nat)
    requires n >= Pow10(length)
    ensures |Digits(n)| > length
  {
    if length > 0 && n >= 10 {
      ManyDigits(n / 10, length - 1);
    }
  }

  // addLocalDays goes the given number of days on, or back, across months and years, as long as the
  // date it comes to has a four-digit year that is not taken for another one.
  lemma AddLocalDaysShifts(date: Civil, offset: int)
    requires Exists(date) && date.year >= 100
    ensures var shifted := Decode(MakeDay(date.year, date.month, date.day) + offset);
      AddLocalDays(date.year, date.month + 1, date.day, offset)
        == if 100 <= shifted.year <= 9999 then Success(Text(shifted)) else Failure(InvalidDate)
  {
    hide Digits, PadStart, Value, Decode, DaysBefore, DayFromYear, DaysInMonth;
    var shifted := Decode(MakeDay(date.year, date.month, date.day) + offset);
    assert DateUtc(date.year, date.month, date.day + offset) == MakeDay(date.year, date.month, date.day) + offset;
    if 100 <= shifted.year <= 9999 {
      TextReadsBack(shifted);
    } else if shifted.year > 9999 {
      Pow10Values();
      ManyDigits(shifted.year, 4);
      PaddingOnlyAdds(Digits(shifted.year), 4);
      PaddedField(shifted.month + 1, 2);
      PaddedField(shifted.day, 2);
      assert |Text(shifted)| > 10;
    } else if shifted.year >= 0 {
      EarlyYearsAreNotReal(shifted);
    }
  }

  lemma PaddingOnlyAdds(s: string, length: nat)
    ensures |PadStart(s, length)| >= |s|
  {
  }

  lemma EarlyYearsAreNotReal(date: Civil)
    requires Exists(date) && 0 <= date.year < 100
    ensures !IsRealLocalDate(Text(date))
  {
    hide Digits, PadStart, Value, Decode, MakeDay;
    Pow10Values();
    PaddedField(date.year, 4);
    PaddedField(date.month + 1, 2);
    PaddedField(date.day, 2);
    var text := Text(date);
    assert text[..4] == PadStart(Digits(date.year), 4);
    RealIsGregorian(text);
  }

  // Bounds are refused for what is no date, and for nothing else.
  lemma BoundsRefusedIff(occurredOn: string)
    ensures MonthlyPeriodBounds(occurredOn).Failure? <==> !IsRealLocalDate(occurredOn)
    ensures MonthlyPeriodBounds(occurredOn).Failure? ==> MonthlyPeriodBounds(occurredOn) == Failure(InvalidDate)
  {
    hide IsRealLocalDate;
    if IsRealLocalDate(occurredOn) {
      BoundsAreTheMonth(occurredOn);
    }
  }

  /** The day number a date string stands for. */
  function DayNumber(s: string): int
    requires HasDateShape(s)
  {
    MakeDay(YearOf(s), MonthOf(s) - 1, DayOf(s))
  }

  // The bounds of a date's month are its first and its last day.
  lemma BoundsAreTheMonth(occurredOn: string)
    requires IsRealLocalDate(occurredOn)
    ensures MonthlyPeriodBounds(occurredOn).Success?
    ensures var year, month := YearOf(occurredOn), MonthOf(occurredOn) - 1;
      0 <= month < 12 && 100 <= year <= 9999 &&
      MonthlyPeriodBounds(occurredOn).value
        == Bounds(Text(Civil(year, month, 1)), Text(Civil(year, month, DaysInMonth(year, month))))
  {
    hide Decode, MakeDay, DaysInMonth, Text;
    RealIsGregorian(occurredOn);
    FieldsAreBounded(occurredOn);
    var year, month := YearOf(occurredOn), MonthOf(occurredOn) - 1;
    var first, last := Civil(year, month, 1), Civil(year, month, DaysInMonth(year, month));
    TextReadsBack(first);
    TextReadsBack(last);
    var next := Decode(MakeDay(year, month + 1, 1));
    NextIsFirst(year, month);
    StepBack(next.year, next.month);
    NextMonthFollows(year, month);
    LastOfMonth(year, month);
    DecodeInverts(last);
  }

  lemma NextIsFirst(year: int, month: int)
    requires 0 <= month < 12
    ensures var next := Decode(MakeDay(year, month + 1, 1));
      next == if month == 11 then Civil(year + 1, 0, 1) else Civil(year, month + 1, 1)
  {
    hide DayFromYear, Decode, DaysInMonth;
    var next := if month == 11 then Civil(year + 1, 0, 1) else Civil(year, month + 1, 1);
    assert MakeDay(year, month + 1, 1) == MakeDay(next.year, next.month, 1);
    DecodeInverts(next);
  }

  lemma StepBack(year: int, month: int)
    ensures MakeDay(year, month, 0) == MakeDay(year, month, 1) - 1
  {
  }

  lemma LastOfMonth(year: int, month: int)
    ensures MakeDay(year, month, DaysInMonth(year, month)) == MakeDay(year, month, 1) + DaysInMonth(year, month) - 1
  {
  }

  // ---------------------------------------------------------------- months as intervals

  /** The constraint periods_calendar_month: a whole calendar month. */
  predicate IsWholeMonth(start: int, end: int) {
    var first := Decode(start);
    first.day == 1 && end == start + DaysInMonth(first.year, first.month) - 1
  }

  function FirstOfMonth(n: int): int {
    n - Decode(n).day + 1
  }

  function LastDayOfMonth(n: int): int {
    FirstOfMonth(n) + DaysInMonth(Decode(n).year, Decode(n).month) - 1
  }

  lemma FirstDecodes(n: int)
    ensures Decode(FirstOfMonth(n)) == Decode(n).(day := 1)
    ensures IsWholeMonth(FirstOfMonth(n), LastDayOfMonth(n))
    ensures FirstOfMonth(n) <= n <= LastDayOfMonth(n)
  {
    hide Decode, DaysInMonth, DayFromYear, DaysBefore;
    var date := Decode(n);
    DecodeInverts(date.(day := 1));
  }

  // A whole month contains a day exactly if it is the day's own month: months are equal or
  // disjoint.
  lemma OnlyOwnMonthContains(start: int, end: int, n: int)
    requires IsWholeMonth(start, end)
    ensures start <= n <= end <==> start == FirstOfMonth(n)
    ensures start == FirstOfMonth(n) ==> end == LastDayOfMonth(n)
  {
    hide Decode, DaysInMonth, DayFromYear, DaysBefore;
    var first := Decode(start);
    FirstDecodes(n);
    if start <= n <= end {
      var within := first.(day := n - start + 1);
      assert MakeDay(within.year, within.month, within.day) == n;
      DecodeInverts(within);
    }
  }

  // Months tile the calendar: the day after the end of one is the start of a whole month.
  lemma MonthsTile(start: int, end: int)
    requires IsWholeMonth(start, end)
    ensures FirstOfMonth(end + 1) == end + 1 && FirstOfMonth(start - 1) < start
    ensures IsWholeMonth(end + 1, LastDayOfMonth(end + 1)) && LastDayOfMonth(start - 1) == start - 1
  {
    hide Decode, DaysInMonth, DayFromYear, DaysBefore;
    OnlyOwnMonthContains(start, end, end + 1);
    FirstDecodes(end + 1);
    var next := FirstOfMonth(end + 1);
    OnlyOwnMonthContains(next, LastDayOfMonth(end + 1), end);
    OnlyOwnMonthContains(start, end, end);
    OnlyOwnMonthContains(start, end, next);
    OnlyOwnMonthContains(next, LastDayOfMonth(end + 1), next);
    FirstDecodes(start - 1);
    OnlyOwnMonthContains(FirstOfMonth(start - 1), LastDayOfMonth(start - 1), start);
    OnlyOwnMonthContains(start, end, start - 1);
    OnlyOwnMonthContains(start, end, start);
  }

  // ---------------------------------------------------------------- the periods of one book

  datatype Period = Period(id: string, start: int, end: int)

  predicate Contains(period: Period, n: int) {
    period.start <= n <= period.end
  }

  /** The table's constraints: whole months, one row for each first day, distinct identifiers. */
  predicate Constrained(rows: seq<Period>) {
    && (forall i :: 0 <= i < |rows| ==> IsWholeMonth(rows[i].start, rows[i].end))
    && (forall i, j :: 0 <= i < j < |rows| ==> rows[i].start != rows[j].start && rows[i].id != rows[j].id)
  }

  // Periods of one table never overlap.
  lemma PeriodsAreDisjoint(rows: seq<Period>, i: nat, j: nat, n: int)
    requires Constrained(rows) && i < |rows| && j < |rows| && Contains(rows[i], n) && Contains(rows[j], n)
    ensures i == j
  {
    hide IsWholeMonth, FirstOfMonth;
    OnlyOwnMonthContains(rows[i].start, rows[i].end, n);
    OnlyOwnMonthContains(rows[j].start, rows[j].end, n);
  }

  ghost predicate ResolvesTo(rows: seq<Period>, n: int, id: string) {
    exists i :: 0 <= i < |rows| && rows[i].id == id && Contains(rows[i], n)
  }

  class PeriodTable {
    var rows: seq<Period>

    ghost predicate Valid()
      reads this
    {
      Constrained(rows)
    }

    /** findPeriodIdForOccurredOn: the one row that contains the day; with two it finds none. */
    method Find(n: int) returns (found: Option<string>)
      ensures found.Some? ==> ResolvesTo(rows, n, found.value)
      ensures Valid() ==> (found.None? <==> forall i :: 0 <= i < |rows| ==> !Contains(rows[i], n))
    {
      var matches: seq<string> := [];
      ghost var where: seq<nat> := [];
      for i := 0 to |rows|
        invariant |where| == |matches| <= 2
        invariant forall k :: 0 <= k < |where| ==>
          where[k] < i && Contains(rows[where[k]], n) && rows[where[k]].id == matches[k]
        invariant |where| == 2 ==> where[0] != where[1]
        invariant matches == [] ==> forall k :: 0 <= k < i ==> !Contains(rows[k], n)
      {
        if Contains(rows[i], n) && |matches| < 2 {
          matches := matches + [rows[i].id];
          where := where + [i];
        }
      }
      if |matches| == 2 {
        if Valid() {
          PeriodsAreDisjoint(rows, where[0], where[1], n);
        }
      }
      return if |matches| == 1 then Some(matches[0]) else None;
    }

    /** INSERT ... ON CONFLICT (period_start) DO NOTHING. */
    method Insert(period: Period)
      requires Valid() && IsWholeMonth(period.start, period.end)
      requires forall i :: 0 <= i < |rows| ==> rows[i].id != period.id
      modifies this
      ensures Valid()
      ensures exists i :: 0 <= i < |rows| && rows[i].start == period.start
      ensures rows == if exists i :: 0 <= i < |old(rows)| && old(rows)[i].start == period.start
        then old(rows) else old(rows) + [period]
    {
      hide IsWholeMonth;
      for i := 0 to |rows|
        invariant forall k :: 0 <= k < i ==> rows[k].start != period.start
      {
        if rows[i].start == period.start {
          return;
        }
      }
      rows := rows + [period];
      assert rows[|rows| - 1].start == period.start;
    }

    /** resolveOrCreatePeriodIdForOccurredOn. Between its two statements other sessions may insert
        rows of their own, as far as the constraints let them. */
    method Resolve(occurredOn: string, offered: Option<string>, others: seq<Period>)
      returns (result: Result<string, Error>)
      requires Valid() && Constrained(rows + others)
      requires offered.Some? ==> forall i :: 0 <= i < |rows + others| ==> (rows + others)[i].id != offered.value
      modifies this
      ensures Valid()
      ensures old(rows) <= rows
      ensures result.Success? <==>
        && IsRealLocalDate(occurredOn)
        && (offered.Some? || exists i :: 0 <= i < |old(rows)| && Contains(old(rows)[i], DayNumber(occurredOn)))
      ensures result == Failure(InvalidDate) <==> !IsRealLocalDate(occurredOn)
      ensures result.Failure? ==> result.error in {InvalidDate, AllocatorMissing}
      ensures result.Success? ==> ResolvesTo(rows, DayNumber(occurredOn), result.value)
      ensures |rows| <= |old(rows)| + |others| + 1
    {
      hide MonthlyPeriodBounds, IsWholeMonth, FirstOfMonth, LastDayOfMonth, Decode, MakeDay, DateUtc, Number, AllDigits;
      if !IsRealLocalDate(occurredOn) {
        return Failure(InvalidDate);
      }
      var n := DayNumber(occurredOn);
      var existing := Find(n);
      if existing.Some? {
        return Success(existing.value);
      }
      rows := rows + others;
      BoundsHoldTheDate(occurredOn);
      var bounds := MonthlyPeriodBounds(occurredOn).value;
      if offered.None? {
        return Failure(AllocatorMissing);
      }
      Insert(Period(offered.value, DayNumber(bounds.periodStart), DayNumber(bounds.periodEnd)));
      var resolved := Find(n);
      var i :| 0 <= i < |rows| && rows[i].start == DayNumber(bounds.periodStart);
      OnlyOwnMonthContains(rows[i].start, rows[i].end, n);
      if resolved.Some? {
        return Success(resolved.value);
      }
      return Failure(MaterializationFailed);
    }
  }

  // As day numbers the bounds of a date's month are that whole month, and they contain the date.
  lemma BoundsHoldTheDate(occurredOn: string)
    requires IsRealLocalDate(occurredOn)
    ensures MonthlyPeriodBounds(occurredOn).Success?
    ensures var bounds, n := MonthlyPeriodBounds(occurredOn).value, DayNumber(occurredOn);
      && IsRealLocalDate(bounds.periodStart) && IsRealLocalDate(bounds.periodEnd)
      && DayNumber(bounds.periodStart) == FirstOfMonth(n) && DayNumber(bounds.periodEnd) == LastDayOfMonth(n)
      && IsWholeMonth(DayNumber(bounds.periodStart), DayNumber(bounds.periodEnd))
      && DayNumber(bounds.periodStart) <= n <= DayNumber(bounds.periodEnd)
  {
    hide Decode, DaysInMonth, DayFromYear, DaysBefore, Text, MonthlyPeriodBounds, HasDateShape;
    BoundsAreTheMonth(occurredOn);
    RealIsGregorian(occurredOn);
    var date := Civil(YearOf(occurredOn), MonthOf(occurredOn) - 1, DayOf(occurredOn));
    TextReadsBack(date.(day := 1));
    TextReadsBack(date.(day := DaysInMonth(date.year, date.month)));
    DecodeInverts(date);
    FirstDecodes(DayNumber(occurredOn));
  }
}
