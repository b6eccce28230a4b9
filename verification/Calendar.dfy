/** Local dates (packages/contracts/src/time.ts), over the day arithmetic of ECMAScript Date
    objects (sections 21.4.1 and 21.4.3.4 of ECMA-262). */
module Calendar {
  import opened Wrappers
  import opened Decimal

  // ---------------------------------------------------------------- the Gregorian calendar

  predicate Leap(year: int) {
    year % 4 == 0 && (year % 100 != 0 || year % 400 == 0)
  }

  /** Months count from 0, as in Date objects. */
  function DaysInMonth(year: int, month: int): (days: int)
    ensures 28 <= days <= 31
  {
    if month == 1 then (if Leap(year) then 29 else 28)
    else if month == 3 || month == 5 || month == 8 || month == 10 then 30
    else 31
  }

  datatype Civil = Civil(year: int, month: int, day: int)

  predicate Exists(date: Civil) {
    0 <= date.month < 12 && 1 <= date.day <= DaysInMonth(date.year, date.month)
  }

  // ---------------------------------------------------------------- Date objects

  /** DayFromYear: the day number of 1 January; the divisions round down. */
  function DayFromYear(year: int): int {
    365 * (year - 1970) + (year - 1969) / 4 - (year - 1901) / 100 + (year - 1601) / 400
  }

  function DaysInYear(year: int): int {
    if Leap(year) then 366 else 365
  }

  /** The days of a year before a month. */
  function DaysBefore(year: int, month: nat): int {
    if month == 0 then 0 else DaysBefore(year, month - 1) + DaysInMonth(year, month - 1)
  }

  /** MakeDay: months and days outside their range carry over. */
  function MakeDay(year: int, month: int, day: int): int {
    var carried := year + month / 12;
    DayFromYear(carried) + DaysBefore(carried, month % 12) + day - 1
  }

  /** Date.UTC takes the years 0 to 99 for 1900 to 1999. */
  function DateUtc(year: int, month: int, day: int): int {
    MakeDay(if 0 <= year <= 99 then 1900 + year else year, month, day)
  }

  /** YearFromTime: the year whose days include day number n. */
  function YearNear(year: int, n: int): (found: int)
    ensures DayFromYear(found) <= n < DayFromYear(found + 1)
    decreases
      if n < DayFromYear(year) then DayFromYear(year) - n
      else if n < DayFromYear(year + 1) then 0
      else n - DayFromYear(year)
  {
    YearLength(year);
    YearLength(year - 1);
    if n < DayFromYear(year) then YearNear(year - 1, n)
    else if DayFromYear(year + 1) <= n then YearNear(year + 1, n)
    else year
  }

  function MonthNear(year: int, month: nat, offset: int): (found: nat)
    requires month < 12 && DaysBefore(year, month) <= offset < DaysBefore(year, 12)
    ensures found < 12 && DaysBefore(year, found) <= offset < DaysBefore(year, found + 1)
    decreases 12 - month
  {
    if offset < DaysBefore(year, month + 1) then month else MonthNear(year, month + 1, offset)
  }

  /** getUTCFullYear, getUTCMonth and getUTCDate of day number n. */
  function Decode(n: int): (date: Civil)
    ensures Exists(date)
    ensures MakeDay(date.year, date.month, date.day) == n
  {
    var year := YearNear(1970, n);
    var offset := n - DayFromYear(year);
    YearLength(year);
    MonthsFillTheYear(year);
    var month := MonthNear(year, 0, offset);
    Civil(year, month, offset - DaysBefore(year, month) + 1)
  }

  lemma YearLength(year: int)
    ensures DayFromYear(year + 1) == DayFromYear(year) + DaysInYear(year)
  {
    DivisionStep(year - 1969, 4);
    DivisionStep(year - 1901, 100);
    DivisionStep(year - 1601, 400);
  }

  lemma DivisionStep(a: int, b: int)
    requires b > 1
    ensures (a + 1) / b == a / b + if (a + 1) % b == 0 then 1 else 0
  {
    var q, r := a / b, a % b;
    assert a == b * q + r;
    if r == b - 1 {
      assert a + 1 == b * (q + 1);
      DivideUnique(a + 1, b, q + 1, 0);
    } else {
      DivideUnique(a + 1, b, q, r + 1);
    }
  }

  lemma DivideUnique(a: int, b: int, q: int, r: int)
    requires b > 0 && a == b * q + r && 0 <= r < b
    ensures a / b == q && a % b == r
  {
    var d := a / b - q;
    assert b * d == r - a % b;
    ProductBounds(b, d);
  }

  lemma ProductBounds(b: int, d: int)
    requires b > 0
    ensures (d > 0 ==> b * d >= b) && (d < 0 ==> b * d <= -b)
  {
  }

  lemma {:induction false} MonthsFillTheYear(year: int)
    ensures DaysBefore(year, 12) == DaysInYear(year)
  {
    var february := DaysInMonth(year, 1);
    assert DaysBefore(year, 0) == 0 && DaysBefore(year, 1) == 31;
    assert DaysBefore(year, 2) == 31 + february && DaysBefore(year, 3) == 62 + february;
    assert DaysBefore(year, 4) == 92 + february && DaysBefore(year, 5) == 123 + february;
    assert DaysBefore(year, 6) == 153 + february && DaysBefore(year, 7) == 184 + february;
    assert DaysBefore(year, 8) == 215 + february && DaysBefore(year, 9) == 245 + february;
    assert DaysBefore(year, 10) == 276 + february && DaysBefore(year, 11) == 306 + february;
  }

  // ---------------------------------------------------------------- the two agree

  lemma {:induction false} YearsAscend(year: int, later: int)
    requires year <= later
    ensures DayFromYear(year) + 365 * (later - year) <= DayFromYear(later)
    decreases later - year
  {
    if year < later {
      YearsAscend(year, later - 1);
      YearLength(later - 1);
    }
  }

  lemma {:induction false} MonthsAscend(year: int, month: nat, later: nat)
    requires month <= later
    ensures DaysBefore(year, month) + 28 * (later - month) <= DaysBefore(year, later)
    decreases later - month
  {
    if month < later {
      MonthsAscend(year, month, later - 1);
    }
  }

  // The day number of a date that exists decodes to that date.
  lemma DecodeInverts(date: Civil)
    requires Exists(date)
    ensures Decode(MakeDay(date.year, date.month, date.day)) == date
  {
    hide DayFromYear, DaysBefore, DaysInMonth, YearNear, MonthNear;
    var n := MakeDay(date.year, date.month, date.day);
    var found := Decode(n);
    WithinTheYear(date);
    WithinTheYear(found);
    if date.year < found.year {
      YearsAscend(date.year + 1, found.year);
    } else if found.year < date.year {
      YearsAscend(found.year + 1, date.year);
    }
    assert date.year == found.year;
    WithinTheMonth(date);
    WithinTheMonth(found);
    if date.month < found.month {
      MonthsAscend(date.year, date.month + 1, found.month);
    } else if found.month < date.month {
      MonthsAscend(date.year, found.month + 1, date.month);
    }
  }

  lemma WithinTheMonth(date: Civil)
    requires Exists(date)
    ensures var n := MakeDay(date.year, date.month, date.day);
      DayFromYear(date.year) + DaysBefore(date.year, date.month) <= n
        < DayFromYear(date.year) + DaysBefore(date.year, date.month + 1)
  {
    hide DayFromYear;
  }

  lemma WithinTheYear(date: Civil)
    requires Exists(date)
    ensures DayFromYear(date.year) <= MakeDay(date.year, date.month, date.day) < DayFromYear(date.year + 1)
  {
    hide DayFromYear;
    WithinTheMonth(date);
    YearLength(date.year);
    MonthsFillTheYear(date.year);
    MonthsAscend(date.year, 0, date.month);
    MonthsAscend(date.year, date.month + 1, 12);
  }

  /** The first of the month after; Date arithmetic carries December over. */
  lemma NextMonthFollows(year: int, month: int)
    requires 0 <= month < 12
    ensures MakeDay(year, month + 1, 1) == MakeDay(year, month, 1) + DaysInMonth(year, month)
  {
    hide DayFromYear, DaysInMonth;
    if month == 11 {
      YearLength(year);
      MonthsFillTheYear(year);
    }
  }

  // ---------------------------------------------------------------- day numbers in closed form

  // The months from March on begin after 59 days, or 60 in a leap year, and then every 153 days
  // five months.
  lemma MonthStarts(year: int, month: int)
    requires 0 <= month < 12
    ensures MakeDay(year, month, 1) - MakeDay(year, 0, 1) ==
      if month == 0 then 0
      else if month == 1 then 31
      else 59 + (153 * (month - 2) + 2) / 5 + if Leap(year) then 1 else 0
  {
    hide DayFromYear;
    var february := DaysInMonth(year, 1);
    assert DaysBefore(year, 0) == 0 && DaysBefore(year, 1) == 31;
    assert DaysBefore(year, 2) == 31 + february && DaysBefore(year, 3) == 62 + february;
    assert DaysBefore(year, 4) == 92 + february && DaysBefore(year, 5) == 123 + february;
    assert DaysBefore(year, 6) == 153 + february && DaysBefore(year, 7) == 184 + february;
    assert DaysBefore(year, 8) == 215 + february && DaysBefore(year, 9) == 245 + february;
    assert DaysBefore(year, 10) == 276 + february && DaysBefore(year, 11) == 306 + february;
  }

  lemma QuotientShifts(a: int, b: int, k: int)
    requires b > 0
    ensures (a - b * k) / b == a / b - k
  {
    var q, r := a / b, a % b;
    assert a - b * k == b * (q - k) + r;
    DivideUnique(a - b * k, b, q - k, r);
  }

  lemma YearStarts(year: int)
    ensures DayFromYear(year) == 365 * (year - 1) + (year - 1) / 4 - (year - 1) / 100 + (year - 1) / 400 - 719162
  {
    QuotientShifts(year - 1, 4, 492);
    QuotientShifts(year - 1, 100, 19);
    QuotientShifts(year - 1, 400, 4);
  }

  lemma LeapDays(year: int)
    ensures year / 4 - year / 100 + year / 400
         == (year - 1) / 4 - (year - 1) / 100 + (year - 1) / 400 + if Leap(year) then 1 else 0
  {
    DivisionStep(year - 1, 4);
    DivisionStep(year - 1, 100);
    DivisionStep(year - 1, 400);
  }

  // The day number of any date, counted in years that begin with March: no table of months and no
  // leap year is needed then. Day 0 is 1 January 1970.
  lemma DayNumberInClosedForm(year: int, month: int, day: int)
    requires 0 <= month < 12
    ensures MakeDay(year, month, day) ==
      var marchYear := if month < 2 then year - 1 else year;
      365 * marchYear + marchYear / 4 - marchYear / 100 + marchYear / 400
      + (153 * ((month + 10) % 12) + 2) / 5 + day - 719469
  {
    hide DayFromYear, DaysBefore, Leap;
    MonthStarts(year, month);
    YearStarts(year);
    LeapDays(year);
    NoDaysBeforeJanuary(year);
    assert MakeDay(year, month, day) == MakeDay(year, month, 1) + day - 1;
    assert MakeDay(year, 0, 1) == DayFromYear(year);
    if month == 0 {
    } else if month == 1 {
    } else {
      assert (month + 10) % 12 == month - 2;
    }
  }

  // ---------------------------------------------------------------- strings

  function Number(s: string): int {
    Value(s)
  }

  /** The pattern four digits, two digits, two digits, with hyphens between. */
  predicate HasDateShape(s: string) {
    && |s| == 10 && s[4] == '-' && s[7] == '-'
    && AllDigits(s[..4]) && AllDigits(s[5..7]) && AllDigits(s[8..])
  }

  function YearOf(s: string): int requires HasDateShape(s) { Number(s[..4]) }

  function MonthOf(s: string): int requires HasDateShape(s) { Number(s[5..7]) }

  function DayOf(s: string): int requires HasDateShape(s) { Number(s[8..]) }

  predicate IsRealLocalDate(s: string) {
    && HasDateShape(s)
    && var date := Decode(DateUtc(YearOf(s), MonthOf(s) - 1, DayOf(s)));
       date.year == YearOf(s) && date.month == MonthOf(s) - 1 && date.day == DayOf(s)
  }

  function Text(date: Civil): string
    requires date.year >= 0 && date.month >= 0 && date.day >= 0
  {
    PadStart(Digits(date.year), 4) + "-" + PadStart(Digits(date.month + 1), 2) + "-" + PadStart(Digits(date.day), 2)
  }

  lemma {:induction false} DigitsBoundValue(s: string)
    requires AllDigits(s)
    ensures 0 <= Value(s) < Pow10(|s|)
  {
    if s != [] {
      var last := |s| - 1;
      assert AllDigits(s[..last]);
      DigitsBoundValue(s[..last]);
      assert '0' <= s[last] <= '9';
    }
  }

  lemma Pow10Values()
    ensures Pow10(2) == 100 && Pow10(4) == 10000
  {
    assert Pow10(2) == 10 * Pow10(1);
    assert Pow10(4) == 10 * Pow10(3) && Pow10(3) == 10 * Pow10(2);
  }

  lemma FieldsAreBounded(s: string)
    requires HasDateShape(s)
    ensures 0 <= YearOf(s) < 10000 && 0 <= MonthOf(s) < 100 && 0 <= DayOf(s) < 100
  {
    DigitsBoundValue(s[..4]);
    DigitsBoundValue(s[5..7]);
    DigitsBoundValue(s[8..]);
    Pow10Values();
  }

  // isRealLocalDate accepts exactly the dates of the Gregorian calendar from the year 100 on,
  // written with four, two and two digits; the earlier years are taken for other ones.
  lemma RealIsGregorian(s: string)
    ensures IsRealLocalDate(s) <==>
      HasDateShape(s) && YearOf(s) >= 100 && Exists(Civil(YearOf(s), MonthOf(s) - 1, DayOf(s)))
  {
    hide Decode, MakeDay, Exists, DaysInMonth;
    if HasDateShape(s) {
      FieldsAreBounded(s);
      var date := Civil(YearOf(s), MonthOf(s) - 1, DayOf(s));
      if YearOf(s) >= 100 {
        if Exists(date) {
          DecodeInverts(date);
        }
      } else {
        RemappedIsLater(YearOf(s), MonthOf(s) - 1, DayOf(s));
      }
    }
  }

  // Remapped years decode to the nineteenth century at the earliest.
  lemma RemappedIsLater(year: int, month: int, day: int)
    requires 0 <= year <= 99 && -1 <= month < 99 && 0 <= day < 100
    ensures Decode(DateUtc(year, month, day)).year > 99
  {
    hide DayFromYear, DaysBefore, DaysInMonth, Decode;
    var n := DateUtc(year, month, day);
    var carried := 1900 + year + month / 12;
    YearsAscend(1898, carried);
    MonthsAscend(carried, 0, month % 12);
    assert DaysBefore(carried, 0) == 0 by {
      NoDaysBeforeJanuary(carried);
    }
    assert n >= DayFromYear(1898);
    var found := Decode(n);
    WithinTheYear(found);
    if found.year < 1897 {
      YearsAscend(found.year + 1, 1898);
    }
  }

  lemma {:induction false} NoDaysBeforeJanuary(year: int)
    ensures DaysBefore(year, 0) == 0
  {
  }
}
