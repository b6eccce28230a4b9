/** Decimal strings of any length (packages/accounting/src/amounts.ts). */
module Decimal {
  import opened Wrappers

  datatype Parts = Parts(negative: bool, integer: string, fraction: string)

  datatype Malformed = ExpectedCanonicalDecimal

  predicate AllDigits(s: string) {
    forall i :: 0 <= i < |s| ==> '0' <= s[i] <= '9'
  }

  function StripLeadingZeros(digits: string): string {
    if |digits| > 1 && digits[0] == '0' then StripLeadingZeros(digits[1..]) else digits
  }

  function PointIn(s: string): (i: nat)
    ensures i <= |s|
    ensures i < |s| ==> s[i] == '.'
    ensures '.' !in s[..i]
  {
    if s == [] || s[0] == '.' then 0
    else
      assert forall i | 0 < i <= |s| :: s[..i] == [s[0]] + s[1..][..i - 1];
      1 + PointIn(s[1..])
  }

  /** parts: an optional minus, digits, and possibly a point with more digits. */
  function PartsOf(value: string): Option<Parts> {
    var negative := value != [] && value[0] == '-';
    var body := if negative then value[1..] else value;
    var point := PointIn(body);
    var integer := body[..point];
    if integer == [] || !AllDigits(integer) then None
    else if point == |body| then Some(Parts(negative, StripLeadingZeros(integer), []))
    else
      var fraction := body[point + 1..];
      if fraction == [] || !AllDigits(fraction) then None
      else Some(Parts(negative, StripLeadingZeros(integer), fraction))
  }

  predicate Canonical(value: string) {
    PartsOf(value).Some?
  }

  // ---------------------------------------------------------------- digits

  function Value(digits: string): int {
    if digits == [] then 0
    else 10 * Value(digits[..|digits| - 1]) + (digits[|digits| - 1] as int - '0' as int)
  }

  function Pow10(n: nat): (p: nat)
    ensures p >= 1
  {
    if n == 0 then 1 else 10 * Pow10(n - 1)
  }

  function Zeros(n: nat): (z: string)
    ensures |z| == n && forall i :: 0 <= i < n ==> z[i] == '0'
  {
    seq(n, _ => '0')
  }

  function PadEnd(s: string, length: nat): string {
    if |s| < length then s + Zeros(length - |s|) else s
  }

  function PadStart(s: string, length: nat): string {
    if |s| < length then Zeros(length - |s|) + s else s
  }

  function Digits(n: nat): (digits: string)
    ensures digits != []
  {
    if n < 10 then [('0' as int + n) as char] else Digits(n / 10) + [('0' as int + n % 10) as char]
  }

  // ---------------------------------------------------------------- the functions of the file

  function Aligned(value: string, scale: nat): int
    requires Canonical(value)
  {
    var parsed := PartsOf(value).value;
    var magnitude := Value(parsed.integer + PadEnd(parsed.fraction, scale));
    if parsed.negative then -magnitude else magnitude
  }

  function Format(value: int, scale: nat): string {
    var negative := value < 0;
    var digits := PadStart(Digits(if negative then -value else value), scale + 1);
    var cut := |digits| - scale;
    var rendered := if scale == 0 then digits else digits[..cut] + "." + digits[cut..];
    if negative then "-" + rendered else rendered
  }

  function ScaleOf(value: string): nat
    requires Canonical(value)
  {
    |PartsOf(value).value.fraction|
  }

  function Max(a: nat, b: nat): nat {
    if a < b then b else a
  }

  function Compare(left: string, right: string): Result<int, Malformed> {
    if !Canonical(left) || !Canonical(right) then Failure(ExpectedCanonicalDecimal)
    else
      var scale := Max(ScaleOf(left), ScaleOf(right));
      var difference := Aligned(left, scale) - Aligned(right, scale);
      Success(if difference < 0 then -1 else if difference > 0 then 1 else 0)
  }

  function Negate(value: string): string {
    if value != [] && value[0] == '-' then value[1..] else "-" + value
  }

  // ---------------------------------------------------------------- what a string denotes

  /** A canonical string denotes Numerator / Pow10(ScaleOf). */
  function Numerator(value: string): int
    requires Canonical(value)
  {
    Aligned(value, ScaleOf(value))
  }

  lemma {:induction false} PowersMultiply(a: nat, b: nat)
    ensures Pow10(a + b) == Pow10(a) * Pow10(b)
  {
    if a > 0 {
      PowersMultiply(a - 1, b);
      assert 10 * (Pow10(a - 1) * Pow10(b)) == (10 * Pow10(a - 1)) * Pow10(b);
    }
  }

  lemma {:induction false} ValueOfConcat(s: string, t: string)
    ensures Value(s + t) == Value(s) * Pow10(|t|) + Value(t)
  {
    if t == [] {
      assert s + t == s;
    } else {
      var last := |t| - 1;
      ValueOfConcat(s, t[..last]);
      assert (s + t)[..|s + t| - 1] == s + t[..last];
      assert 10 * (Value(s) * Pow10(last)) == Value(s) * (10 * Pow10(last));
    }
  }

  lemma {:induction false} ValueOfZeros(n: nat)
    ensures Value(Zeros(n)) == 0
  {
    if n > 0 {
      ValueOfZeros(n - 1);
      assert Zeros(n)[..n - 1] == Zeros(n - 1);
    }
  }

  // Aligning to a larger scale multiplies by a power of ten, so it changes no value.
  lemma {:induction false} AligningScales(value: string, scale: nat)
    requires Canonical(value) && ScaleOf(value) <= scale
    ensures Aligned(value, scale) == Numerator(value) * Pow10(scale - ScaleOf(value))
  {
    hide PartsOf, Value, Pow10;
    var parsed := PartsOf(value).value;
    var extra := scale - |parsed.fraction|;
    var digits := parsed.integer + parsed.fraction;
    assert PadEnd(parsed.fraction, |parsed.fraction|) == parsed.fraction;
    assert PadEnd(parsed.fraction, scale) == parsed.fraction + Zeros(extra);
    assert parsed.integer + (parsed.fraction + Zeros(extra)) == digits + Zeros(extra);
    ValueOfConcat(digits, Zeros(extra));
    ValueOfZeros(extra);
    assert -(Value(digits) * Pow10(extra)) == (-Value(digits)) * Pow10(extra);
  }

  lemma Associative(a: int, b: int, c: int)
    ensures a * (b * c) == (a * b) * c
  {
  }

  lemma Distributive(a: int, b: int, c: int)
    ensures (a + b) * c == a * c + b * c
  {
  }

  // Aligning from one sufficient scale to another.
  lemma {:induction false} RealigningScales(value: string, scale: nat, larger: nat)
    requires Canonical(value) && ScaleOf(value) <= scale <= larger
    ensures Aligned(value, larger) == Aligned(value, scale) * Pow10(larger - scale)
  {
    hide PartsOf, Value, Pow10, Aligned, Numerator, ScaleOf;
    var own := ScaleOf(value);
    AligningScales(value, scale);
    AligningScales(value, larger);
    PowersMultiply(scale - own, larger - scale);
    Associative(Numerator(value), Pow10(scale - own), Pow10(larger - scale));
  }

  /** The order of the rationals a / 10^m and b / 10^n. */
  function RationalOrder(a: int, m: nat, b: int, n: nat): int {
    var difference := a * Pow10(n) - b * Pow10(m);
    if difference < 0 then -1 else if difference > 0 then 1 else 0
  }

  // compareDecimalStrings is the order of the rationals denoted.
  lemma CompareIsExact(left: string, right: string)
    requires Canonical(left) && Canonical(right)
    ensures Compare(left, right)
         == Success(RationalOrder(Numerator(left), ScaleOf(left), Numerator(right), ScaleOf(right)))
  {
    hide PartsOf, Value, Pow10, Aligned, Numerator, ScaleOf, RationalOrder;
    var m, n := ScaleOf(left), ScaleOf(right);
    AligningScales(left, Max(m, n));
    AligningScales(right, Max(m, n));
    if m <= n {
      OrderAtCommonScale(Numerator(left), m, Numerator(right), n);
    } else {
      OrderAtCommonScale(Numerator(right), n, Numerator(left), m);
      OrderIsAntisymmetric(Numerator(left), m, Numerator(right), n);
    }
  }

  function Sign(d: int): int {
    if d < 0 then -1 else if d > 0 then 1 else 0
  }

  lemma {:induction false} OrderAtCommonScale(a: int, m: nat, b: int, n: nat)
    requires m <= n
    ensures RationalOrder(a, m, b, n) == Sign(a * Pow10(n - m) - b * Pow10(n - n))
  {
    PowersMultiply(m, n - m);
    CrossMultiplied(a, b, Pow10(m), Pow10(n - m));
    SignOfProduct(a * Pow10(n - m) - b, Pow10(m));
  }

  lemma OrderIsAntisymmetric(a: int, m: nat, b: int, n: nat)
    ensures RationalOrder(a, m, b, n) == -RationalOrder(b, n, a, m)
  {
    hide Pow10;
  }

  lemma CrossMultiplied(a: int, b: int, p: int, q: int)
    ensures a * (p * q) - b * p == (a * q - b) * p
  {
    assert a * (p * q) == (a * q) * p;
  }

  lemma SignOfProduct(d: int, p: int)
    requires p > 0
    ensures (d * p < 0 <==> d < 0) && (d * p > 0 <==> d > 0)
  {
  }

  // ---------------------------------------------------------------- format

  lemma {:induction false} DigitsAreTheValue(n: nat)
    ensures AllDigits(Digits(n)) && Value(Digits(n)) == n
  {
    if n < 10 {
      assert Digits(n)[..0] == [];
    } else {
      DigitsAreTheValue(n / 10);
      var digits := Digits(n);
      assert digits[..|digits| - 1] == Digits(n / 10);
    }
  }

  lemma {:induction false} StrippingKeepsValue(digits: string)
    ensures Value(StripLeadingZeros(digits)) == Value(digits)
    ensures |StripLeadingZeros(digits)| <= |digits|
  {
    if |digits| > 1 && digits[0] == '0' {
      StrippingKeepsValue(digits[1..]);
      assert digits == ['0'] + digits[1..];
      ValueOfConcat(['0'], digits[1..]);
      assert Value(['0']) == 0 by {
        assert ['0'][..0] == [];
      }
    }
  }

  lemma {:induction false} FirstPoint(s: string, t: string)
    requires '.' !in s
    ensures PointIn(s + "." + t) == |s|
  {
    var all := s + "." + t;
    assert all[|s|] == '.';
    assert forall i :: 0 <= i < |s| ==> all[i] == s[i] && s[i] in s;
  }

  lemma {:induction false} NoPoint(s: string)
    requires '.' !in s
    ensures PointIn(s) == |s|
  {
    assert forall i :: 0 <= i < |s| ==> s[i] in s;
  }

  // What is formatted reads back: format keeps every digit at any size and any scale.
  lemma FormatRoundTrips(value: int, scale: nat)
    ensures Canonical(Format(value, scale))
    ensures ScaleOf(Format(value, scale)) == scale
    ensures Aligned(Format(value, scale), scale) == value
  {
    hide PartsOf, Value, StripLeadingZeros, Digits;
    var magnitude := if value < 0 then -value else value;
    var digits := PadStart(Digits(magnitude), scale + 1);
    var cut := |digits| - scale;
    PaddedDigits(magnitude, scale + 1);
    var integer, fraction := digits[..cut], digits[cut..];
    assert digits == integer + fraction;
    RenderedParts(value, scale, integer, fraction, if scale == 0 then digits else integer + "." + fraction);
    StrippingKeepsValue(integer);
    ValueOfConcat(integer, fraction);
    ValueOfConcat(StripLeadingZeros(integer), fraction);
    assert PadEnd(fraction, scale) == fraction;
  }

  lemma {:induction false} PaddedDigits(n: nat, length: nat)
    ensures AllDigits(PadStart(Digits(n), length)) && Value(PadStart(Digits(n), length)) == n
    ensures |PadStart(Digits(n), length)| >= length
  {
    hide Digits, Value;
    DigitsAreTheValue(n);
    if |Digits(n)| < length {
      ValueOfConcat(Zeros(length - |Digits(n)|), Digits(n));
      ValueOfZeros(length - |Digits(n)|);
    }
  }

  lemma {:induction false} RenderedParts(value: int, scale: nat, integer: string, fraction: string, rendered: string)
    requires integer != [] && AllDigits(integer) && AllDigits(fraction) && |fraction| == scale
    requires rendered == if scale == 0 then integer + fraction else integer + "." + fraction
    requires Format(value, scale) == if value < 0 then "-" + rendered else rendered
    ensures PartsOf(Format(value, scale)) == Some(Parts(value < 0, StripLeadingZeros(integer), fraction))
  {
    assert '.' !in integer;
    assert rendered[0] == integer[0] && integer[0] != '-';
    assert ("-" + rendered)[1..] == rendered;
    if scale == 0 {
      assert rendered == integer;
      NoPoint(rendered);
    } else {
      FirstPoint(integer, fraction);
      assert rendered[..|integer|] == integer && rendered[|integer| + 1..] == fraction;
    }
  }

  // ---------------------------------------------------------------- what is accepted

  function Unsigned(integer: string, fraction: string): string {
    if fraction == [] then integer else integer + "." + fraction
  }

  /** The pattern: an optional minus, digits, and possibly a point followed by digits. */
  ghost predicate Written(value: string, negative: bool, integer: string, fraction: string) {
    && integer != [] && AllDigits(integer) && AllDigits(fraction)
    && value == if negative then "-" + Unsigned(integer, fraction) else Unsigned(integer, fraction)
  }

  lemma UnsignedReadsBack(integer: string, fraction: string)
    requires integer != [] && AllDigits(integer)
    ensures var body := Unsigned(integer, fraction);
      && PointIn(body) == |integer| && body[..|integer|] == integer && body[0] == integer[0]
      && (fraction != [] ==> |integer| < |body| && body[|integer| + 1..] == fraction)
      && (fraction == [] ==> |body| == |integer|)
  {
    assert '.' !in integer;
    if fraction == [] {
      NoPoint(integer);
    } else {
      FirstPoint(integer, fraction);
    }
  }

  // A string is accepted exactly if it is so written, and then it has those parts.
  lemma WrittenIsRead(value: string, negative: bool, integer: string, fraction: string)
    requires Written(value, negative, integer, fraction)
    ensures PartsOf(value) == Some(Parts(negative, StripLeadingZeros(integer), fraction))
  {
    hide StripLeadingZeros, PointIn, Unsigned;
    UnsignedReadsBack(integer, fraction);
    assert negative ==> value[1..] == Unsigned(integer, fraction);
  }

  lemma ReadIsWritten(value: string) returns (integer: string)
    requires Canonical(value)
    ensures var parts := PartsOf(value).value;
      Written(value, parts.negative, integer, parts.fraction) && parts.integer == StripLeadingZeros(integer)
  {
    hide StripLeadingZeros, PointIn;
    var parts := PartsOf(value).value;
    assert parts.negative ==> value == "-" + value[1..];
    var body := if parts.negative then value[1..] else value;
    integer := body[..PointIn(body)];
    PointSplits(body);
    assert body == Unsigned(integer, parts.fraction);
  }

  lemma PointSplits(body: string)
    ensures var point := PointIn(body);
      if point == |body| then body[..point] == body
      else body == body[..point] + "." + body[point + 1..]
  {
  }

  // Stripping takes zeros away and no other digit, as many as it can without taking the last one.
  lemma {:induction false} StripsZeros(digits: string)
    requires digits != []
    ensures var stripped := StripLeadingZeros(digits);
      && stripped != [] && (stripped[0] == '0' ==> |stripped| == 1)
      && |stripped| <= |digits| && digits == Zeros(|digits| - |stripped|) + stripped
  {
    if |digits| > 1 && digits[0] == '0' {
      var rest, stripped := digits[1..], StripLeadingZeros(digits);
      StripsZeros(rest);
      assert digits == ['0'] + (Zeros(|rest| - |stripped|) + stripped);
      assert ['0'] + Zeros(|rest| - |stripped|) == Zeros(|digits| - |stripped|);
    } else {
      assert Zeros(0) + digits == digits;
    }
  }

  // ---------------------------------------------------------------- negation

  // Negation negates the value at every scale and is an involution.
  lemma NegationIsExact(value: string, scale: nat)
    requires Canonical(value)
    ensures Canonical(Negate(value)) && ScaleOf(Negate(value)) == ScaleOf(value)
    ensures Aligned(Negate(value), scale) == -Aligned(value, scale)
    ensures Negate(Negate(value)) == value
  {
    hide PartsOf, PointIn, Value, StripLeadingZeros, Zeros, PadEnd, Unsigned;
    var integer := ReadIsWritten(value);
    var parts := PartsOf(value).value;
    UnsignedReadsBack(integer, parts.fraction);
    assert integer[0] != '-';
    assert ("-" + Unsigned(integer, parts.fraction))[1..] == Unsigned(integer, parts.fraction);
    WrittenIsRead(Negate(value), !parts.negative, integer, parts.fraction);
  }

  // ---------------------------------------------------------------- totals

  datatype Direction = Debit | Credit

  datatype SignedPosting = SignedPosting(direction: Direction, amount: string)

  /** The exact total of one side, as a number of units of 10^-scale. */
  function Total(postings: seq<SignedPosting>, direction: Direction, scale: nat): int
    requires forall p :: p in postings ==> Canonical(p.amount)
  {
    if postings == [] then 0
    else
      var last := postings[|postings| - 1];
      Total(postings[..|postings| - 1], direction, scale)
        + if last.direction == direction then Aligned(last.amount, scale) else 0
  }

  lemma {:induction false} TotalScales(postings: seq<SignedPosting>, direction: Direction, scale: nat, larger: nat)
    requires forall p :: p in postings ==> Canonical(p.amount) && ScaleOf(p.amount) <= scale
    requires scale <= larger
    ensures Total(postings, direction, larger) == Total(postings, direction, scale) * Pow10(larger - scale)
  {
    hide PartsOf, Aligned, ScaleOf, Pow10;
    if postings != [] {
      var last := |postings| - 1;
      assert postings[last] in postings;
      TotalScales(postings[..last], direction, scale, larger);
      RealigningScales(postings[last].amount, scale, larger);
      Distributive(Total(postings[..last], direction, scale), Aligned(postings[last].amount, scale),
                   Pow10(larger - scale));
    }
  }

  /** The string denotes the true total: at every scale fine enough for all amounts they agree. */
  ghost predicate DenotesTotal(total: string, postings: seq<SignedPosting>, direction: Direction)
    requires forall p :: p in postings ==> Canonical(p.amount)
  {
    && Canonical(total)
    && forall scale: nat :: ScaleOf(total) <= scale && (forall p :: p in postings ==> ScaleOf(p.amount) <= scale) ==>
         Aligned(total, scale) == Total(postings, direction, scale)
  }

  lemma {:induction false} FormattedTotal(postings: seq<SignedPosting>, direction: Direction, scale: nat)
    requires forall p :: p in postings ==> Canonical(p.amount) && ScaleOf(p.amount) <= scale
    ensures DenotesTotal(Format(Total(postings, direction, scale), scale), postings, direction)
    ensures ScaleOf(Format(Total(postings, direction, scale), scale)) == scale
  {
    var total := Format(Total(postings, direction, scale), scale);
    FormatRoundTrips(Total(postings, direction, scale), scale);
    forall larger: nat | ScaleOf(total) <= larger
      ensures Aligned(total, larger) == Total(postings, direction, larger)
    {
      RealigningScales(total, scale, larger);
      TotalScales(postings, direction, scale, larger);
    }
  }

  /** The number of decimals of the amount that has the most; none without amounts. */
  ghost predicate IsLargestScale(scale: nat, postings: seq<SignedPosting>)
    requires forall p :: p in postings ==> Canonical(p.amount)
  {
    && (forall p :: p in postings ==> ScaleOf(p.amount) <= scale)
    && (scale == 0 || exists p :: p in postings && ScaleOf(p.amount) == scale)
  }

  /** sumSignedPostings. */
  method SumSignedPostings(postings: seq<SignedPosting>) returns (result: Result<(string, string), Malformed>)
    ensures result.Failure? <==> exists p :: p in postings && !Canonical(p.amount)
    ensures result.Success? ==>
      && DenotesTotal(result.value.0, postings, Debit)
      && DenotesTotal(result.value.1, postings, Credit)
      && ScaleOf(result.value.0) == ScaleOf(result.value.1) && IsLargestScale(ScaleOf(result.value.0), postings)
  {
    hide PartsOf, Aligned, Format, DenotesTotal;
    var scale: nat := 0;
    for i := 0 to |postings|
      invariant forall k :: 0 <= k < i ==> Canonical(postings[k].amount) && ScaleOf(postings[k].amount) <= scale
      invariant scale == 0 || exists k :: 0 <= k < i && ScaleOf(postings[k].amount) == scale
    {
      if !Canonical(postings[i].amount) {
        assert postings[i] in postings;
        return Failure(ExpectedCanonicalDecimal);
      }
      scale := Max(scale, ScaleOf(postings[i].amount));
    }
    var debit, credit := 0, 0;
    for i := 0 to |postings|
      invariant debit == Total(postings[..i], Debit, scale)
      invariant credit == Total(postings[..i], Credit, scale)
    {
      assert postings[..i + 1][..i] == postings[..i];
      if postings[i].direction == Debit {
        debit := debit + Aligned(postings[i].amount, scale);
      } else {
        credit := credit + Aligned(postings[i].amount, scale);
      }
    }
    assert postings[..|postings|] == postings;
    assert IsLargestScale(scale, postings);
    FormattedTotal(postings, Debit, scale);
    FormattedTotal(postings, Credit, scale);
    return Success((Format(debit, scale), Format(credit, scale)));
  }
}
