/** Identifiers of Working Memory entries: `ulid` in
    apps/engine/src/memory/working-memory-document.ts. */
module Ulid {
  import opened StringOrder

  const CROCKFORD := "0123456789ABCDEFGHJKMNPQRSTVWXYZ"

  type Digit = d: nat | d < 32

  type Byte = b: nat | b < 256

  /** The shift and the bitwise or of two signed 32-bit integers (section 7.1.6 of ECMA-262). */
  function ToInt32(n: int): int {
    (n + 0x8000_0000) % 0x1_0000_0000 - 0x8000_0000
  }

  /** (buffer << 8) | byte: the low eight bits are free after the shift. */
  function PushByte(buffer: int, byte: Byte): int {
    ToInt32(buffer * 256 + byte)
  }

  function Pow2(n: nat): (p: nat)
    ensures p > 0
  {
    if n == 0 then 1 else 2 * Pow2(n - 1)
  }

  /** (buffer >> bits) & 31: the shift keeps the sign, the mask drops it. */
  function DigitAt(buffer: int, bits: nat): Digit {
    (buffer / Pow2(bits)) % 32
  }

  // ---------------------------------------------------------------- the specification

  function Value32(digits: seq<Digit>): nat {
    if digits == [] then 0 else 32 * Value32(digits[..|digits| - 1]) + digits[|digits| - 1]
  }

  function Value256(bytes: seq<Byte>): nat {
    if bytes == [] then 0 else 256 * Value256(bytes[..|bytes| - 1]) + bytes[|bytes| - 1]
  }

  /** The last n base-32 digits of a number. */
  function Digits32(value: nat, n: nat): (digits: seq<Digit>)
    ensures |digits| == n
  {
    if n == 0 then [] else Digits32(value / 32, n - 1) + [value % 32]
  }

  function Encode(digits: seq<Digit>): (text: string)
    ensures |text| == |digits|
    ensures forall i :: 0 <= i < |digits| ==> text[i] == CROCKFORD[digits[i]]
  {
    seq(|digits|, i requires 0 <= i < |digits| => CROCKFORD[digits[i]])
  }

  function UlidOf(time: nat, random: seq<Byte>): string
    requires |random| == 16
  {
    Encode(Digits32(time, 10) + Digits32(Value256(random[..10]), 16))
  }

  lemma {:induction false} DigitsOfTheirValue(digits: seq<Digit>)
    ensures Digits32(Value32(digits), |digits|) == digits
  {
    if digits != [] {
      var last := |digits| - 1;
      DigitsOfTheirValue(digits[..last]);
      assert digits == digits[..last] + [digits[last]];
    }
  }

  // ---------------------------------------------------------------- the bit buffer

  lemma Powers()
    ensures Pow2(0) == 1 && Pow2(1) == 2 && Pow2(2) == 4 && Pow2(3) == 8 && Pow2(4) == 16
    ensures Pow2(5) == 32 && Pow2(6) == 64 && Pow2(7) == 128
    ensures Pow2(8) == 256 && Pow2(9) == 512 && Pow2(10) == 1024 && Pow2(11) == 2048 && Pow2(12) == 4096
  {
    assert Pow2(3) == 2 * Pow2(2) && Pow2(5) == 2 * Pow2(4) && Pow2(7) == 2 * Pow2(6);
    assert Pow2(9) == 2 * Pow2(8) && Pow2(11) == 2 * Pow2(10);
  }

  /** The buffer is the number read so far, up to multiples of 2^32. */
  predicate Wraps(buffer: int, number: nat) {
    (buffer - number) % 0x1_0000_0000 == 0
  }

  lemma PushingWraps(buffer: int, number: nat, byte: Byte)
    requires Wraps(buffer, number)
    ensures Wraps(PushByte(buffer, byte), number * 256 + byte)
  {
    var k := (buffer - number) / 0x1_0000_0000;
    assert buffer == number + 0x1_0000_0000 * k;
    var n := buffer * 256 + byte;
    var m := (n + 0x8000_0000) / 0x1_0000_0000;
    assert ToInt32(n) == n - 0x1_0000_0000 * m;
    assert ToInt32(n) - (number * 256 + byte) == 0x1_0000_0000 * (256 * k - m);
  }

  // Nothing the mask lets through is lost to the wrap-around.
  lemma WrappingKeepsDigits(buffer: int, number: nat, bits: nat)
    requires Wraps(buffer, number) && bits <= 7
    ensures DigitAt(buffer, bits) == DigitAt(number, bits)
  {
    Powers();
    var k := (buffer - number) / 0x1_0000_0000;
    assert buffer == number + 0x1_0000_0000 * k;
    match bits
    case 0 => Shifted(number, k, 1, 0x1_0000_0000);
    case 1 => Shifted(number, k, 2, 0x8000_0000);
    case 2 => Shifted(number, k, 4, 0x4000_0000);
    case 3 => Shifted(number, k, 8, 0x2000_0000);
    case 4 => Shifted(number, k, 16, 0x1000_0000);
    case 5 => Shifted(number, k, 32, 0x800_0000);
    case 6 => Shifted(number, k, 64, 0x400_0000);
    case 7 => Shifted(number, k, 128, 0x200_0000);
  }

  lemma Shifted(number: nat, k: int, p: nat, rest: nat)
    requires p > 0 && rest % 32 == 0
    ensures (number + p * rest * k) / p == number / p + rest * k
    ensures ((number + p * rest * k) / p) % 32 == (number / p) % 32
  {
    DivideMultiple(number, rest * k, p);
    assert p * rest * k == p * (rest * k);
    var m := rest / 32;
    assert rest * k == 32 * (m * k);
    AddMultiple(number / p, m * k, 32);
  }

  lemma DivideMultiple(a: int, b: int, p: int)
    requires p > 0
    ensures (a + p * b) / p == a / p + b
  {
    var q := (a + p * b) / p;
    var d := q - a / p - b;
    assert p * d == a % p - (a + p * b) % p;
    Between(p, d);
  }

  lemma AddMultiple(a: int, b: int, p: int)
    requires p > 0
    ensures (a + p * b) % p == a % p
  {
    DivideMultiple(a, b, p);
    assert p * (a / p + b) == p * (a / p) + p * b;
  }

  lemma Between(p: int, d: int)
    requires p > 0 && -p < p * d < p
    ensures d == 0
  {
  }

  /** The digits are the number read so far, without its last `bits` bits. */
  predicate Holds(digits: seq<Digit>, number: nat, bits: nat) {
    Value32(digits) == number / Pow2(bits)
  }

  lemma EmittingHolds(digits: seq<Digit>, number: nat, bits: nat)
    requires Holds(digits, number, bits + 5) && bits <= 7
    ensures Holds(digits + [DigitAt(number, bits)], number, bits)
  {
    Powers();
    var more := digits + [DigitAt(number, bits)];
    assert more[..|more| - 1] == digits;
    assert number / Pow2(bits + 5) == (number / Pow2(bits)) / 32;
  }

  lemma ReadingHolds(digits: seq<Digit>, number: nat, bits: nat, byte: Byte)
    requires Holds(digits, number, bits) && bits <= 4
    ensures Holds(digits, number * 256 + byte, bits + 8)
  {
    Powers();
  }

  lemma ValueOneMore(bytes: seq<Byte>, i: nat)
    requires i < |bytes|
    ensures Value256(bytes[..i + 1]) == Value256(bytes[..i]) * 256 + bytes[i]
  {
    assert bytes[..i + 1][..i] == bytes[..i];
  }

  lemma NothingRead()
    ensures Holds([], 0, 0) && Wraps(0, 0) && Value256([]) == 0 && Encode([]) == ""
  {
  }

  lemma {:induction false} AllBitsUsed(digits: seq<Digit>, number: nat)
    requires Holds(digits, number, 0)
    ensures Value32(digits) == number
  {
  }

  // ---------------------------------------------------------------- the function

  /** The padding loop; it runs only for a text that is short of 26 characters. */
  method PadEnd(text: string) returns (padded: string)
    requires |text| <= 26
    ensures |padded| == 26 && text <= padded
  {
    padded := text;
    while |padded| < 26
      invariant |padded| <= 26 && text <= padded
    {
      padded := padded + [CROCKFORD[0]];
    }
  }

  method NewUlid(time: nat, random: seq<Byte>) returns (output: string)
    requires |random| == 16
    ensures output == UlidOf(time, random)
    ensures |output| == 26 && forall c :: c in output ==> c in CROCKFORD
  {
    output := TimePart(time);
    output := AppendRandomPart(output, random);
    var digits := Digits32(time, 10) + Digits32(Value256(random[..10]), 16);
    assert output == Encode(digits);
    output := PadEnd(output);
  }

  /** The loop over the time, least significant digit first. */
  method TimePart(time: nat) returns (output: string)
    ensures output == Encode(Digits32(time, 10))
  {
    output := "";
    var rest := time;
    ghost var digits: seq<Digit> := [];
    for index := 0 to 10
      invariant |digits| == index && output == Encode(digits)
      invariant Digits32(time, 10) == Digits32(rest, 10 - index) + digits
    {
      output := [CROCKFORD[rest % 32]] + output;
      digits := [rest % 32] + digits;
      assert Digits32(rest, 10 - index) == Digits32(rest / 32, 9 - index) + [rest % 32];
      rest := rest / 32;
    }
    assert Digits32(rest, 0) + digits == digits;
  }

  /** The loop over the random bytes and its inner loop over the bits in the buffer. */
  method AppendRandomPart(start: string, random: seq<Byte>) returns (output: string)
    requires |random| == 16 && |start| == 10
    ensures output == start + Encode(Digits32(Value256(random[..10]), 16))
  {
    hide DigitAt, PushByte, Holds, Wraps, Digits32, Encode, Value256, Value32;
    output := start;
    NothingRead();
    var buffer, bits := 0, 0;
    ghost var digits: seq<Digit> := [];
    ghost var number: nat := 0;
    for i := 0 to |random|
      invariant output == start + Encode(digits) && |digits| <= 16
      invariant 5 * |digits| + bits == 8 * i
      invariant |digits| < 16 ==> bits <= 4
      invariant number == Value256(random[..i]) && Wraps(buffer, number)
      invariant i <= 10 ==> bits <= 4 && Holds(digits, number, bits)
      invariant i >= 10 ==> |digits| == 16 && Value32(digits) == Value256(random[..10])
    {
      PushingWraps(buffer, number, random[i]);
      if i < 10 {
        ReadingHolds(digits, number, bits, random[i]);
      }
      ValueOneMore(random, i);
      number := number * 256 + random[i];
      buffer := PushByte(buffer, random[i]);
      bits := bits + 8;
      while bits >= 5 && |output| < 26
        invariant output == start + Encode(digits) && |digits| <= 16
        invariant 5 * |digits| + bits == 8 * (i + 1)
        invariant bits <= 12 || |digits| == 16
        invariant i < 10 ==> bits <= 12 && Holds(digits, number, bits)
        invariant i >= 10 ==> |digits| == 16 && Value32(digits) == Value256(random[..10])
      {
        bits := bits - 5;
        WrappingKeepsDigits(buffer, number, bits);
        EmittingHolds(digits, number, bits);
        EncodeOneMore(digits, DigitAt(buffer, bits));
        output := output + [CROCKFORD[DigitAt(buffer, bits)]];
        digits := digits + [DigitAt(buffer, bits)];
      }
      if i == 9 {
        AllBitsUsed(digits, number);
      }
    }
    DigitsOfTheirValue(digits);
  }

  lemma EncodeOneMore(digits: seq<Digit>, digit: Digit)
    ensures Encode(digits + [digit]) == Encode(digits) + [CROCKFORD[digit]]
  {
  }

  // ---------------------------------------------------------------- order and identity

  /** The alphabet leaves out I, L, O and U. */
  function CodeOf(d: Digit): int {
    if d < 10 then '0' as int + d
    else if d < 18 then 'A' as int + (d - 10)
    else if d < 20 then 'J' as int + (d - 18)
    else if d < 22 then 'M' as int + (d - 20)
    else if d < 27 then 'P' as int + (d - 22)
    else 'V' as int + (d - 27)
  }

  lemma AlphabetCodes(d: Digit)
    ensures CROCKFORD[d] as int == CodeOf(d)
  {
    match d
    case 0 =>
    case 1 =>
    case 2 =>
    case 3 =>
    case 4 =>
    case 5 =>
    case 6 =>
    case 7 =>
    case 8 =>
    case 9 =>
    case 10 =>
    case 11 =>
    case 12 =>
    case 13 =>
    case 14 =>
    case 15 =>
    case 16 =>
    case 17 =>
    case 18 =>
    case 19 =>
    case 20 =>
    case 21 =>
    case 22 =>
    case 23 =>
    case 24 =>
    case 25 =>
    case 26 =>
    case 27 =>
    case 28 =>
    case 29 =>
    case 30 =>
    case _ =>
  }

  lemma AlphabetAscends(a: Digit, b: Digit)
    ensures a < b <==> CROCKFORD[a] < CROCKFORD[b]
  {
    AlphabetCodes(a);
    AlphabetCodes(b);
  }

  lemma {:induction false} LessAtFirstDifference(a: string, b: string, k: nat)
    requires k < |a| && k < |b| && a[..k] == b[..k] && a[k] < b[k]
    ensures Less(a, b)
  {
    if k > 0 {
      assert a[0] == a[..k][0] && b[0] == b[..k][0];
      assert a[1..][..k - 1] == a[..k][1..] && b[1..][..k - 1] == b[..k][1..];
      LessAtFirstDifference(a[1..], b[1..], k - 1);
    }
  }

  function Pow32(n: nat): nat {
    if n == 0 then 1 else 32 * Pow32(n - 1)
  }

  /** Numbers with n digits: the first place where their digits differ orders them. */
  lemma {:induction false} FirstDifference(x: nat, y: nat, n: nat) returns (k: nat)
    requires x < y < Pow32(n)
    ensures k < n && Digits32(x, n)[..k] == Digits32(y, n)[..k] && Digits32(x, n)[k] < Digits32(y, n)[k]
  {
    var dx, dy := Digits32(x, n), Digits32(y, n);
    assert dx[..n - 1] == Digits32(x / 32, n - 1) && dy[..n - 1] == Digits32(y / 32, n - 1);
    if x / 32 == y / 32 {
      k := n - 1;
    } else {
      k := FirstDifference(x / 32, y / 32, n - 1);
      assert dx[..k] == dx[..n - 1][..k] && dy[..k] == dy[..n - 1][..k];
    }
  }

  // Below 32^10 milliseconds identifiers order lexicographically by their time, whatever the
  // random bits.
  lemma LaterIsGreater(earlier: nat, later: nat, a: seq<Byte>, b: seq<Byte>)
    requires |a| == 16 && |b| == 16 && earlier < later < Pow32(10)
    ensures Less(UlidOf(earlier, a), UlidOf(later, b))
  {
    var k := FirstDifference(earlier, later, 10);
    var x, y := UlidOf(earlier, a), UlidOf(later, b);
    var dx, dy := Digits32(earlier, 10), Digits32(later, 10);
    assert forall i :: 0 <= i < k ==> dx[i] == dx[..k][i] && dy[i] == dy[..k][i];
    assert x[..k] == y[..k];
    AlphabetAscends(dx[k], dy[k]);
    LessAtFirstDifference(x, y, k);
  }
}
