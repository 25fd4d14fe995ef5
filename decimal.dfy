/** Decimal digit strings: the conversions PHP performs implicitly when an
    integer is concatenated to a string or a numeric string is used in
    arithmetic. */
module Decimal {

  predicate IsDigit(c: char) {
    '0' <= c <= '9'
  }

  predicate IsDigits(s: string) {
    forall i :: 0 <= i < |s| ==> IsDigit(s[i])
  }

  function DigitValue(c: char): (d: nat)
    requires IsDigit(c)
    ensures d < 10
  {
    (c as int - '0' as int) as nat
  }

  function DigitChar(d: nat): (c: char)
    requires d < 10
    ensures IsDigit(c) && DigitValue(c) == d
  {
    ('0' as int + d) as char
  }

  function Pow10(k: nat): (p: nat)
    ensures p >= 1
  {
    if k == 0 then 1 else 10 * Pow10(k - 1)
  }

  /** The value of a digit string read in base 10 (the empty string reads as 0). */
  function Value(s: string): nat
    requires IsDigits(s)
  {
    if s == [] then 0 else Value(s[..|s| - 1]) * 10 + DigitValue(s[|s| - 1])
  }

  /** The decimal rendering of a natural number, as PHP prints an integer:
      at least one digit and no leading zero. */
  function NatToDecimal(n: nat): (s: string)
    ensures |s| >= 1 && IsDigits(s)
    ensures |s| > 1 ==> s[0] != '0'
    ensures n < 10 <==> |s| == 1
  {
    if n < 10 then [DigitChar(n)] else NatToDecimal(n / 10) + [DigitChar(n % 10)]
  }

  /** Reading back what NatToDecimal printed gives the number. */
  lemma {:induction false} ValueOfNatToDecimal(n: nat)
    ensures Value(NatToDecimal(n)) == n
  {
    if n >= 10 {
      var s := NatToDecimal(n);
      assert s[..|s| - 1] == NatToDecimal(n / 10);
      ValueOfNatToDecimal(n / 10);
    }
  }

  lemma DigitsConcat(a: string, b: string)
    requires IsDigits(a) && IsDigits(b)
    ensures IsDigits(a + b)
  {
    var ab := a + b;
    forall i | 0 <= i < |ab| ensures IsDigit(ab[i]) {
      if i < |a| { assert ab[i] == a[i]; } else { assert ab[i] == b[i - |a|]; }
    }
  }

  /** Values of a concatenation: the left part is shifted by the right part's length. */
  lemma {:induction false} ValueConcat(a: string, b: string)
    requires IsDigits(a) && IsDigits(b)
    ensures IsDigits(a + b)
    ensures Value(a + b) == Value(a) * Pow10(|b|) + Value(b)
  {
    DigitsConcat(a, b);
    var ab := a + b;
    if b == [] {
      assert ab == a;
    } else {
      var b' := b[..|b| - 1];
      var d := DigitValue(b[|b| - 1]);
      assert ab[..|ab| - 1] == a + b';
      assert ab[|ab| - 1] == b[|b| - 1];
      ValueConcat(a, b');
      var x, p, y := Value(a), Pow10(|b'|), Value(b');
      assert Value(ab) == Value(a + b') * 10 + d;
      assert Value(b) == y * 10 + d;
      assert Pow10(|b|) == p * 10;
      ShiftByTen(x, p);
    }
  }

  lemma ShiftByTen(x: nat, p: nat)
    ensures x * (p * 10) == (x * p) * 10
  {
  }

  /** A string of zeros reads as 0. */
  lemma {:induction false} ValueOfZeros(z: string)
    requires forall i :: 0 <= i < |z| ==> z[i] == '0'
    ensures IsDigits(z) && Value(z) == 0
  {
    if z != [] {
      ValueOfZeros(z[..|z| - 1]);
    }
  }

  /** Leading zeros do not change the value. */
  lemma LeadingZeros(z: string, s: string)
    requires forall i :: 0 <= i < |z| ==> z[i] == '0'
    requires IsDigits(s)
    ensures IsDigits(z + s) && Value(z + s) == Value(s)
  {
    ValueOfZeros(z);
    ValueConcat(z, s);
  }

  /** Two decimal digits for a number below 100, zero first when needed. */
  function TwoDigits(k: nat): (r: string)
    requires k < 100
    ensures |r| == 2 && IsDigits(r) && Value(r) == k
  {
    var r := [DigitChar(k / 10), DigitChar(k % 10)];
    assert r[..1] == [DigitChar(k / 10)];
    assert Value(r[..1]) == k / 10 by { assert r[..1][..0] == []; }
    r
  }

  /** From 10 to 99, the printed number is its two-digit form. */
  lemma NatToDecimalTwoDigits(n: nat)
    requires 10 <= n < 100
    ensures NatToDecimal(n) == TwoDigits(n)
  {
  }

  /** A run of n zeros. */
  function Zeros(n: nat): (z: string)
    ensures |z| == n
    ensures forall i :: 0 <= i < n ==> z[i] == '0'
  {
    if n == 0 then [] else Zeros(n - 1) + "0"
  }

  /** Left-pads a string with '0' up to width characters. */
  function PadZero(s: string, width: nat): (r: string)
    ensures |r| == if |s| < width then width else |s|
    ensures r[|r| - |s|..] == s
    ensures forall i :: 0 <= i < |r| - |s| ==> r[i] == '0'
  {
    if |s| < width then Zeros(width - |s|) + s else s
  }

  /** A number printed with leading zeros still reads as that number. */
  lemma PaddedValue(n: nat, width: nat)
    ensures PadZero(NatToDecimal(n), width) != []
    ensures IsDigits(PadZero(NatToDecimal(n), width))
    ensures Value(PadZero(NatToDecimal(n), width)) == n
  {
    var s := NatToDecimal(n);
    var r := PadZero(s, width);
    var z := r[..|r| - |s|];
    assert r == z + s;
    LeadingZeros(z, s);
    ValueOfNatToDecimal(n);
  }
}
