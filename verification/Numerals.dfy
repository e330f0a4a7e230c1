/** Digits, and the numbers that strings of digits stand for. */
module Numerals {

  /** `__UINT_MAX` of the 64-bit `unsigned long`. */
  const MAX: nat := 0xFFFF_FFFF_FFFF_FFFF
  const TWO64: nat := MAX + 1

  /** The value of a digit or letter, or -1. */
  function DigitVal(c: char): (d: int)
    ensures -1 <= d < 36
  {
    if '0' <= c <= '9' then c as int - '0' as int
    else if 'a' <= c <= 'z' then c as int - 'a' as int + 10
    else if 'A' <= c <= 'Z' then c as int - 'A' as int + 10
    else -1
  }

  predicate IsDigit(c: char, b: nat) {
    0 <= DigitVal(c) < b
  }

  predicate AllDigits(s: string, b: nat) {
    forall i :: 0 <= i < |s| ==> IsDigit(s[i], b)
  }

  /** The number written by `s` in base `b`. */
  function Value(s: string, b: nat): (v: nat)
    requires AllDigits(s, b)
  {
    if s == [] then 0
    else Value(s[..|s| - 1], b) * b + DigitVal(s[|s| - 1])
  }

  function DigitChar(d: nat, upper: bool): (c: char)
    requires d < 16
    ensures DigitVal(c) == d
  {
    if d < 10 then '0' + d as char
    else if upper then 'A' + (d - 10) as char
    else 'a' + (d - 10) as char
  }

  /** The bases of the number conversions. */
  datatype Base = Oct | Dec | Hex

  function Radix(b: Base): (r: nat)
    ensures 8 <= r <= 16
  {
    match b case Oct => 8 case Dec => 10 case Hex => 16
  }

  function Quotient(n: nat, b: Base): (q: nat)
    ensures n >= Radix(b) ==> 0 < q < n
  {
    match b case Oct => n / 8 case Dec => n / 10 case Hex => n / 16
  }

  function Remainder(n: nat, b: Base): (r: nat)
    ensures r < Radix(b) && n == Quotient(n, b) * Radix(b) + r
    ensures n < Radix(b) ==> r == n
  {
    match b case Oct => n % 8 case Dec => n % 10 case Hex => n % 16
  }

  /** `n` in base `b`, without leading zeros. */
  function Digits(n: nat, b: Base, upper: bool): (s: string)
    ensures s != []
  {
    (if n < Radix(b) then [] else Digits(Quotient(n, b), b, upper)) + [DigitChar(Remainder(n, b), upper)]
  }

  lemma ValueAppend(s: string, c: char, b: nat)
    requires AllDigits(s, b) && IsDigit(c, b)
    ensures AllDigits(s + [c], b) && Value(s + [c], b) == Value(s, b) * b + DigitVal(c)
  {
    var t := s + [c];
    assert t[..|t| - 1] == s;
    assert AllDigits(t, b);
  }

  lemma {:induction false} DigitsValue(n: nat, b: Base, upper: bool)
    ensures AllDigits(Digits(n, b, upper), Radix(b)) && Value(Digits(n, b, upper), Radix(b)) == n
  {
    var c := DigitChar(Remainder(n, b), upper);
    if n >= Radix(b) {
      DigitsValue(Quotient(n, b), b, upper);
      ValueAppend(Digits(Quotient(n, b), b, upper), c, Radix(b));
    } else {
      ValueAppend([], c, Radix(b));
    }
  }

  lemma DigitZero(d: nat, upper: bool)
    requires d < 16
    ensures DigitChar(d, upper) == '0' <==> d == 0
  {}

  /** No leading zero but in zero itself. */
  lemma {:induction false} NoLeadingZero(n: nat, b: Base, upper: bool)
    ensures Digits(n, b, upper)[0] == '0' <==> n == 0
  {
    if n >= Radix(b) {
      NoLeadingZero(Quotient(n, b), b, upper);
    } else {
      DigitZero(n, upper);
    }
  }

  function Power(b: nat, k: nat): nat {
    if k == 0 then 1 else b * Power(b, k - 1)
  }

  lemma {:induction false} DigitsLength(n: nat, b: Base, k: nat, upper: bool)
    requires 1 <= k && n < Power(Radix(b), k)
    ensures |Digits(n, b, upper)| <= k
    decreases k
  {
    if n >= Radix(b) {
      assert Power(Radix(b), 1) == Radix(b) * Power(Radix(b), 0);
      DigitsLength(Quotient(n, b), b, k - 1, upper);
    }
  }

  lemma {:induction false} PowerAdd(b: nat, j: nat, k: nat)
    ensures Power(b, j + k) == Power(b, j) * Power(b, k)
  {
    if j > 0 {
      PowerAdd(b, j - 1, k);
      assert j + k - 1 == j - 1 + k;
      MulAssociates(b, Power(b, j - 1), Power(b, k));
    }
  }

  lemma MulAssociates(a: nat, b: nat, c: nat)
    ensures a * (b * c) == (a * b) * c
  {}

  /** 64-bit numbers have at most 22 octal, 20 decimal and 16 hexadecimal digits. */
  lemma DigitsFit(n: nat, upper: bool)
    requires n <= MAX
    ensures |Digits(n, Oct, upper)| <= 22 && |Digits(n, Dec, upper)| <= 20 && |Digits(n, Hex, upper)| <= 16
  {
    Powers();
    DigitsLength(n, Oct, 22, upper);
    DigitsLength(n, Dec, 20, upper);
    DigitsLength(n, Hex, 16, upper);
  }

  lemma Powers()
    ensures Power(8, 22) > MAX && Power(10, 20) > MAX && Power(16, 16) > MAX
  {
    assert Power(8, 2) == 64 && Power(10, 2) == 100 && Power(16, 2) == 256;
    PowerAdd(8, 2, 2);
    PowerAdd(8, 4, 4);
    PowerAdd(8, 8, 8);
    PowerAdd(8, 16, 4);
    PowerAdd(8, 20, 2);
    PowerAdd(10, 2, 2);
    PowerAdd(10, 4, 4);
    PowerAdd(10, 8, 8);
    PowerAdd(10, 16, 4);
    PowerAdd(16, 2, 2);
    PowerAdd(16, 4, 4);
    PowerAdd(16, 8, 8);
  }

  /** More digits never make a number smaller. */
  lemma {:induction false} ValueMonotone(s: string, b: nat, i: nat, j: nat)
    requires i <= j <= |s| && AllDigits(s, b) && 1 <= b
    ensures AllDigits(s[..i], b) && AllDigits(s[..j], b) && Value(s[..i], b) <= Value(s[..j], b)
    decreases j - i
  {
    if i < j {
      ValueMonotone(s, b, i, j - 1);
      assert s[..j] == s[..j - 1] + [s[j - 1]];
      ValueAppend(s[..j - 1], s[j - 1], b);
      TimesGrows(Value(s[..j - 1], b), b);
    }
  }

  lemma TimesGrows(v: nat, b: nat)
    requires 1 <= b
    ensures v * b >= v
  {}
}
