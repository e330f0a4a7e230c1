/**
  The numerals of the C standard (section 7.22.1.4 of ISO C11), and where `bmk_strtoul` stops
  reading at one.
 */
module Numeral {
  import opened Queues
  import opened Numerals
  import opened Strtoul

  /** The base a numeral without hexadecimal prefix is in. */
  function PlainBase(t: string, base: nat): nat {
    if base != 0 then base else if t != [] && t[0] == '0' then 8 else 10
  }

  /** Digits of the base, or of base 16 behind `0x`. */
  predicate Prefixed(t: string, base: nat) {
    && (base == 0 || base == 16) && |t| > 2 && t[0] == '0' && t[1] in "xX" && AllDigits(t[2..], 16)
  }

  predicate Unsigned(t: string, base: nat) {
    (t != [] && AllDigits(t, PlainBase(t, base))) || Prefixed(t, base)
  }

  /** A numeral: an optional sign, then digits. */
  predicate IsNumeral(t: string, base: nat) {
    Unsigned(t, base) || (t != [] && t[0] in "+-" && Unsigned(t[1..], base))
  }

  /** `0x` in front of something that is no hexadecimal digit. */
  predicate BarePrefix(s: string, i: nat, base: nat) {
    (base == 0 || base == 16) && Fetch(s, i) == '0' && Fetch(s, i + 1) in "xX" && !IsDigit(Fetch(s, i + 2), 16)
  }

  /** Base and start of the digits of the numeral whose prefix may start at `i`. */
  function DigitsAt(s: string, i: nat, base: nat): (nat, nat) {
    if BarePrefix(s, i, base) then (PlainBase("0", base), i) else Prefix(s, i, base)
  }

  lemma DigitsAtBound(s: string, i: nat, base: nat)
    requires i <= |s|
    ensures DigitsAt(s, i, base).1 <= |s|
  {
    PrefixBound(s, i, base);
  }

  /** The end of the numeral at the start of `s`, behind white space; 0 when there is none. */
  function NumeralEnd(s: string, base: nat): (e: nat)
    ensures e <= |s|
  {
    var (b, k) := DigitsAt(s, PrefixStart(s), base);
    DigitsAtBound(s, PrefixStart(s), base);
    var e := RunEnd(s, k, b);
    if e == k then 0 else e
  }

  /** The number it stands for, without its sign. */
  function NumeralValue(s: string, base: nat): nat {
    var (b, k) := DigitsAt(s, PrefixStart(s), base);
    DigitsAtBound(s, PrefixStart(s), base);
    Value(s[k..RunEnd(s, k, b)], b)
  }

  /**
    For every string and base: the end pointer of `bmk_strtoul` is the end of the numeral if
    and only if the string does not start with a bare hexadecimal prefix and the number fits 64
    bits. Otherwise it is the start of the string. The value is always that of the numeral, or
    the largest number.
   */
  lemma EndPointer(s: string, base: nat)
    requires base == 0 || 2 <= base <= 36
    ensures Read(s, base).1 == NumeralEnd(s, base)
       <==> !BarePrefix(s, PrefixStart(s), base) && NumeralValue(s, base) < 0x1_0000_0000_0000_0000
    ensures Read(s, base).1 != NumeralEnd(s, base) ==> Read(s, base).1 == 0
    ensures
      var v := NumeralValue(s, base);
      Read(s, base).0
      == if v >= 0x1_0000_0000_0000_0000 then 0xFFFF_FFFF_FFFF_FFFF
         else if Negative(s) && v != 0 then 0x1_0000_0000_0000_0000 - v else v
  {
    var i := PrefixStart(s);
    PrefixBound(s, i, base);
    if BarePrefix(s, i, base) {
      BareZero(s, i, base);
    } else {
      var (b, k) := Prefix(s, i, base);
      if RunEnd(s, k, b) == k {
        assert s[k..k] == [];
      }
    }
  }

  lemma BareZero(s: string, i: nat, base: nat)
    requires (base == 0 || base == 16) && i <= |s| && BarePrefix(s, i, base)
    ensures i + 2 <= |s| && RunEnd(s, i + 2, 16) == i + 2
    ensures RunEnd(s, i, PlainBase("0", base)) == i + 1 && Value(s[i..i + 1], PlainBase("0", base)) == 0
  {
    var b := PlainBase("0", base);
    assert !IsDigit(s[i + 1], b);
    assert RunEnd(s, i + 1, b) == i + 1;
    assert s[i..i + 1] == [] + ['0'];
    ValueAppend([], '0', b);
  }

  // ----- It is the longest numeral

  lemma {:induction false} RunIsMaximal(s: string, k: nat, e: nat, b: nat)
    requires k <= e <= |s| && AllDigits(s[k..e], b)
    ensures e <= RunEnd(s, k, b)
    decreases e - k
  {
    if k < e {
      assert s[k..e][0] == s[k] && s[k..e][1..] == s[k + 1..e];
      RunIsMaximal(s, k + 1, e, b);
    }
  }

  /** The part of the numeral behind its sign. */
  lemma UnsignedFits(s: string, i: nat, e: nat, base: nat)
    requires i <= e <= |s| && Unsigned(s[i..e], base)
    ensures
      var (b, k) := DigitsAt(s, i, base);
      i < e && k <= |s| && e <= RunEnd(s, k, b) && k < RunEnd(s, k, b)
  {
    var t := s[i..e];
    DigitsAtBound(s, i, base);
    assert t != [] ==> t[0] == s[i];
    assert |t| > 1 ==> t[1] == s[i + 1];
    if Prefixed(t, base) {
      assert t[2..] == s[i + 2..e] && t[2..][0] == s[i + 2];
      RunIsMaximal(s, i + 2, e, 16);
    } else {
      PlainFits(s, i, e, base);
    }
  }

  lemma PlainFits(s: string, i: nat, e: nat, base: nat)
    requires i < e <= |s| && AllDigits(s[i..e], PlainBase(s[i..e], base))
    ensures
      var (b, k) := DigitsAt(s, i, base);
      k <= |s| && e <= RunEnd(s, k, b) && k < RunEnd(s, k, b)
  {
    var t, b0 := s[i..e], PlainBase(s[i..e], base);
    assert t[0] == s[i] && IsDigit(t[0], b0);
    RunIsMaximal(s, i, e, b0);
    var (b, k) := DigitsAt(s, i, base);
    if k != i {
      DigitsAtBound(s, i, base);
      PastPrefix(s, i, e, base, b0);
    }
  }

  /** Plain digits in front of `x` are at most the zero of a prefix. */
  lemma PastPrefix(s: string, i: nat, e: nat, base: nat, b0: nat)
    requires i < e <= |s| && AllDigits(s[i..e], b0) && DigitsAt(s, i, base).1 != i
    requires b0 <= 16
    ensures
      var (b, k) := DigitsAt(s, i, base);
      k == i + 2 && k <= |s| && e <= k && k < RunEnd(s, k, b)
  {
    assert i + 1 < e ==> s[i..e][1] == s[i + 1] && IsDigit(s[i + 1], b0);
  }

  lemma SliceHead(s: string, i: nat, e: nat)
    requires i < e <= |s|
    ensures s[i..e][0] == s[i] && s[i..e][1..] == s[i + 1..e]
  {}

  lemma FirstIsDigit(t: string, base: nat)
    requires Unsigned(t, base)
    ensures t != [] && t[0] !in "+-"
  {
    assert AllDigits(t, PlainBase(t, base)) ==> IsDigit(t[0], PlainBase(t, base));
  }

  /** No initial part of the string, behind white space, is a longer numeral. */
  lemma LongestNumeral(s: string, base: nat, e: nat)
    requires SkipSpace(s, 0) <= e <= |s| && IsNumeral(s[SkipSpace(s, 0)..e], base)
    ensures e <= NumeralEnd(s, base)
  {
    var p := SkipSpace(s, 0);
    if Unsigned(s[p..e], base) {
      FirstIsDigit(s[p..e], base);
      SliceHead(s, p, e);
      UnsignedFits(s, p, e, base);
    } else {
      SliceHead(s, p, e);
      UnsignedFits(s, p + 1, e, base);
    }
  }

  lemma DigitsAreUnsigned(s: string, i: nat, base: nat)
    requires i <= |s|
    ensures
      var (b, k) := DigitsAt(s, i, base);
      k <= |s| && (RunEnd(s, k, b) > k ==> Unsigned(s[i..RunEnd(s, k, b)], base))
  {
    DigitsAtBound(s, i, base);
    var (b, k) := DigitsAt(s, i, base);
    var e := RunEnd(s, k, b);
    if e > k {
      var t := s[i..e];
      assert t[0] == s[i];
      if k == i {
        assert b == PlainBase(t, base);
      } else {
        assert t[1] == s[i + 1] && t[2..] == s[i + 2..e];
      }
    }
  }

  /** When it is not the start of the string, the end found is that of a numeral. */
  lemma EndsANumeral(s: string, base: nat)
    requires NumeralEnd(s, base) != 0
    ensures
      var p, e := SkipSpace(s, 0), NumeralEnd(s, base);
      p <= e && IsNumeral(s[p..e], base)
  {
    var p, i, e := SkipSpace(s, 0), PrefixStart(s), NumeralEnd(s, base);
    DigitsAreUnsigned(s, i, base);
    if i != p {
      SliceHead(s, p, e);
    }
  }

  // ----- Strings that are read differently

  /** A number just too large, and a bare prefix: in both the end pointer is the start. */
  lemma DifferentEnds()
    ensures Read("0xg", 16) == (0, 0) && NumeralEnd("0xg", 16) == 1
    ensures
      var s := Digits(TWO64, Dec, false);
      Read(s, 10) == (MAX, 0) && NumeralEnd(s, 10) == |s|
  {
    var bare := "0xg";
    assert BarePrefix(bare, 0, 16) && PrefixStart(bare) == 0;
    BareZero(bare, 0, 16);
    var s := Digits(TWO64, Dec, false);
    DigitsValue(TWO64, Dec, false);
    assert IsDigit(s[0], 10);
    assert s[0..] == s;
    RunsToEnd(s, 0, 10);
    assert s[0..|s|] == s;
  }
}
