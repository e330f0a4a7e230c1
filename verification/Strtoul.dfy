/** The number reader of libbmk_core. Strings end at the first NUL, or at their last character. */
module Strtoul {
  import opened Queues
  import opened Numerals

  /** The character at `i`; the terminator behind the last one. */
  function Fetch(s: string, i: nat): char {
    if i < |s| then s[i] else '\0'
  }

  predicate IsSpace(c: char) {
    c == ' ' || '\t' <= c <= '\r'
  }

  function SkipSpace(s: string, i: nat): (r: nat)
    ensures i <= r && (i <= |s| ==> r <= |s|)
    decreases |s| - i
  {
    if i < |s| && IsSpace(s[i]) then SkipSpace(s, i + 1) else i
  }

  /** The end of the digits of base `b` that start at `i`. */
  function RunEnd(s: string, i: nat, b: nat): (r: nat)
    ensures i <= r && (i <= |s| ==> r <= |s|)
    ensures i <= |s| ==> AllDigits(s[i..r], b)
    decreases |s| - i
  {
    if i < |s| && IsDigit(s[i], b) then RunEnd(s, i + 1, b) else i
  }

  /** Base and start of the digits, when the prefix starts at `i`. */
  function Prefix(s: string, i: nat, base: nat): (nat, nat) {
    if (base == 0 || base == 16) && Fetch(s, i) == '0' && Fetch(s, i + 1) in "xX" then (16, i + 2)
    else (if base != 0 then base else if Fetch(s, i) == '0' then 8 else 10, i)
  }

  /** The start of the prefix: behind white space and a sign. */
  function PrefixStart(s: string): (i: nat)
    ensures i <= |s|
  {
    var i := SkipSpace(s, 0);
    if Fetch(s, i) in "-+" then i + 1 else i
  }

  lemma PrefixBound(s: string, i: nat, base: nat)
    requires i <= |s|
    ensures Prefix(s, i, base).1 <= |s|
  {}

  predicate Negative(s: string) {
    Fetch(s, SkipSpace(s, 0)) == '-'
  }

  /**
    The number read and the place where reading stopped. A number too large is the largest
    one, and then, as without any digits, the place is the start of the string.
   */
  function Read(s: string, base: nat): (nat, nat) {
    var (b, k) := Prefix(s, PrefixStart(s), base);
    PrefixBound(s, PrefixStart(s), base);
    var e := RunEnd(s, k, b);
    var v := Value(s[k..e], b);
    if e == k then (0, 0)
    else if v > MAX then (MAX, 0)
    else (if Negative(s) && v != 0 then TWO64 - v else v, e)
  }

  lemma Distribute(x: nat, y: nat, b: nat)
    ensures (x + y) * b == x * b + y * b
  {}

  lemma Above(acc: nat, b: nat, cutoff: nat)
    ensures acc > cutoff ==> acc * b >= cutoff * b + b
  {
    if acc > cutoff {
      Distribute(cutoff + 1, acc - cutoff - 1, b);
      Distribute(cutoff, 1, b);
    }
  }

  /** The comparison with `cutoff` and `cutlim` is the test for overflow. */
  method Overflows(acc: nat, d: nat, b: nat, cutoff: nat, cutlim: nat) returns (r: bool)
    requires MAX == cutoff * b + cutlim && cutlim < b && d < b
    ensures r <==> acc * b + d > MAX
  {
    Above(acc, b, cutoff);
    Above(cutoff, b, acc);
    r := acc > cutoff || (acc == cutoff && d > cutlim);
  }

  method Cut(b: nat) returns (cutoff: nat, cutlim: nat)
    requires 2 <= b
    ensures MAX == cutoff * b + cutlim && cutlim < b
  {
    cutoff, cutlim := MAX / b, MAX % b;
  }

  lemma RunStep(s: string, k: nat, p: nat, b: nat)
    requires k <= p <= |s| && AllDigits(s[k..p], b) && RunEnd(s, k, b) == RunEnd(s, p, b)
    ensures
      if IsDigit(Fetch(s, p), b) then
        && p < |s| && s[k..p + 1] == s[k..p] + [s[p]] && AllDigits(s[k..p + 1], b)
        && Value(s[k..p + 1], b) == Value(s[k..p], b) * b + DigitVal(s[p])
        && RunEnd(s, k, b) == RunEnd(s, p + 1, b)
      else RunEnd(s, k, b) == p
  {
    if IsDigit(Fetch(s, p), b) {
      assert s[k..p + 1] == s[k..p] + [s[p]];
      ValueAppend(s[k..p], s[p], b);
    }
  }

  lemma RunPrefix(s: string, k: nat, p: nat, b: nat)
    requires k <= p <= RunEnd(s, k, b) && k <= |s| && 1 <= b
    ensures AllDigits(s[k..p], b) && Value(s[k..p], b) <= Value(s[k..RunEnd(s, k, b)], b)
  {
    var e := RunEnd(s, k, b);
    var t := s[k..e];
    assert t[..p - k] == s[k..p] && t[..e - k] == t;
    ValueMonotone(t, b, p - k, e - k);
  }

  /** The digit loop: the number, or overflow, and where it stopped. */
  method ReadDigits(s: string, k: nat, b: nat) returns (acc: nat, any: bool, p: nat)
    requires k <= |s| && 2 <= b <= 36
    ensures
      var e := RunEnd(s, k, b);
      var v := Value(s[k..e], b);
      if v > MAX then acc == MAX && !any
      else acc == v && p == e && any == (e > k)
  {
    ghost var e := RunEnd(s, k, b);
    var cutoff, cutlim := Cut(b);
    acc, any, p := 0, false, k;
    assert s[k..k] == [];
    while true
      invariant k <= p <= e <= |s| && RunEnd(s, p, b) == e && AllDigits(s[k..p], b)
      invariant acc == Value(s[k..p], b) <= MAX && any == (p > k)
      decreases e - p
    {
      RunStep(s, k, p, b);
      var d := DigitVal(Fetch(s, p));
      if d < 0 || d >= b {
        break;
      }
      RunPrefix(s, k, p + 1, b);
      var over := Overflows(acc, d, b, cutoff, cutlim);
      if over {
        acc, any := MAX, false;
        break;
      }
      any := true;
      acc := acc * b + d;
      p := p + 1;
    }
  }

  method SkipWhite(s: string) returns (p: nat)
    ensures p == SkipSpace(s, 0)
  {
    p := 0;
    while IsSpace(Fetch(s, p))
      invariant p <= |s| && SkipSpace(s, 0) == SkipSpace(s, p)
      decreases |s| - p
    {
      p := p + 1;
    }
  }

  method ReadPrefix(s: string, i: nat, base: nat) returns (b: nat, p: nat)
    ensures (b, p) == Prefix(s, i, base)
  {
    b, p := base, i;
    if (b == 0 || b == 16) && Fetch(s, p) == '0' && (Fetch(s, p + 1) == 'x' || Fetch(s, p + 1) == 'X') {
      p := p + 2;
      b := 16;
    }
    if b == 0 {
      b := if Fetch(s, p) == '0' then 8 else 10;
    }
  }

  /** `bmk_strtoul`: the value and the offset of `*endptr`; a wrong base halts the machine. */
  method Parse(nptr: string, base: int) returns (r: Option<(nat, nat)>)
    ensures r.None? <==> base != 0 && !(2 <= base <= 36)
    ensures r.Some? ==> r.value == Read(nptr, base)
  {
    if base != 0 && (base < 2 || base > 36) {
      return None;
    }
    var p := SkipWhite(nptr);
    var neg := false;
    if Fetch(nptr, p) == '-' {
      neg := true;
      p := p + 1;
    } else if Fetch(nptr, p) == '+' {
      p := p + 1;
    }
    assert p == PrefixStart(nptr) && neg == Negative(nptr);
    PrefixBound(nptr, p, base);
    var b, k := ReadPrefix(nptr, p, base);
    var acc, any, e := ReadDigits(nptr, k, b);
    if neg && any && acc != 0 {
      acc := TWO64 - acc;
    }
    r := Some((acc, if any then e else 0));
  }

  /** Reading starts behind leading blanks. */
  lemma {:induction false} SkipBlanks(s: string, i: nat, j: nat)
    requires i <= j <= |s| && forall k :: i <= k < j ==> s[k] == ' '
    requires j == |s| || !IsSpace(s[j])
    ensures SkipSpace(s, i) == j
    decreases j - i
  {
    if i < j {
      SkipBlanks(s, i + 1, j);
    }
  }

  lemma {:induction false} RunsToEnd(s: string, i: nat, b: nat)
    requires i <= |s| && AllDigits(s[i..], b)
    ensures RunEnd(s, i, b) == |s|
    decreases |s| - i
  {
    if i < |s| {
      assert s[i..][0] == s[i] && s[i..][1..] == s[i + 1..];
      RunsToEnd(s, i + 1, b);
    }
  }

  /** Reading digits written in base `b` at the end of a string gives their number. */
  lemma ReadsNumeral(s: string, i: nat, k: nat, b: nat)
    requires i <= k < |s| && SkipSpace(s, 0) == i && Fetch(s, i) !in "+-"
    requires Prefix(s, i, 0) == (b, k) && AllDigits(s[k..], b) && Value(s[k..], b) <= MAX
    ensures Read(s, 0) == (Value(s[k..], b), |s|)
  {
    RunsToEnd(s, k, b);
    assert s[k..|s|] == s[k..];
  }

  // ----- Characters

  /** The white space of the C standard (section 7.4.1.10 of ISO C11, "C" locale). */
  const WhiteSpace: string := " \t\n\U{0b}\U{0c}\r"

  lemma BlankCharacters(c: char)
    ensures IsSpace(c) <==> c in WhiteSpace
  {}

  const DecimalDigits: string := "0123456789"
  const LowerLetters: string := "abcdefghijklmnopqrstuvwxyz"
  const UpperLetters: string := "ABCDEFGHIJKLMNOPQRSTUVWXYZ"

  lemma DecimalCharacters(c: char, k: nat)
    requires k < 10
    ensures DigitVal(c) == k <==> c == DecimalDigits[k]
  {}

  /** Behind the digits come the letters in order, in either case, and no other character. */
  lemma LetterCharacters(c: char, k: nat)
    requires k < 26
    ensures DigitVal(c) == 10 + k <==> c == LowerLetters[k] || c == UpperLetters[k]
  {
    LowerLetter(k);
    UpperLetter(k);
  }

  lemma LowerLetter(k: nat)
    requires k < 26
    ensures LowerLetters[k] as int == 'a' as int + k
  {}

  lemma UpperLetter(k: nat)
    requires k < 26
    ensures UpperLetters[k] as int == 'A' as int + k
  {}
}
