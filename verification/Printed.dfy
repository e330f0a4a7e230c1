/**
  What the conversions of `kprintf` print, in terms of the argument, the flags, the width and the
  precision: sections 7.21.6.1 of ISO C11, but for the departures shown in `PrintRead`.
 */
module Printed {
  import opened Queues
  import opened Numerals
  import opened Strtoul
  import opened Printf
  import opened PrintRead

  // ----- Fields

  function Row(c: char, n: nat): string {
    seq(n, _ => c)
  }

  /** Blanks, a sign or prefix, zeros, the text proper, blanks. */
  predicate Stands(text: string, a: nat, lead: string, z: nat, body: string, t: nat) {
    text == Row(' ', a) + (lead + (Row('0', z) + (body + Row(' ', t))))
  }

  /**
    A field of at least `width` characters with at least `prec` behind the sign or prefix: on
    the left side, or filled up with zeros, or on the right side.
   */
  predicate Justified(text: string, ladjust: bool, zeropad: bool, width: nat, prec: int, lead: string, body: string) {
    var need := if prec > |body| then prec - |body| else 0;
    var size := |lead| + need + |body|;
    var pad := if width > size then width - size else 0;
    if ladjust then Stands(text, 0, lead, need, body, pad)
    else if zeropad then Stands(text, 0, lead, need + pad, body, 0)
    else Stands(text, pad, lead, need, body, 0)
  }

  lemma FillIsRow(c: char, n: int)
    ensures Fill(c, n) == Row(c, if n > 0 then n else 0)
  {}

  lemma RowsJoin(c: char, j: nat, k: nat)
    ensures Row(c, j) + Row(c, k) == Row(c, j + k)
  {}

  lemma PartsRegroup(a: string, l: string, z: string, y: string, b: string, e: string)
    ensures a + l + z + (y + b + e) == a + (l + ((z + y) + (b + e)))
  {
    Regroup(a, l, z, y, b, e);
    Associate(z, y, b);
    Associate(z + y, b, e);
  }

  lemma LayoutStands(f: Field, ladjust: bool, width: nat, a: nat, z: nat, y: nat, t: nat)
    requires
      var pad := width - RealSize(f);
      && Row(' ', a) == (if ladjust || f.zeropad then [] else Fill(' ', pad))
      && Row('0', z) == (if !ladjust && f.zeropad then Fill('0', pad) else [])
      && Row('0', y) == Fill('0', f.dprec - |f.body|)
      && Row(' ', t) == (if ladjust then Fill(' ', pad) else [])
    ensures Stands(Layout(f, ladjust, width), a, Lead(f), z + y, f.body, t)
  {
    var pad := width - RealSize(f);
    assert Left(f, ladjust, pad) == Row(' ', a) + Lead(f) + Row('0', z);
    assert Right(f, ladjust, pad) == Row('0', y) + f.body + Row(' ', t);
    PartsRegroup(Row(' ', a), Lead(f), Row('0', z), Row('0', y), f.body, Row(' ', t));
    RowsJoin('0', z, y);
  }

  lemma LayoutJustified(f: Field, ladjust: bool, width: nat)
    ensures Justified(Layout(f, ladjust, width), ladjust, f.zeropad, width, f.dprec, Lead(f), f.body)
  {
    var need := if f.dprec > |f.body| then f.dprec - |f.body| else 0;
    var size := |Lead(f)| + need + |f.body|;
    var pad := if width > size then width - size else 0;
    FillIsRow('0', f.dprec - |f.body|);
    FillIsRow('0', width - size);
    FillIsRow(' ', width - size);
    if ladjust {
      LayoutStands(f, ladjust, width, 0, 0, need, pad);
    } else if f.zeropad {
      LayoutStands(f, ladjust, width, 0, pad, need, 0);
    } else {
      LayoutStands(f, ladjust, width, pad, 0, need, 0);
    }
  }

  // ----- Numbers

  /** The digits of `n` in base `b` without leading zeros, letters in the case asked for. */
  ghost predicate DigitsOf(body: string, n: nat, b: nat, upper: bool) {
    && body != [] && AllDigits(body, b) && Value(body, b) == n && (body[0] == '0' ==> body == "0")
    && InCase(body, upper)
  }

  /** No letters of the other case. */
  predicate InCase(s: string, upper: bool) {
    forall k :: 0 <= k < |s| ==> if upper then !('a' <= s[k] <= 'z') else !('A' <= s[k] <= 'Z')
  }

  lemma DigitCase(d: nat, upper: bool)
    requires d < 16
    ensures InCase([DigitChar(d, upper)], upper)
  {}

  lemma {:induction false} DigitsCase(n: nat, b: Base, upper: bool)
    ensures InCase(Digits(n, b, upper), upper)
  {
    DigitCase(Remainder(n, b), upper);
    if n >= Radix(b) {
      DigitsCase(Quotient(n, b), b, upper);
    }
  }

  lemma DigitsAre(n: nat, b: Base, upper: bool)
    ensures DigitsOf(Digits(n, b, upper), n, Radix(b), upper)
  {
    DigitsValue(n, b, upper);
    NoLeadingZero(n, b, upper);
    DigitsCase(n, b, upper);
  }

  /**
    The text of a number: its digits, none for zero with precision zero, an octal one with a zero
    in front in the alternate form; the flag 0 counts only without precision.
   */
  ghost predicate PrintsNumber(text: string, sp: Spec, lead: string, n: nat, b: nat, upper: bool, octalZero: bool)
  {
    exists body :: NumberBody(body, sp.prec, n, b, upper, octalZero)
      && Justified(text, sp.ladjust, sp.zeropad && sp.prec < 0, sp.width, sp.prec, lead, body)
  }

  ghost predicate NumberBody(body: string, prec: int, n: nat, b: nat, upper: bool, octalZero: bool) {
    if n == 0 && prec == 0 then body == ""
    else if octalZero && n != 0 then body != [] && body[0] == '0' && DigitsOf(body[1..], n, b, upper)
    else DigitsOf(body, n, b, upper)
  }

  lemma BodyPrints(n: nat, base: Base, alt: bool, upper: bool, prec: int)
    ensures NumberBody(NumberText(n, base, alt, upper, prec), prec, n, Radix(base), upper, base == Oct && alt)
  {
    var d := Digits(n, base, upper);
    DigitsAre(n, base, upper);
    NoLeadingZero(n, base, upper);
    assert (['0'] + d)[1..] == d;
  }

  /** The sign or prefix of a number. */
  function LeadOf(sign: char, prefix: bool, ch: char): string {
    if sign != '\0' then [sign] else if prefix then ['0', ch] else ""
  }

  lemma FieldPrints(sp: Spec, sign: char, n: nat, base: Base, ch: char, prefix: bool)
    requires ch != '\0'
    ensures PrintsNumber(FieldText(Some(NumberField(sp, sign, n, base, ch, prefix)), sp), sp, LeadOf(sign, prefix, ch),
                         n, Radix(base), ch == 'X', base == Oct && sp.alt)
  {
    var f := NumberField(sp, sign, n, base, ch, prefix);
    BodyPrints(n, base, sp.alt, ch == 'X', sp.prec);
    LayoutJustified(f, sp.ladjust, sp.width);
    assert Lead(f) == LeadOf(sign, prefix, ch);
  }

  // ----- Arguments

  /** `n` is the argument as a number of `w` bits, in two's complement or without sign. */
  predicate Congruent(n: int, bits: nat, w: nat)
    requires w > 0
  {
    (n - bits) % w == 0
  }

  /** The size of the numbers a conversion takes, as the number of their values. */
  function Modulus(sp: Spec, long: bool): (m: int)
    ensures m > 0
  {
    if sp.wide || long then 0x1_0000_0000_0000_0000 else if sp.short then 0x1_0000 else 0x1_0000_0000
  }

  /** `d`, `i` and `D` print the argument as a signed number of their size. */
  lemma PrintsSigned(sp: Spec, ch: char, bits: nat, rest: seq<Arg>) returns (n: int)
    requires (ch == 'd' || ch == 'i' || ch == 'D') && bits < 0x1_0000_0000_0000_0000
    ensures
      var m := Modulus(sp, ch == 'D');
      -m <= 2 * n < m && Congruent(n, bits, m)
    ensures
      PrintsNumber(FieldText(Convert(sp, ch, [Num(bits)] + rest), sp), sp,
                   if n < 0 then "-" else if sp.sign == '\0' then "" else [sp.sign],
                   if n < 0 then -n else n, 10, false, false)
  {
    var sp', args := if ch == 'D' then sp.(wide := true) else sp, [Num(bits)] + rest;
    n := SignedArg(sp', args);
    SignedCongruent(sp', args, bits);
    assert Convert(sp, ch, args) == Some(NumberField(sp, if n < 0 then '-' else sp.sign, Magnitude(n), Dec, ch, false));
    FieldPrints(sp, if n < 0 then '-' else sp.sign, Magnitude(n), Dec, ch, false);
  }

  lemma SignedCongruent(sp: Spec, args: seq<Arg>, bits: nat)
    requires args != [] && args[0] == Num(bits) && bits < 0x1_0000_0000_0000_0000
    ensures
      var m, n := Modulus(sp, false), SignedArg(sp, args);
      -m <= 2 * n < m && Congruent(n, bits, m)
  {
    assert Bits(args) == bits;
    if !sp.wide {
      if sp.short {
        Signed16(bits);
      } else {
        Signed32(bits);
      }
    }
  }

  lemma Signed16(bits: nat)
    ensures
      var v := bits % 0x1_0000;
      Congruent(if v < 0x8000 then v else v - 0x1_0000, bits, 0x1_0000)
  {}

  lemma Signed32(bits: nat)
    ensures
      var v := bits % TWO32;
      Congruent(if v < TWO31 then v else v - TWO32, bits, TWO32)
  {}

  /** ... and what they print reads back as its two's complement in 64 bits. */
  lemma SignedReads(sp: Spec, ch: char, bits: nat, rest: seq<Arg>, n: int)
    requires (ch == 'd' || ch == 'i' || ch == 'D') && bits < 0x1_0000_0000_0000_0000
    requires SignOk(sp.sign) && sp.sign != '-'
    requires var m := Modulus(sp, ch == 'D'); -m <= 2 * n < m && Congruent(n, bits, m)
    ensures Read(FieldText(Convert(sp, ch, [Num(bits)] + rest), sp), 10).0 == if n < 0 then n + TWO64 else n
  {
    var sp', args := if ch == 'D' then sp.(wide := true) else sp, [Num(bits)] + rest;
    SignedCongruent(sp', args, bits);
    OnlyOne(n, SignedArg(sp', args), bits, Modulus(sp', false));
    assert Convert(sp, ch, args) == Some(NumberField(sp, if n < 0 then '-' else sp.sign, Magnitude(n), Dec, ch, false));
    ReadsField(sp, if n < 0 then '-' else sp.sign, Magnitude(n), Dec, ch, false);
  }

  /** The number is determined by its congruence. */
  lemma OnlyOne(n: int, k: int, bits: nat, m: int)
    requires m > 0 && -m <= 2 * n < m && -m <= 2 * k < m && Congruent(n, bits, m) && Congruent(k, bits, m)
    ensures n == k
  {
    var q, r := (n - bits) / m, (k - bits) / m;
    assert n - k == m * (q - r) by {
      assert n - bits == m * q && k - bits == m * r;
      TimesMinus(m, q, r);
    }
    if q > r {
      TimesOrder(m, 1, q - r);
    } else if q < r {
      TimesOrder(m, q - r, -1);
    }
  }

  lemma TimesMinus(m: int, q: int, r: int)
    ensures m * q - m * r == m * (q - r)
  {}

  lemma TimesOrder(m: int, q: int, r: int)
    requires m > 0 && q <= r
    ensures m * q <= m * r
  {}

  /** The base of an unsigned conversion. */
  function RadixOf(ch: char): nat {
    if ch == 'o' || ch == 'O' then 8 else if ch == 'u' || ch == 'U' then 10 else 16
  }

  /** The `0x` of `p`, and of the alternate form of any number but zero. */
  function HexLead(sp: Spec, ch: char, n: nat): string {
    if ch == 'p' then "0x"
    else if sp.alt && n != 0 && ch == 'x' then "0x"
    else if sp.alt && n != 0 && ch == 'X' then "0X"
    else ""
  }

  /**
    The number an unsigned conversion prints: the argument without sign in its size; with `h`
    the int that was passed, in 64 bits.
   */
  ghost predicate UnsignedValue(sp: Spec, long: bool, bits: nat, n: nat) {
    if sp.wide || long then n == bits
    else if sp.short then
      exists k: int ::
        -0x8000_0000 <= k < 0x8000_0000 && Congruent(k, bits, TWO32) && n == if k < 0 then k + TWO64 else k
    else n < TWO32 && Congruent(n, bits, TWO32)
  }

  predicate LongConversion(ch: char) {
    ch == 'U' || ch == 'O' || ch == 'p'
  }

  predicate UnsignedConversion(ch: char) {
    ch == 'u' || ch == 'o' || ch == 'x' || ch == 'X' || LongConversion(ch)
  }

  function BaseFor(ch: char): (b: Base)
    ensures Radix(b) == RadixOf(ch)
  {
    if ch == 'o' || ch == 'O' then Oct else if ch == 'u' || ch == 'U' then Dec else Hex
  }

  lemma UnsignedField(sp: Spec, ch: char, args: seq<Arg>)
    requires UnsignedConversion(ch)
    ensures
      var n := UnsignedArg(if LongConversion(ch) then sp.(wide := true) else sp, args);
      Convert(sp, ch, args)
      == Some(NumberField(sp, '\0', n, BaseFor(ch), if ch == 'p' then 'x' else ch, HexLead(sp, ch, n) != ""))
  {}

  /** `u`, `o`, `x`, `X`, `U`, `O` and `p` print the argument in their base. */
  lemma PrintsUnsigned(sp: Spec, ch: char, bits: nat, rest: seq<Arg>) returns (n: nat)
    requires UnsignedConversion(ch) && bits < 0x1_0000_0000_0000_0000
    ensures UnsignedValue(sp, LongConversion(ch), bits, n)
    ensures
      PrintsNumber(FieldText(Convert(sp, ch, [Num(bits)] + rest), sp), sp, HexLead(sp, ch, n), n, RadixOf(ch),
                   ch == 'X', RadixOf(ch) == 8 && sp.alt)
  {
    var sp', args := if LongConversion(ch) then sp.(wide := true) else sp, [Num(bits)] + rest;
    n := UnsignedArg(sp', args);
    UnsignedIs(sp', args, bits);
    UnsignedField(sp, ch, args);
    FieldPrints(sp, '\0', n, BaseFor(ch), if ch == 'p' then 'x' else ch, HexLead(sp, ch, n) != "");
  }

  lemma UnsignedIs(sp: Spec, args: seq<Arg>, bits: nat)
    requires args != [] && args[0] == Num(bits) && bits < 0x1_0000_0000_0000_0000
    ensures UnsignedValue(sp, false, bits, UnsignedArg(sp, args))
  {
    assert Bits(args) == bits;
    if !sp.wide {
      if sp.short {
        Signed32(bits);
        assert Congruent(IntArg(args), bits, TWO32);
      } else {
        Low32(bits);
      }
    }
  }

  lemma Low32(bits: nat)
    ensures Congruent(bits % TWO32, bits, TWO32)
  {}

  // ----- Texts

  /** `s` prints as much of the string as the precision allows, and `(null)` for a null pointer. */
  lemma PrintsString(sp: Spec, s: Option<string>, rest: seq<Arg>)
    ensures
      var t := if s.Some? then s.value else "(null)";
      var k := if sp.prec < 0 || sp.prec > |t| then |t| else sp.prec;
      Justified(FieldText(Convert(sp, 's', [Str(s)] + rest), sp), sp.ladjust, sp.zeropad, sp.width, 0, "", t[..k])
  {
    var t := if s.Some? then s.value else "(null)";
    var k := if sp.prec < 0 || sp.prec > |t| then |t| else sp.prec;
    var f := Field('\0', '\0', 0, t[..k], sp.zeropad);
    assert t[..|t|] == t;
    assert Convert(sp, 's', [Str(s)] + rest) == Some(f);
    LayoutJustified(f, sp.ladjust, sp.width);
  }

  /** `c` prints the low byte of its argument, and a character that is no conversion itself. */
  lemma PrintsChar(sp: Spec, ch: char, args: seq<Arg>, bits: nat)
    requires ch == 'c' ==> args != [] && args[0] == Num(bits) && bits < 0x1_0000_0000_0000_0000
    requires ch !in "DdiOopUuXxns"
    ensures
      var c := if ch == 'c' then (bits % 256) as char else ch;
      Justified(FieldText(Convert(sp, ch, args), sp), sp.ladjust, sp.zeropad, sp.width, 0, "", [c])
  {
    var f := Field('\0', '\0', 0, [if ch == 'c' then (bits % 256) as char else ch], sp.zeropad);
    assert ch == 'c' ==> Bits(args) == bits;
    assert Convert(sp, ch, args) == Some(f);
    LayoutJustified(f, sp.ladjust, sp.width);
  }

  /** `n` prints nothing. */
  lemma PrintsNothing(sp: Spec, args: seq<Arg>)
    ensures FieldText(Convert(sp, 'n', args), sp) == ""
  {}
}
