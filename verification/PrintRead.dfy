/** What `kprintf` prints of a 64-bit number, `bmk_strtoul` reads back. */
module PrintRead {
  import opened Queues
  import opened Numerals
  import opened Strtoul
  import opened Printf

  /** Blank padding in front of a number's prefix and digits. */
  function Padded(width: int, text: string): string {
    Fill(' ', width - |text|) + text
  }

  lemma StarModifier(fmt: string, i: nat, sp: Spec, w: nat, v: nat)
    requires Fetch(fmt, i) == '*' && w < TWO31
    ensures ReadModifier(fmt, i, sp, [Num(w), Num(v)]) == Modifier(sp.(width := w), i + 1, [Num(v)])
  {}

  lemma AltModifier(fmt: string, i: nat, sp: Spec, args: seq<Arg>)
    requires Fetch(fmt, i) == '#'
    ensures ReadModifier(fmt, i, sp, args) == Modifier(sp.(alt := true), i + 1, args)
  {}

  lemma LongModifier(fmt: string, i: nat, sp: Spec, args: seq<Arg>)
    requires Fetch(fmt, i) == 'l' && Fetch(fmt, i + 1) != 'l'
    ensures ReadModifier(fmt, i, sp, args) == Modifier(sp.(wide := true), i + 1, args)
  {}

  /** `l` and the conversion `ch`, read from `i` on. */
  lemma JustLong(fmt: string, i: nat, sp: Spec, ch: char, args: seq<Arg>)
    requires Fetch(fmt, i) == 'l' && Fetch(fmt, i + 1) == ch && ch in "uxo"
    ensures ParseSpec(fmt, i, sp, args) == Parsed(sp.(wide := true), ch, i + 2, args)
  {
    var sp' := sp.(wide := true);
    LongModifier(fmt, i, sp, args);
    assert ReadModifier(fmt, i + 1, sp', args) == NoModifier;
    assert ParseSpec(fmt, i + 1, sp', args) == Parsed(sp', ch, i + 2, args);
  }

  /** A width from the arguments, `l`, and the conversion `ch`. */
  lemma StarLong(fmt: string, i: nat, sp: Spec, ch: char, w: nat, v: nat)
    requires Fetch(fmt, i) == '*' && Fetch(fmt, i + 1) == 'l' && Fetch(fmt, i + 2) == ch && ch in "uxo"
    requires w < TWO31
    ensures ParseSpec(fmt, i, sp, [Num(w), Num(v)]) == Parsed(sp.(width := w, wide := true), ch, i + 3, [Num(v)])
  {
    StarModifier(fmt, i, sp, w, v);
    JustLong(fmt, i + 1, sp.(width := w), ch, [Num(v)]);
  }

  lemma LongArg(sp: Spec, v: nat)
    requires sp.wide && v <= MAX
    ensures UnsignedArg(sp, [Num(v)]) == v
  {}

  /** A right-adjusted field without zero padding or precision. */
  lemma FieldIsPadded(sp: Spec, f: Field)
    requires !sp.ladjust && !f.zeropad && f.dprec <= 0
    ensures FieldText(Some(f), sp) == Padded(sp.width, Lead(f) + f.body)
  {
    var blanks := Fill(' ', sp.width - RealSize(f));
    assert Left(f, false, sp.width - RealSize(f)) == blanks + Lead(f);
    assert Right(f, false, sp.width - RealSize(f)) == f.body;
    Associate(blanks, Lead(f), f.body);
  }

  /** The text of a format that is one conversion to its end. */
  lemma OnePiece(fmt: string, args: seq<Arg>, d: Parsed, f: Field)
    requires fmt != [] && fmt[0] == '%' && ParseSpec(fmt, 1, Plain, args) == d
    requires d.ch != '\0' && d.next == |fmt| && Convert(d.sp, d.ch, d.args) == Some(f)
    ensures Render(fmt, 0, args) == FieldText(Some(f), d.sp)
  {
    var rest := if TakesArg(d.ch) then Rest(d.args) else d.args;
    assert PieceAt(fmt, 0, args) == Piece(FieldText(Some(f), d.sp), |fmt|, rest);
    assert Render(fmt, |fmt|, rest) == [];
  }

  /** Conversions of a whole `unsigned long`, in decimal or with a prefix. */
  predicate Readable(sp: Spec, ch: char) {
    && sp.wide && !sp.ladjust && !sp.zeropad && sp.prec == -1
    && (ch == 'u' || (sp.alt && (ch == 'x' || ch == 'o')))
  }

  /** The number in the base of `ch`, with its prefix. */
  function Written(ch: char, v: nat): string {
    if ch == 'u' then Digits(v, Dec, false)
    else if ch == 'x' then (if v == 0 then "" else "0x") + Digits(v, Hex, false)
    else (if v == 0 then "" else "0") + Digits(v, Oct, false)
  }

  function BaseOf(ch: char): Base {
    if ch == 'u' then Dec else if ch == 'x' then Hex else Oct
  }

  lemma FieldWritten(sp: Spec, ch: char, v: nat)
    requires Readable(sp, ch) && v <= MAX
    ensures
      var f := NumberField(sp, '\0', v, BaseOf(ch), ch, ch == 'x' && v != 0);
      && Convert(sp, ch, [Num(v)]) == Some(f)
      && Lead(f) + f.body == Written(ch, v) && !f.zeropad && f.dprec <= 0
  {
    LongArg(sp, v);
    NoLeadingZero(v, Oct, false);
  }

  /** What such a format prints. */
  lemma Prints(fmt: string, args: seq<Arg>, sp: Spec, ch: char, v: nat)
    requires fmt != [] && fmt[0] == '%' && ParseSpec(fmt, 1, Plain, args) == Parsed(sp, ch, |fmt|, [Num(v)])
    requires Readable(sp, ch) && v <= MAX
    ensures Render(fmt, 0, args) == Padded(sp.width, Written(ch, v))
  {
    FieldWritten(sp, ch, v);
    var f := NumberField(sp, '\0', v, BaseOf(ch), ch, ch == 'x' && v != 0);
    OnePiece(fmt, args, Parsed(sp, ch, |fmt|, [Num(v)]), f);
    FieldIsPadded(sp, f);
  }

  // ----- Reading back

  lemma PaddedStart(width: int, text: string)
    requires text != [] && !IsSpace(text[0])
    ensures
      var s := Padded(width, text);
      var i := |s| - |text|;
      SkipSpace(s, 0) == i && s[i..] == text && Fetch(s, i) == text[0]
  {
    var s := Padded(width, text);
    SkipBlanks(s, 0, |s| - |text|);
  }

  lemma FirstIsDigit(v: nat, b: Base)
    ensures var c := Digits(v, b, false)[0]; !IsSpace(c) && c !in "+-" && DigitVal(c) >= 0
  {
    DigitsValue(v, b, false);
  }

  /** Decimal: no leading zero, or the number zero, which reads as octal zero. */
  lemma ReadsDec(w: int, v: nat)
    requires v <= MAX
    ensures var s := Padded(w, Digits(v, Dec, false)); Read(s, 0) == (v, |s|)
  {
    var d := Digits(v, Dec, false);
    var s := Padded(w, d);
    var i := |s| - |d|;
    FirstIsDigit(v, Dec);
    PaddedStart(w, d);
    NoLeadingZero(v, Dec, false);
    if v == 0 {
      assert d == ['0'];
      assert Value(d, 8) == 0 by {
        ValueAppend([], '0', 8);
      }
      ReadsNumeral(s, i, i, 8);
    } else {
      DigitsValue(v, Dec, false);
      ReadsNumeral(s, i, i, 10);
    }
  }

  lemma ReadsHex(w: int, v: nat)
    requires v <= MAX
    ensures var s := Padded(w, (if v == 0 then "" else "0x") + Digits(v, Hex, false)); Read(s, 0) == (v, |s|)
  {
    if v == 0 {
      assert Digits(0, Hex, false) == Digits(0, Dec, false);
      assert "" + Digits(v, Hex, false) == Digits(v, Dec, false);
      ReadsDec(w, 0);
    } else {
      var d := Digits(v, Hex, false);
      var s := Padded(w, "0x" + d);
      var i := |s| - |"0x" + d|;
      PaddedStart(w, "0x" + d);
      assert s[i..][1] == 'x' && s[i + 2..] == s[i..][2..] == d;
      DigitsValue(v, Hex, false);
      ReadsNumeral(s, i, i + 2, 16);
    }
  }

  /** A leading zero changes nothing. */
  lemma {:induction false} ZeroInFront(s: string, b: nat)
    requires AllDigits(s, b) && b >= 1
    ensures AllDigits(['0'] + s, b) && Value(['0'] + s, b) == Value(s, b)
  {
    var t := ['0'] + s;
    if s == [] {
      ValueAppend([], '0', b);
      assert t == [] + ['0'];
    } else {
      var k := |s| - 1;
      ZeroInFront(s[..k], b);
      assert t == ['0'] + s[..k] + [s[k]];
      ValueAppend(['0'] + s[..k], s[k], b);
      assert s == s[..k] + [s[k]];
      ValueAppend(s[..k], s[k], b);
    }
  }

  lemma ReadsOct(w: int, v: nat)
    requires v <= MAX
    ensures var s := Padded(w, (if v == 0 then "" else "0") + Digits(v, Oct, false)); Read(s, 0) == (v, |s|)
  {
    if v == 0 {
      assert Digits(0, Oct, false) == Digits(0, Dec, false);
      assert "" + Digits(v, Oct, false) == Digits(v, Dec, false);
      ReadsDec(w, 0);
    } else {
      var d := Digits(v, Oct, false);
      var s := Padded(w, "0" + d);
      var i := |s| - |"0" + d|;
      PaddedStart(w, "0" + d);
      DigitsValue(v, Oct, false);
      ZeroInFront(d, 8);
      FirstIsDigit(v, Oct);
      assert s[i..][1] == d[0] && IsDigit(d[0], 8);
      ReadsNumeral(s, i, i, 8);
    }
  }

  /**
    Every 64-bit number, printed in decimal or with the prefix of its base, right-adjusted in a
    field of any width, is read back, to the last character.
   */
  lemma RoundTrip(fmt: string, args: seq<Arg>, sp: Spec, ch: char, v: nat)
    requires fmt != [] && fmt[0] == '%' && ParseSpec(fmt, 1, Plain, args) == Parsed(sp, ch, |fmt|, [Num(v)])
    requires Readable(sp, ch) && v <= MAX
    ensures var s := Render(fmt, 0, args); Read(s, 0) == (v, |s|)
  {
    Prints(fmt, args, sp, ch, v);
    if ch == 'u' {
      ReadsDec(sp.width, v);
    } else if ch == 'x' {
      ReadsHex(sp.width, v);
    } else {
      ReadsOct(sp.width, v);
    }
  }

  lemma RoundTripDec(v: nat)
    requires v <= MAX
    ensures Read(Render("%lu", 0, [Num(v)]), 0).0 == v
  {
    JustLong("%lu", 1, Plain, 'u', [Num(v)]);
    RoundTrip("%lu", [Num(v)], Plain.(wide := true), 'u', v);
  }

  lemma RoundTripHex(v: nat)
    requires v <= MAX
    ensures Read(Render("%#lx", 0, [Num(v)]), 0).0 == v
  {
    AltModifier("%#lx", 1, Plain, [Num(v)]);
    JustLong("%#lx", 2, Plain.(alt := true), 'x', [Num(v)]);
    RoundTrip("%#lx", [Num(v)], Plain.(alt := true, wide := true), 'x', v);
  }

  lemma RoundTripOct(v: nat)
    requires v <= MAX
    ensures Read(Render("%#lo", 0, [Num(v)]), 0).0 == v
  {
    AltModifier("%#lo", 1, Plain, [Num(v)]);
    JustLong("%#lo", 2, Plain.(alt := true), 'o', [Num(v)]);
    RoundTrip("%#lo", [Num(v)], Plain.(alt := true, wide := true), 'o', v);
  }

  /** And with a width among the arguments. */
  lemma RoundTripWidth(w: nat, v: nat)
    requires w < TWO31 && v <= MAX
    ensures Read(Render("%*lu", 0, [Num(w), Num(v)]), 0).0 == v
    ensures |Render("%*lu", 0, [Num(w), Num(v)])| >= w
  {
    StarLong("%*lu", 1, Plain, 'u', w, v);
    Prints("%*lu", [Num(w), Num(v)], Plain.(width := w, wide := true), 'u', v);
    RoundTrip("%*lu", [Num(w), Num(v)], Plain.(width := w, wide := true), 'u', v);
  }

  // ----- Any mix of flags, width and precision

  /** A printed number: blanks, sign or prefix, zeros and digits, blanks. */
  function Shape(a: nat, lead: string, ds: string, t: nat): string {
    Fill(' ', a) + (lead + (ds + Fill(' ', t)))
  }

  lemma LayoutShape(f: Field, ladjust: bool, width: nat) returns (a: nat, z: nat, t: nat)
    ensures Layout(f, ladjust, width) == Shape(a, Lead(f), Fill('0', z) + f.body, t)
    ensures !f.zeropad && f.dprec <= |f.body| ==> z == 0
  {
    var pad, need := width - RealSize(f), f.dprec - |f.body|;
    a := |if ladjust || f.zeropad then [] else Fill(' ', pad)|;
    t := |if ladjust then Fill(' ', pad) else []|;
    var z1 := |if !ladjust && f.zeropad then Fill('0', pad) else []|;
    var z2 := |Fill('0', need)|;
    z := z1 + z2;
    ZerosJoin(z1, z2);
    SameFill(' ', pad);
    SameFill('0', pad);
    SameFill('0', need);
    Regroup(Fill(' ', a), Lead(f), Fill('0', z1), Fill('0', z2), f.body, Fill(' ', t));
  }

  lemma SameFill(c: char, n: int)
    ensures Fill(c, n) == Fill(c, |Fill(c, n)|)
  {}

  lemma ZerosJoin(j: nat, k: nat)
    ensures Fill('0', j + k) == Fill('0', j) + Fill('0', k)
  {
    var s, t := Fill('0', j + k), Fill('0', j) + Fill('0', k);
    assert |s| == |t| && forall i :: 0 <= i < |s| ==> s[i] == t[i];
  }

  lemma Regroup(a: string, l: string, z1: string, z2: string, b: string, t: string)
    ensures a + l + z1 + (z2 + b + t) == a + (l + (z1 + z2 + b + t))
  {}

  /** The 64-bit pattern of a number with its sign. */
  function Signed(negative: bool, n: nat): nat
    requires n <= MAX
  {
    if negative && n != 0 then TWO64 - n else n
  }

  /** Signs and prefixes that the reader of base `b` accepts. */
  predicate LeadOk(lead: string, b: nat) {
    lead == "" || lead == "-" || lead == "+" || lead == " " || (b == 16 && (lead == "0x" || lead == "0X"))
  }

  /** Reading starts at the digits, in the base asked for. */
  lemma StartsAt(s: string, a: nat, lead: string, b: nat)
    requires a + |lead| < |s| && (forall k :: 0 <= k < a ==> s[k] == ' ') && s[a..a + |lead|] == lead
    requires LeadOk(lead, b) && IsDigit(s[a + |lead|], b) && (b == 8 || b == 10 || b == 16)
    requires Fetch(s, a + |lead| + 1) != 'x' && Fetch(s, a + |lead| + 1) != 'X'
    ensures Prefix(s, PrefixStart(s), b) == (b, a + |lead|) && (Negative(s) <==> lead == "-")
  {
    assert lead != "" ==> s[a + 0] == lead[0];
    assert |lead| == 2 ==> s[a + 1] == lead[1];
    SkipBlanks(s, 0, if lead == " " then a + 1 else a);
  }

  /** The parts of a printed number, by position. */
  ghost predicate IsShape(s: string, a: nat, lead: string, ds: string) {
    && a + |lead| + |ds| <= |s| && (forall k :: 0 <= k < a ==> s[k] == ' ')
    && s[a..a + |lead|] == lead && s[a + |lead|..a + |lead| + |ds|] == ds
    && (forall k :: a + |lead| + |ds| <= k < |s| ==> s[k] == ' ')
  }

  lemma ShapeParts(a: nat, lead: string, ds: string, t: nat)
    ensures IsShape(Shape(a, lead, ds, t), a, lead, ds)
  {
    var s, k := Shape(a, lead, ds, t), a + |lead|;
    assert s[a..k] == lead && s[k..k + |ds|] == ds;
  }

  lemma ShapeStart(s: string, a: nat, lead: string, ds: string, b: nat)
    requires IsShape(s, a, lead, ds)
    requires ds != [] && AllDigits(ds, b) && LeadOk(lead, b) && (b == 8 || b == 10 || b == 16)
    ensures Prefix(s, PrefixStart(s), b) == (b, a + |lead|) && (Negative(s) <==> lead == "-")
  {
    var k := a + |lead|;
    assert s[k] == s[k..k + |ds|][0];
    NextCharacter(s, k, ds, b);
    StartsAt(s, a, lead, b);
  }

  lemma NextCharacter(s: string, k: nat, ds: string, b: nat)
    requires ds != [] && AllDigits(ds, b) && b <= 16 && k + |ds| <= |s| && s[k..k + |ds|] == ds
    requires forall i :: k + |ds| <= i < |s| ==> s[i] == ' '
    ensures Fetch(s, k + 1) != 'x' && Fetch(s, k + 1) != 'X'
  {
    if |ds| > 1 {
      assert s[k + 1] == s[k..k + |ds|][1] && IsDigit(ds[1], b);
    }
  }

  lemma {:induction false} RunStops(s: string, k: nat, e: nat, b: nat)
    requires k <= e <= |s| && AllDigits(s[k..e], b) && (e == |s| || !IsDigit(s[e], b))
    ensures RunEnd(s, k, b) == e
    decreases e - k
  {
    if k < e {
      assert s[k..e][0] == s[k] && s[k..e][1..] == s[k + 1..e];
      RunStops(s, k + 1, e, b);
    }
  }

  /** All of the digits are read. */
  lemma ShapeRun(s: string, a: nat, lead: string, ds: string, b: nat)
    requires IsShape(s, a, lead, ds) && AllDigits(ds, b)
    ensures RunEnd(s, a + |lead|, b) == a + |lead| + |ds|
  {
    RunStops(s, a + |lead|, a + |lead| + |ds|, b);
  }

  /** What the reader of base `b` finds: a sign, and the digits `ds` at `k`. */
  ghost predicate Finds(s: string, b: nat, neg: bool, k: nat, ds: string) {
    && Prefix(s, PrefixStart(s), b) == (b, k) && Negative(s) == neg
    && k <= |s| && RunEnd(s, k, b) == k + |ds| && s[k..RunEnd(s, k, b)] == ds
  }

  lemma ShapeFinds(s: string, a: nat, lead: string, ds: string, b: nat)
    requires IsShape(s, a, lead, ds)
    requires ds != [] && AllDigits(ds, b) && LeadOk(lead, b) && (b == 8 || b == 10 || b == 16)
    ensures Finds(s, b, lead == "-", a + |lead|, ds)
  {
    ShapeStart(s, a, lead, ds, b);
    ShapeRun(s, a, lead, ds, b);
  }

  lemma FindsReads(s: string, b: nat, neg: bool, k: nat, ds: string)
    requires Finds(s, b, neg, k, ds) && ds != [] && AllDigits(ds, b) && Value(ds, b) <= MAX
    ensures Read(s, b).0 == Signed(neg, Value(ds, b))
  {
    var e := RunEnd(s, k, b);
    var v := Value(s[k..e], b);
    assert Read(s, b) == (if neg && v != 0 then TWO64 - v else v, e);
  }

  lemma {:induction false} ZerosInFront(z: nat, s: string, b: nat)
    requires AllDigits(s, b) && b >= 1
    ensures AllDigits(Fill('0', z) + s, b) && Value(Fill('0', z) + s, b) == Value(s, b)
  {
    if z == 0 {
      assert Fill('0', z) + s == s;
    } else {
      ZeroInFront(s, b);
      ZerosInFront(z - 1, ['0'] + s, b);
      assert Fill('0', z) + s == Fill('0', z - 1) + (['0'] + s);
    }
  }

  lemma BodyValue(n: nat, base: Base, alt: bool, upper: bool, prec: int)
    requires n != 0 || prec != 0
    ensures
      var body := NumberText(n, base, alt, upper, prec);
      body != [] && AllDigits(body, Radix(base)) && Value(body, Radix(base)) == n
  {
    DigitsValue(n, base, upper);
    ZeroInFront(Digits(n, base, upper), Radix(base));
  }

  predicate SignOk(c: char) {
    c == '\0' || c == '-' || c == '+' || c == ' '
  }

  lemma LeadFits(f: Field, b: nat)
    requires SignOk(f.sign) && (f.hexPrefix != '\0' ==> b == 16 && (f.hexPrefix == 'x' || f.hexPrefix == 'X'))
    ensures LeadOk(Lead(f), b) && (Lead(f) == "-" <==> f.sign == '-')
  {}

  lemma LayoutFinds(f: Field, ladjust: bool, width: nat, b: nat) returns (k: nat, z: nat)
    requires SignOk(f.sign) && (f.hexPrefix != '\0' ==> b == 16 && (f.hexPrefix == 'x' || f.hexPrefix == 'X'))
    requires (b == 8 || b == 10 || b == 16) && f.body != [] && AllDigits(f.body, b)
    ensures AllDigits(Fill('0', z) + f.body, b)
    ensures Finds(Layout(f, ladjust, width), b, f.sign == '-', k, Fill('0', z) + f.body)
  {
    var a, t;
    a, z, t := LayoutShape(f, ladjust, width);
    k := a + |Lead(f)|;
    var ds := Fill('0', z) + f.body;
    LeadFits(f, b);
    DigitsAfterZeros(z, f.body, b);
    TextFinds(Layout(f, ladjust, width), a, Lead(f), ds, t, b, f.sign == '-');
  }

  lemma DigitsAfterZeros(z: nat, body: string, b: nat)
    requires AllDigits(body, b) && b > 0
    ensures AllDigits(Fill('0', z) + body, b)
  {}

  lemma TextFinds(s: string, a: nat, lead: string, ds: string, t: nat, b: nat, neg: bool)
    requires s == Shape(a, lead, ds, t) && (neg <==> lead == "-")
    requires ds != [] && AllDigits(ds, b) && LeadOk(lead, b) && (b == 8 || b == 10 || b == 16)
    ensures Finds(s, b, neg, a + |lead|, ds)
  {
    ShapeParts(a, lead, ds, t);
    ShapeFinds(s, a, lead, ds, b);
  }

  lemma ReadsLayout(f: Field, ladjust: bool, width: nat, b: nat)
    requires SignOk(f.sign) && (f.hexPrefix != '\0' ==> b == 16 && (f.hexPrefix == 'x' || f.hexPrefix == 'X'))
    requires (b == 8 || b == 10 || b == 16) && f.body != [] && AllDigits(f.body, b) && Value(f.body, b) <= MAX
    ensures Read(Layout(f, ladjust, width), b).0 == Signed(f.sign == '-', Value(f.body, b))
  {
    var k, z := LayoutFinds(f, ladjust, width, b);
    ZerosInFront(z, f.body, b);
    FindsReads(Layout(f, ladjust, width), b, f.sign == '-', k, Fill('0', z) + f.body);
  }

  /** Zero with precision zero: sign or prefix, if any, between blanks. */
  lemma NoDigitsShape(f: Field, ladjust: bool, width: nat) returns (a: nat, t: nat)
    requires f.body == [] && f.dprec <= 0 && !f.zeropad
    ensures Layout(f, ladjust, width) == Shape(a, Lead(f), [], t)
  {
    var z;
    a, z, t := LayoutShape(f, ladjust, width);
    assert Fill('0', 0) + f.body == [];
  }

  lemma ShapeBlanks(a: nat, lead: string, t: nat)
    ensures
      var s := Shape(a, lead, [], t);
      && |s| == a + |lead| + t && (forall k :: 0 <= k < a ==> s[k] == ' ')
      && (forall k :: 0 <= k < |lead| ==> s[a + k] == lead[k]) && forall k :: a + |lead| <= k < |s| ==> s[k] == ' '
  {}

  /** Where no digit stands, nothing is read. */
  lemma NothingRead(s: string, k: nat, b: nat)
    requires Prefix(s, PrefixStart(s), b) == (b, k) && k <= |s| && !IsDigit(Fetch(s, k), b)
    ensures Read(s, b) == (0, 0)
  {
    assert RunEnd(s, k, b) == k;
  }

  lemma NoDigitsStart(s: string, a: nat, lead: string, b: nat) returns (k: nat)
    requires a + |lead| <= |s| && LeadOk(lead, b) && (b == 8 || b == 10 || b == 16)
    requires (forall k :: 0 <= k < a ==> s[k] == ' ') && (forall k :: 0 <= k < |lead| ==> s[a + k] == lead[k])
    requires forall k :: a + |lead| <= k < |s| ==> s[k] == ' '
    ensures Prefix(s, PrefixStart(s), b) == (b, k) && k <= |s| && !IsDigit(Fetch(s, k), b)
  {
    assert lead != "" ==> s[a + 0] == lead[0];
    if lead == "" || lead == " " {
      k := |s|;
      SkipBlanks(s, 0, k);
    } else {
      k := a + |lead|;
      assert |lead| == 2 ==> s[a + 1] == lead[1];
      SkipBlanks(s, 0, a);
    }
  }

  lemma NoDigitsRead(f: Field, ladjust: bool, width: nat, b: nat)
    requires f.body == [] && f.dprec <= 0 && !f.zeropad && (b == 8 || b == 10 || b == 16)
    requires SignOk(f.sign) && (f.hexPrefix != '\0' ==> b == 16 && (f.hexPrefix == 'x' || f.hexPrefix == 'X'))
    ensures Read(Layout(f, ladjust, width), b).0 == 0
  {
    var a, t := NoDigitsShape(f, ladjust, width);
    LeadFits(f, b);
    ShapeBlanks(a, Lead(f), t);
    var k := NoDigitsStart(Shape(a, Lead(f), [], t), a, Lead(f), b);
    NothingRead(Shape(a, Lead(f), [], t), k, b);
  }

  /**
    Whatever the flags, the width and the precision, the text of a number reads back in its
    own base: a negative one as its two's complement.
   */
  lemma ReadsField(sp: Spec, sign: char, n: nat, base: Base, ch: char, prefix: bool)
    requires n <= MAX && SignOk(sign)
    requires prefix ==> base == Hex && (ch == 'x' || ch == 'X')
    ensures
      var text := FieldText(Some(NumberField(sp, sign, n, base, ch, prefix)), sp);
      Read(text, Radix(base)).0 == Signed(sign == '-', n)
  {
    var f := NumberField(sp, sign, n, base, ch, prefix);
    if n == 0 && sp.prec == 0 {
      NoDigitsRead(f, sp.ladjust, sp.width, Radix(base));
    } else {
      BodyValue(n, base, sp.alt, ch == 'X', sp.prec);
      ReadsLayout(f, sp.ladjust, sp.width, Radix(base));
    }
  }

  lemma ConvertSigned(sp: Spec, args: seq<Arg>)
    ensures
      var n := SignedArg(sp, args);
      Convert(sp, 'd', args)
      == Some(NumberField(sp, if n < 0 then '-' else sp.sign, Magnitude(n), Dec, 'd', false))
  {}

  /** `d` and `i`: the bit pattern of any signed 64-bit number reads back in base 10. */
  lemma SignedReadsBack(sp: Spec, bits: nat)
    requires sp.wide && bits <= MAX && SignOk(sp.sign) && sp.sign != '-'
    ensures Read(FieldText(Convert(sp, 'd', [Num(bits)]), sp), 10).0 == bits
  {
    var n := SignedArg(sp, [Num(bits)]);
    assert Bits([Num(bits)]) == bits;
    ConvertSigned(sp, [Num(bits)]);
    ReadsField(sp, if n < 0 then '-' else sp.sign, Magnitude(n), Dec, 'd', false);
  }

  /** The base of an unsigned conversion. */
  function UnsignedBase(ch: char): Base {
    if ch == 'u' then Dec else if ch == 'o' then Oct else Hex
  }

  lemma ConvertUnsigned(sp: Spec, ch: char, args: seq<Arg>)
    requires ch == 'u' || ch == 'o' || ch == 'x' || ch == 'X'
    ensures
      var n, hex := UnsignedArg(sp, args), ch == 'x' || ch == 'X';
      Convert(sp, ch, args) == Some(NumberField(sp, '\0', n, UnsignedBase(ch), ch, hex && sp.alt && n != 0))
  {}

  /** `u`, `o`, `x` and `X`: any unsigned argument reads back in the base of its conversion. */
  lemma UnsignedReadsBack(sp: Spec, ch: char, args: seq<Arg>)
    requires ch == 'u' || ch == 'o' || ch == 'x' || ch == 'X'
    ensures Read(FieldText(Convert(sp, ch, args), sp), Radix(UnsignedBase(ch))).0 == UnsignedArg(sp, args)
  {
    var n, hex := UnsignedArg(sp, args), ch == 'x' || ch == 'X';
    ConvertUnsigned(sp, ch, args);
    ReadsField(sp, '\0', n, UnsignedBase(ch), ch, hex && sp.alt && n != 0);
  }

  // ----- Where `kprintf` departs from the C standard

  lemma FirstOfDigits(a: nat, ds: string, t: nat)
    requires ds == [] || !IsSpace(ds[0])
    ensures
      var s := Shape(a, [], ds, t);
      Fetch(s, SkipSpace(s, 0)) == if ds == [] then '\0' else ds[0]
  {
    var s := Shape(a, [], ds, t);
    if ds == [] {
      ShapeBlanks(a, [], t);
      SkipBlanks(s, 0, |s|);
    } else {
      ShapeParts(a, [], ds, t);
      assert s[a] == s[a..a + |ds|][0];
      SkipBlanks(s, 0, a);
    }
  }

  /** The octal digits in the alternate form start with 0, and there are some unless both the
      number and the precision are zero. */
  lemma AltBody(n: nat, prec: int)
    ensures
      var body := NumberText(n, Oct, true, false, prec);
      (body == [] <==> n == 0 && prec == 0) && (body != [] ==> body[0] == '0')
  {
    NoLeadingZero(n, Oct, false);
  }

  lemma ZerosFirst(z: nat, body: string)
    requires body != [] ==> body[0] == '0'
    requires body == [] ==> z == 0
    ensures var ds := Fill('0', z) + body; (ds == [] <==> body == []) && (ds != [] ==> ds[0] == '0')
  {}

  /**
    `%#o` prints a number whose first digit is 0 if and only if the number or the precision
    given is not zero. The C standard asks for it always.
   */
  lemma AltOctalZero(sp: Spec, args: seq<Arg>)
    requires sp.alt
    ensures
      var text := FieldText(Convert(sp, 'o', args), sp);
      Fetch(text, SkipSpace(text, 0)) == '0' <==> UnsignedArg(sp, args) != 0 || sp.prec != 0
  {
    var n := UnsignedArg(sp, args);
    ConvertUnsigned(sp, 'o', args);
    var f := NumberField(sp, '\0', n, Oct, 'o', false);
    AltBody(n, sp.prec);
    var a, z, t := LayoutShape(f, sp.ladjust, sp.width);
    ZerosFirst(z, f.body);
    FirstOfDigits(a, Fill('0', z) + f.body, t);
  }

  /** The case that fails: `%#.0o` of zero prints nothing. */
  lemma AltOctalEmpty()
    ensures
      var sp := Plain.(alt := true, prec := 0);
      FieldText(Convert(sp, 'o', [Num(0)]), sp) == ""
  {
    var sp := Plain.(alt := true, prec := 0);
    ConvertUnsigned(sp, 'o', [Num(0)]);
    var f := NumberField(sp, '\0', 0, Oct, 'o', false);
    LayoutLength(f, false, 0);
  }

  lemma ShortArg(sp: Spec, args: seq<Arg>)
    requires sp.short && !sp.wide
    ensures UnsignedArg(sp, args) == Bits(args) % 0x1_0000 <==> 0 <= IntArg(args) < 0x1_0000
    ensures Bits(args) == 0x1_0000 ==> UnsignedArg(sp, args) == 0x1_0000
  {}

  /**
    `%hu`, `%ho` and `%hx` print the low 16 bits of the argument if and only if the int passed
    lies between 0 and 65535; the C standard converts every argument to a short first.
   */
  lemma ShortUnsigned(sp: Spec, ch: char, args: seq<Arg>)
    requires sp.short && !sp.wide && (ch == 'u' || ch == 'o' || ch == 'x' || ch == 'X')
    ensures Read(FieldText(Convert(sp, ch, args), sp), Radix(UnsignedBase(ch))).0 == Bits(args) % 0x1_0000
       <==> 0 <= IntArg(args) < 0x1_0000
  {
    ShortArg(sp, args);
    UnsignedReadsBack(sp, ch, args);
  }

  /** The case that fails: `%hu` of 65536 prints a number other than 0. */
  lemma ShortPrintsAll()
    ensures
      var sp := Plain.(short := true);
      Read(FieldText(Convert(sp, 'u', [Num(0x1_0000)]), sp), 10).0 == 0x1_0000
  {
    var sp, args := Plain.(short := true), [Num(0x1_0000)];
    assert Bits(args) == 0x1_0000;
    ShortArg(sp, args);
    UnsignedReadsBack(sp, 'u', args);
  }
}
