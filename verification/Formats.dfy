/**
  What a format means: the conversion specifications of section 7.21.6.1 of ISO C11 as a
  datatype, and the theorem that `kprintf` reads their text as they are meant.
 */
module Formats {
  import opened Queues
  import opened Numerals
  import opened Strtoul
  import opened Printf

  /** A width: none, a decimal number, or an argument. */
  datatype Width = NoWidth | WidthDigits(digits: string) | WidthStar

  datatype Precision = NoPrecision | PrecisionDigits(digits: string) | PrecisionStar

  /** An ordinary character, or a conversion specification. */
  datatype Directive =
    | Literal(c: char)
    | Conversion(flags: string, width: Width, prec: Precision, size: string, ch: char)

  // ----- Text

  function WidthText(w: Width): string {
    match w
    case NoWidth => ""
    case WidthDigits(digits) => digits
    case WidthStar => "*"
  }

  function PrecisionText(p: Precision): string {
    match p
    case NoPrecision => ""
    case PrecisionDigits(digits) => "." + digits
    case PrecisionStar => ".*"
  }

  function DirectiveText(d: Directive): string {
    match d
    case Literal(c) => [c]
    case Conversion(flags, w, p, size, ch) =>
      "%" + (flags + (WidthText(w) + (PrecisionText(p) + (size + [ch]))))
  }

  function FormatText(ds: seq<Directive>): string {
    if ds == [] then "" else DirectiveText(ds[0]) + FormatText(ds[1..])
  }

  predicate Decimals(s: string) {
    forall i :: 0 <= i < |s| ==> DecimalDigit(s[i])
  }

  predicate FlagsOk(flags: string) {
    forall i :: 0 <= i < |flags| ==> flags[i] in " #-+0"
  }

  predicate SizeOk(size: string) {
    size == "" || size == "h" || size == "l" || size == "ll" || size == "j" || size == "q" || size == "t" || size == "z"
  }

  /** A character that ends a specification. */
  predicate Ends(ch: char) {
    ch != '\0' && ch !in " #*-+.hljqtz" && !DecimalDigit(ch)
  }

  predicate DirectiveOk(d: Directive) {
    match d
    case Literal(c) => c != '%' && c != '\0'
    case Conversion(flags, w, p, size, ch) =>
      && FlagsOk(flags) && SizeOk(size) && Ends(ch)
      && (w.WidthDigits? ==> w.digits != "" && Decimals(w.digits) && w.digits[0] != '0')
      && (p.PrecisionDigits? ==> Decimals(p.digits))
  }

  // ----- Meaning

  /** The flags in any order and number; a space counts only without a plus sign. */
  function WithFlags(sp: Spec, flags: string): Spec {
    sp.(alt := sp.alt || '#' in flags, ladjust := sp.ladjust || '-' in flags, zeropad := sp.zeropad || '0' in flags,
        sign := if '+' in flags then '+'
                else if sp.sign != '\0' then sp.sign
                else if ' ' in flags then ' ' else '\0')
  }

  lemma DecimalsAreDigits(s: string)
    requires Decimals(s)
    ensures AllDigits(s, 10)
  {}

  function Decimal(s: string): nat
    requires Decimals(s)
  {
    DecimalsAreDigits(s);
    Value(s, 10)
  }

  /** A negative width from the arguments stands for the flag `-` and a positive one. */
  function WithWidth(sp: Spec, w: Width, args: seq<Arg>): Spec
    requires w.WidthDigits? ==> Decimals(w.digits)
  {
    match w
    case NoWidth => sp
    case WidthDigits(digits) => sp.(width := Decimal(digits))
    case WidthStar =>
      if IntArg(args) < 0 then sp.(width := -IntArg(args), ladjust := true) else sp.(width := IntArg(args))
  }

  function AfterWidth(w: Width, args: seq<Arg>): seq<Arg> {
    if w.WidthStar? then Rest(args) else args
  }

  /** A negative precision from the arguments is none. */
  function WithPrecision(sp: Spec, p: Precision, args: seq<Arg>): Spec
    requires p.PrecisionDigits? ==> Decimals(p.digits)
  {
    match p
    case NoPrecision => sp
    case PrecisionDigits(digits) => sp.(prec := Decimal(digits))
    case PrecisionStar => sp.(prec := if IntArg(args) < 0 then -1 else IntArg(args))
  }

  function AfterPrecision(p: Precision, args: seq<Arg>): seq<Arg> {
    if p.PrecisionStar? then Rest(args) else args
  }

  function WithSize(sp: Spec, size: string): Spec {
    if size == "" then sp else if size == "h" then sp.(short := true) else sp.(wide := true)
  }

  /** The specification meant, and the arguments left for the conversion itself. */
  function Meant(d: Directive, args: seq<Arg>): (Spec, seq<Arg>)
    requires d.Conversion? && DirectiveOk(d)
  {
    var sp1 := WithFlags(Plain, d.flags);
    var sp2, args2 := WithWidth(sp1, d.width, args), AfterWidth(d.width, args);
    var sp3, args3 := WithPrecision(sp2, d.prec, args2), AfterPrecision(d.prec, args2);
    (WithSize(sp3, d.size), args3)
  }

  /** The conversions that take an argument; any other character is printed itself. */
  predicate Converts(ch: char) {
    || ch == 'c' || ch == 's' || ch == 'n' || ch == 'p' || ch == 'd' || ch == 'i' || ch == 'D'
    || ch == 'o' || ch == 'O' || ch == 'u' || ch == 'U' || ch == 'x' || ch == 'X'
  }

  /** What a directive prints, and the arguments behind it. */
  function Prints(d: Directive, args: seq<Arg>): (string, seq<Arg>)
    requires DirectiveOk(d)
  {
    match d
    case Literal(c) => ([c], args)
    case Conversion(_, _, _, _, ch) =>
      var (sp, args') := Meant(d, args);
      (FieldText(Convert(sp, ch, args'), sp), if Converts(ch) then Rest(args') else args')
  }

  /** What the directives print, one behind the other. */
  function Printout(ds: seq<Directive>, args: seq<Arg>): string
    requires forall i :: 0 <= i < |ds| ==> DirectiveOk(ds[i])
  {
    if ds == [] then "" else Prints(ds[0], args).0 + Printout(ds[1..], Prints(ds[0], args).1)
  }

  // ----- Reading

  /** The text stands in the format from `i` on. */
  ghost predicate StandsAt(fmt: string, i: nat, text: string) {
    i + |text| <= |fmt| && forall k :: 0 <= k < |text| ==> fmt[i + k] == text[k]
  }

  lemma SplitAt(fmt: string, i: nat, a: string, b: string)
    requires StandsAt(fmt, i, a + b)
    ensures StandsAt(fmt, i, a) && StandsAt(fmt, i + |a|, b)
  {
    var t := a + b;
    forall k | 0 <= k < |a| ensures fmt[i + k] == a[k] {
      assert t[k] == a[k];
    }
    forall k | 0 <= k < |b| ensures fmt[i + |a| + k] == b[k] {
      assert t[|a| + k] == b[k];
    }
  }

  lemma HeadAt(fmt: string, i: nat, text: string)
    requires StandsAt(fmt, i, text) && text != ""
    ensures i < |fmt| && Fetch(fmt, i) == fmt[i] == text[0] && StandsAt(fmt, i + 1, text[1..])
  {
    assert fmt[i + 0] == text[0];
    forall k | 0 <= k < |text| - 1 ensures fmt[i + 1 + k] == text[1..][k] {
      assert fmt[i + (k + 1)] == text[k + 1];
    }
  }

  /** The reading of a specification from a given place on. */
  type Reader = (nat, Spec, seq<Arg>) -> Parsed

  ghost predicate IsReader(go: Reader, fmt: string) {
    forall i: nat, sp: Spec, args: seq<Arg> {:trigger ParseSpec(fmt, i, sp, args)} ::
      go(i, sp, args) == ParseSpec(fmt, i, sp, args)
  }

  /** One modifier. */
  lemma Goes(fmt: string, go: Reader, i: nat, sp: Spec, args: seq<Arg>, m: Modifier)
    requires IsReader(go, fmt) && m.Modifier? && ReadModifier(fmt, i, sp, args) == m
    ensures go(i, sp, args) == go(m.next, m.sp, m.args)
  {
    assert ParseSpec(fmt, i, sp, args) == ParseSpec(fmt, m.next, m.sp, m.args);
  }

  /** One flag. */
  lemma FlagRead(fmt: string, i: nat, f: char, sp: Spec, args: seq<Arg>)
    requires Fetch(fmt, i) == f && f in " #-+0"
    ensures ReadModifier(fmt, i, sp, args) == Modifier(WithFlags(sp, [f]), i + 1, args)
  {}

  lemma FlagsJoin(sp: Spec, f: char, flags: string)
    ensures WithFlags(WithFlags(sp, [f]), flags) == WithFlags(sp, [f] + flags)
  {}

  lemma {:induction false} FlagsRead(fmt: string, go: Reader, i: nat, flags: string, sp: Spec, args: seq<Arg>)
    requires IsReader(go, fmt) && StandsAt(fmt, i, flags) && FlagsOk(flags)
    ensures go(i, sp, args) == go(i + |flags|, WithFlags(sp, flags), args)
    decreases |flags|
  {
    if flags == "" {
      assert WithFlags(sp, flags) == sp;
    } else {
      HeadAt(fmt, i, flags);
      FlagRead(fmt, i, flags[0], sp, args);
      Goes(fmt, go, i, sp, args, Modifier(WithFlags(sp, [flags[0]]), i + 1, args));
      FlagsRead(fmt, go, i + 1, flags[1..], WithFlags(sp, [flags[0]]), args);
      FlagsJoin(sp, flags[0], flags[1..]);
      assert flags == [flags[0]] + flags[1..];
    }
  }

  lemma {:induction false} NumberRead(fmt: string, i: nat, read: string, digits: string)
    requires StandsAt(fmt, i, digits) && Decimals(read) && Decimals(digits) && !DecimalDigit(Fetch(fmt, i + |digits|))
    ensures Decimals(read + digits) && Number(fmt, i, Decimal(read)) == (Decimal(read + digits), i + |digits|)
    decreases |digits|
  {
    if digits == "" {
      assert read + digits == read;
    } else {
      HeadAt(fmt, i, digits);
      DecimalsAreDigits(read);
      ValueAppend(read, digits[0], 10);
      NumberRead(fmt, i + 1, read + [digits[0]], digits[1..]);
      assert read + digits == read + [digits[0]] + digits[1..];
    }
  }

  lemma DigitsRead(fmt: string, i: nat, digits: string)
    requires StandsAt(fmt, i, digits) && Decimals(digits) && !DecimalDigit(Fetch(fmt, i + |digits|))
    ensures Number(fmt, i, 0) == (Decimal(digits), i + |digits|)
  {
    NumberRead(fmt, i, "", digits);
    assert "" + digits == digits;
  }

  lemma WidthRead(fmt: string, go: Reader, i: nat, w: Width, sp: Spec, args: seq<Arg>)
    requires IsReader(go, fmt) && StandsAt(fmt, i, WidthText(w)) && !DecimalDigit(Fetch(fmt, i + |WidthText(w)|))
    requires w.WidthDigits? ==> w.digits != "" && Decimals(w.digits) && w.digits[0] != '0'
    ensures go(i, sp, args) == go(i + |WidthText(w)|, WithWidth(sp, w, args), AfterWidth(w, args))
  {
    match w
    case NoWidth =>
    case WidthDigits(digits) =>
      HeadAt(fmt, i, digits);
      DigitsRead(fmt, i, digits);
      Goes(fmt, go, i, sp, args, Modifier(sp.(width := Decimal(digits)), i + |digits|, args));
    case WidthStar =>
      HeadAt(fmt, i, "*");
      Goes(fmt, go, i, sp, args, Modifier(WithWidth(sp, w, args), i + 1, Rest(args)));
  }

  lemma PrecisionRead(fmt: string, go: Reader, i: nat, p: Precision, sp: Spec, args: seq<Arg>)
    requires IsReader(go, fmt)
    requires StandsAt(fmt, i, PrecisionText(p)) && !DecimalDigit(Fetch(fmt, i + |PrecisionText(p)|))
    requires p == PrecisionDigits("") ==> Fetch(fmt, i + 1) != '*'
    requires p.PrecisionDigits? ==> Decimals(p.digits)
    ensures go(i, sp, args) == go(i + |PrecisionText(p)|, WithPrecision(sp, p, args), AfterPrecision(p, args))
  {
    match p
    case NoPrecision =>
    case PrecisionDigits(digits) =>
      HeadAt(fmt, i, "." + digits);
      assert ("." + digits)[1..] == digits;
      if digits != "" {
        HeadAt(fmt, i + 1, digits);
      }
      DigitsRead(fmt, i + 1, digits);
      Goes(fmt, go, i, sp, args, Modifier(sp.(prec := Decimal(digits)), i + 1 + |digits|, args));
    case PrecisionStar =>
      HeadAt(fmt, i, ".*");
      HeadAt(fmt, i + 1, "*");
      Goes(fmt, go, i, sp, args, Modifier(WithPrecision(sp, p, args), i + 2, Rest(args)));
  }

  lemma SizeRead(fmt: string, go: Reader, i: nat, size: string, sp: Spec, args: seq<Arg>)
    requires IsReader(go, fmt) && StandsAt(fmt, i, size) && SizeOk(size) && Ends(Fetch(fmt, i + |size|))
    ensures go(i, sp, args) == go(i + |size|, WithSize(sp, size), args)
  {
    if size != "" {
      HeadAt(fmt, i, size);
      if size == "ll" {
        HeadAt(fmt, i + 1, size[1..]);
      }
      Goes(fmt, go, i, sp, args, Modifier(WithSize(sp, size), i + |size|, args));
    }
  }

  /** What follows a part of a specification. */
  lemma NextPart(fmt: string, i: nat, part: string, ch: char)
    requires StandsAt(fmt, i, part + [ch])
    ensures Fetch(fmt, i) == if part == "" then ch else part[0]
  {
    HeadAt(fmt, i, part + [ch]);
  }

  lemma SizeStart(fmt: string, i: nat, size: string, ch: char)
    requires StandsAt(fmt, i, size + [ch]) && SizeOk(size) && Ends(ch)
    ensures !DecimalDigit(Fetch(fmt, i)) && Fetch(fmt, i) != '*' && Ends(Fetch(fmt, i + |size|))
  {
    NextPart(fmt, i, size, ch);
    SplitAt(fmt, i, size, [ch]);
    HeadAt(fmt, i + |size|, [ch]);
  }

  lemma PrecisionStart(fmt: string, i: nat, p: Precision, size: string, ch: char)
    requires StandsAt(fmt, i, PrecisionText(p) + (size + [ch])) && SizeOk(size) && Ends(ch)
    ensures !DecimalDigit(Fetch(fmt, i))
    ensures StandsAt(fmt, i, PrecisionText(p)) && StandsAt(fmt, i + |PrecisionText(p)|, size + [ch])
  {
    SplitAt(fmt, i, PrecisionText(p), size + [ch]);
    if p.NoPrecision? {
      SizeStart(fmt, i, size, ch);
    } else {
      HeadAt(fmt, i, PrecisionText(p));
    }
  }

  lemma ConversionEnds(fmt: string, go: Reader, i: nat, size: string, ch: char, sp: Spec, args: seq<Arg>)
    requires IsReader(go, fmt) && StandsAt(fmt, i, size + [ch]) && SizeOk(size) && Ends(ch)
    ensures go(i, sp, args) == Parsed(WithSize(sp, size), ch, i + |size| + 1, args)
  {
    SizeStart(fmt, i, size, ch);
    SplitAt(fmt, i, size, [ch]);
    HeadAt(fmt, i + |size|, [ch]);
    SizeRead(fmt, go, i, size, sp, args);
    EndRead(fmt, go, i + |size|, ch, WithSize(sp, size), args);
  }

  lemma EndRead(fmt: string, go: Reader, i: nat, ch: char, sp: Spec, args: seq<Arg>)
    requires IsReader(go, fmt) && Fetch(fmt, i) == ch && Ends(ch)
    ensures go(i, sp, args) == Parsed(sp, ch, i + 1, args)
  {
    assert ReadModifier(fmt, i, sp, args) == NoModifier;
    assert ParseSpec(fmt, i, sp, args) == Parsed(sp, ch, i + 1, args);
  }

  /** The text of a conversion specification is read as what it means. */
  lemma ReadsAsMeant(fmt: string, i: nat, d: Directive, args: seq<Arg>)
    requires d.Conversion? && DirectiveOk(d) && StandsAt(fmt, i, DirectiveText(d))
    ensures
      var (sp, args') := Meant(d, args);
      fmt[i] == '%' && ParseSpec(fmt, i + 1, Plain, args) == Parsed(sp, d.ch, i + |DirectiveText(d)|, args')
  {
    var t3 := d.size + [d.ch];
    var t2 := PrecisionText(d.prec) + t3;
    var t1 := WidthText(d.width) + t2;
    SplitAt(fmt, i, "%", d.flags + t1);
    HeadAt(fmt, i, "%");
    SplitAt(fmt, i + 1, d.flags, t1);
    SplitAt(fmt, i + 1 + |d.flags|, WidthText(d.width), t2);
    DirectiveSize(d);
    SpecRead(fmt, (k: nat, sp: Spec, rest: seq<Arg>) => ParseSpec(fmt, k, sp, rest), i + 1, d, args);
  }

  lemma DirectiveSize(d: Directive)
    requires d.Conversion?
    ensures |DirectiveText(d)| == 2 + |d.flags| + |WidthText(d.width)| + |PrecisionText(d.prec)| + |d.size|
  {}

  /** The parts after one another, each with what it takes from the arguments. */
  lemma SpecRead(fmt: string, go: Reader, i: nat, d: Directive, args: seq<Arg>)
    requires IsReader(go, fmt) && d.Conversion? && DirectiveOk(d) && StandsAt(fmt, i, d.flags)
    requires StandsAt(fmt, i + |d.flags|, WidthText(d.width))
    requires StandsAt(fmt, i + |d.flags| + |WidthText(d.width)|, PrecisionText(d.prec) + (d.size + [d.ch]))
    ensures
      var (sp, args') := Meant(d, args);
      go(i, Plain, args)
      == Parsed(sp, d.ch, i + |d.flags| + |WidthText(d.width)| + |PrecisionText(d.prec)| + |d.size| + 1, args')
  {
    FlagsRead(fmt, go, i, d.flags, Plain, args);
    BehindFlags(fmt, go, i + |d.flags|, d.width, d.prec, d.size, d.ch, WithFlags(Plain, d.flags), args);
  }

  lemma BehindFlags(fmt: string, go: Reader, i: nat, w: Width, p: Precision, size: string, ch: char, sp: Spec,
                    args: seq<Arg>)
    requires IsReader(go, fmt)
    requires StandsAt(fmt, i, WidthText(w)) && StandsAt(fmt, i + |WidthText(w)|, PrecisionText(p) + (size + [ch]))
    requires SizeOk(size) && Ends(ch) && (p.PrecisionDigits? ==> Decimals(p.digits))
    requires w.WidthDigits? ==> w.digits != "" && Decimals(w.digits) && w.digits[0] != '0'
    ensures
      var sp', args' := WithWidth(sp, w, args), AfterWidth(w, args);
      go(i, sp, args)
      == Parsed(WithSize(WithPrecision(sp', p, args'), size), ch,
                i + |WidthText(w)| + |PrecisionText(p)| + |size| + 1, AfterPrecision(p, args'))
  {
    PrecisionStart(fmt, i + |WidthText(w)|, p, size, ch);
    WidthRead(fmt, go, i, w, sp, args);
    TailRead(fmt, go, i + |WidthText(w)|, p, size, ch, WithWidth(sp, w, args), AfterWidth(w, args));
  }

  lemma TailRead(fmt: string, go: Reader, i: nat, p: Precision, size: string, ch: char, sp: Spec, args: seq<Arg>)
    requires IsReader(go, fmt)
    requires StandsAt(fmt, i, PrecisionText(p) + (size + [ch])) && SizeOk(size) && Ends(ch)
    requires p.PrecisionDigits? ==> Decimals(p.digits)
    ensures go(i, sp, args)
         == Parsed(WithSize(WithPrecision(sp, p, args), size), ch, i + |PrecisionText(p)| + |size| + 1,
                   AfterPrecision(p, args))
  {
    PrecisionStart(fmt, i, p, size, ch);
    SizeStart(fmt, i + |PrecisionText(p)|, size, ch);
    PrecisionRead(fmt, go, i, p, sp, args);
    ConversionEnds(fmt, go, i + |PrecisionText(p)|, size, ch, WithPrecision(sp, p, args), AfterPrecision(p, args));
  }

  // ----- Printing

  lemma PieceMeant(fmt: string, i: nat, d: Directive, args: seq<Arg>) returns (p: Piece)
    requires DirectiveOk(d) && StandsAt(fmt, i, DirectiveText(d))
    ensures PieceAt(fmt, i, args) == p && p.Piece? && p.next == i + |DirectiveText(d)|
    ensures (p.text, p.args) == Prints(d, args)
  {
    HeadAt(fmt, i, DirectiveText(d));
    if d.Conversion? {
      ReadsAsMeant(fmt, i, d, args);
    }
    p := PieceAt(fmt, i, args);
  }

  /** The printing of the format from a given place on. */
  type Writer = (nat, seq<Arg>) -> string

  ghost predicate IsWriter(go: Writer, fmt: string) {
    forall i: nat, args: seq<Arg> {:trigger Render(fmt, i, args)} :: go(i, args) == Render(fmt, i, args)
  }

  lemma WriterGoes(fmt: string, go: Writer, i: nat, args: seq<Arg>, text: string, next: nat, rest: seq<Arg>)
    requires IsWriter(go, fmt) && PieceAt(fmt, i, args) == Piece(text, next, rest)
    ensures go(i, args) == text + go(next, rest)
  {
    assert Render(fmt, i, args) == text + Render(fmt, next, rest);
  }

  lemma FirstPart(fmt: string, i: nat, a: string, b: string)
    requires i <= |fmt| && fmt[i..] == a + b
    ensures StandsAt(fmt, i, a) && fmt[i + |a|..] == b
  {
    forall k | 0 <= k < |a| ensures fmt[i + k] == a[k] {
      assert fmt[i..][k] == (a + b)[k];
    }
    assert fmt[i..][|a|..] == b && fmt[i..][|a|..] == fmt[i + |a|..];
  }

  lemma FirstPrinted(fmt: string, go: Writer, i: nat, d: Directive, rest: string, args: seq<Arg>) returns (p: Piece)
    requires IsWriter(go, fmt) && DirectiveOk(d) && i <= |fmt| && fmt[i..] == DirectiveText(d) + rest
    ensures p.Piece? && go(i, args) == p.text + go(p.next, p.args) && (p.text, p.args) == Prints(d, args)
    ensures p.next <= |fmt| && fmt[p.next..] == rest
  {
    FirstPart(fmt, i, DirectiveText(d), rest);
    p := PieceMeant(fmt, i, d, args);
    WriterGoes(fmt, go, i, args, p.text, p.next, p.args);
  }

  lemma {:induction false} PrintsFrom(fmt: string, go: Writer, i: nat, ds: seq<Directive>, args: seq<Arg>)
    requires IsWriter(go, fmt) && i <= |fmt| && fmt[i..] == FormatText(ds)
    requires forall k :: 0 <= k < |ds| ==> DirectiveOk(ds[k])
    ensures go(i, args) == Printout(ds, args)
    decreases |ds|
  {
    if ds == [] {
      assert Render(fmt, i, args) == "";
    } else {
      var p := FirstPrinted(fmt, go, i, ds[0], FormatText(ds[1..]), args);
      PrintsFrom(fmt, go, p.next, ds[1..], p.args);
    }
  }

  /**
    Whatever ordinary characters and conversion specifications a format is made of, `kprintf`
    prints the characters and the conversions of the arguments, in order.
   */
  lemma PrintsAsMeant(ds: seq<Directive>, args: seq<Arg>)
    requires forall k :: 0 <= k < |ds| ==> DirectiveOk(ds[k])
    ensures Render(FormatText(ds), 0, args) == Printout(ds, args)
  {
    var fmt := FormatText(ds);
    assert fmt[0..] == fmt;
    PrintsFrom(fmt, (i: nat, rest: seq<Arg>) => Render(fmt, i, rest), 0, ds, args);
  }
}
