/**
  The text that a format and its arguments stand for in libbmk_core's `kprintf`, on a platform
  where `long` and `long long` have 64 bits. A missing argument reads as zero.
 */
module Printf {
  import opened Queues
  import opened Numerals
  import opened Strtoul

  /** An argument: a 64-bit pattern, or a string (without its terminator) or NULL. */
  datatype Arg = Num(bits: nat) | Str(text: Option<string>)

  /** Flags, width and precision collected before the conversion character. */
  datatype Spec = Spec(
    alt: bool, ladjust: bool, zeropad: bool,
    wide: bool, short: bool,
    sign: char, width: nat, prec: int)

  const Plain: Spec := Spec(false, false, false, false, false, '\0', 0, -1)

  const TWO31: nat := 0x8000_0000
  const TWO32: nat := 0x1_0000_0000
  const TWO63: nat := 0x8000_0000_0000_0000

  // ----- Arguments

  function Bits(args: seq<Arg>): (n: nat)
    ensures n <= MAX
  {
    if args != [] && args[0].Num? then args[0].bits % TWO64 else 0
  }

  function Rest(args: seq<Arg>): seq<Arg> {
    if args == [] then [] else args[1..]
  }

  /** `va_arg(ap, int)`. */
  function IntArg(args: seq<Arg>): int {
    var n := Bits(args) % TWO32;
    if n < TWO31 then n else n - TWO32
  }

  /** `SARG()`: shorts and ints are sign-extended. */
  function SignedArg(sp: Spec, args: seq<Arg>): int {
    if sp.wide then
      (if Bits(args) < TWO63 then Bits(args) else Bits(args) - TWO64)
    else if sp.short then
      (var n := Bits(args) % 0x1_0000; if n < 0x8000 then n else n - 0x1_0000)
    else IntArg(args)
  }

  /** `UARG()`: with `h` the whole int is sign-extended to an unsigned long. */
  function UnsignedArg(sp: Spec, args: seq<Arg>): (n: nat)
    ensures n <= MAX
  {
    if sp.wide then Bits(args)
    else if sp.short then (if IntArg(args) < 0 then IntArg(args) + TWO64 else IntArg(args))
    else Bits(args) % TWO32
  }

  function Text(args: seq<Arg>): string {
    if args != [] && args[0].Str? && args[0].text.Some? then args[0].text.value else "(null)"
  }

  // ----- Reading a conversion specification

  predicate DecimalDigit(c: char) {
    '0' <= c <= '9'
  }

  /** The decimal number from `i` on, added to the digits `n` read so far, and its end. */
  function Number(fmt: string, i: nat, n: nat): (r: (nat, nat))
    ensures i <= r.1 && (i <= |fmt| ==> r.1 <= |fmt|)
    ensures i < |fmt| && DecimalDigit(fmt[i]) ==> i < r.1
    decreases |fmt| - i
  {
    if i < |fmt| && DecimalDigit(fmt[i]) then Number(fmt, i + 1, 10 * n + fmt[i] as int - '0' as int)
    else (n, i)
  }

  datatype Parsed = Parsed(sp: Spec, ch: char, next: nat, args: seq<Arg>)

  /** One flag, width, precision or length modifier; the state behind it. */
  datatype Modifier = Modifier(sp: Spec, next: nat, args: seq<Arg>) | NoModifier

  function StarWidth(sp: Spec, w: int): Spec {
    if w >= 0 then sp.(width := w) else sp.(width := -w, ladjust := true)
  }

  function ReadModifier(fmt: string, i: nat, sp: Spec, args: seq<Arg>): (r: Modifier)
    ensures r.Modifier? ==> i < r.next <= |fmt|
  {
    var ch := Fetch(fmt, i);
    if ch == ' ' then Modifier(if sp.sign == '\0' then sp.(sign := ' ') else sp, i + 1, args)
    else if ch == '#' then Modifier(sp.(alt := true), i + 1, args)
    else if ch == '*' then Modifier(StarWidth(sp, IntArg(args)), i + 1, Rest(args))
    else if ch == '-' then Modifier(sp.(ladjust := true), i + 1, args)
    else if ch == '+' then Modifier(sp.(sign := '+'), i + 1, args)
    else if ch == '.' then
      if Fetch(fmt, i + 1) == '*' then
        Modifier(sp.(prec := if IntArg(args) < 0 then -1 else IntArg(args)), i + 2, Rest(args))
      else
        var (n, j) := Number(fmt, i + 1, 0);
        Modifier(sp.(prec := n), j, args)
    else if ch == '0' then Modifier(sp.(zeropad := true), i + 1, args)
    else if DecimalDigit(ch) then
      var (n, j) := Number(fmt, i, 0);
      Modifier(sp.(width := n), j, args)
    else if ch == 'h' then Modifier(sp.(short := true), i + 1, args)
    else if ch == 'l' then Modifier(sp.(wide := true), if Fetch(fmt, i + 1) == 'l' then i + 2 else i + 1, args)
    else if ch in "jqtz" then Modifier(sp.(wide := true), i + 1, args)
    else NoModifier
  }

  function ParseSpec(fmt: string, i: nat, sp: Spec, args: seq<Arg>): (r: Parsed)
    ensures r.ch != '\0' ==> i < r.next <= |fmt|
    decreases |fmt| - i
  {
    match ReadModifier(fmt, i, sp, args)
    case Modifier(sp', j, args') => ParseSpec(fmt, j, sp', args')
    case NoModifier => Parsed(sp, Fetch(fmt, i), i + 1, args)
  }

  // ----- Converting an argument

  /** A field before padding: sign or prefix, least number of digits, and the text proper. */
  datatype Field = Field(sign: char, hexPrefix: char, dprec: int, body: string, zeropad: bool)

  /** The digits of a number, none for a zero of precision zero. */
  function NumberText(n: nat, base: Base, alt: bool, upper: bool, prec: int): string {
    if n == 0 && prec == 0 then ""
    else
      var d := Digits(n, base, upper);
      if base == Oct && alt && d[0] != '0' then ['0'] + d else d
  }

  function NumberField(sp: Spec, sign: char, n: nat, base: Base, ch: char, prefix: bool): Field {
    Field(sign, if prefix then ch else '\0', sp.prec,
          NumberText(n, base, sp.alt, ch == 'X', sp.prec), sp.zeropad && sp.prec < 0)
  }

  function Magnitude(n: int): nat {
    if n < 0 then -n else n
  }

  /** The part of a string that `%s` prints. */
  function Clip(s: string, prec: int): string {
    if 0 <= prec < |s| then s[..prec] else s
  }

  function LowByte(n: nat): char {
    (n % 256) as char
  }

  /** The field of conversion `ch`; `%n` has none. */
  function Convert(sp: Spec, ch: char, args: seq<Arg>): Option<Field> {
    var wide := sp.(wide := true);
    if ch == 'c' then Some(Field('\0', '\0', 0, [LowByte(Bits(args))], sp.zeropad))
    else if ch in "Ddi" then
      var n := SignedArg(if ch == 'D' then wide else sp, args);
      Some(NumberField(sp, if n < 0 then '-' else sp.sign, Magnitude(n), Dec, ch, false))
    else if ch == 'n' then None
    else if ch in "Oo" then
      Some(NumberField(sp, '\0', UnsignedArg(if ch == 'O' then wide else sp, args), Oct, ch, false))
    else if ch == 'p' then Some(NumberField(sp, '\0', Bits(args), Hex, 'x', true))
    else if ch == 's' then Some(Field('\0', '\0', 0, Clip(Text(args), sp.prec), sp.zeropad))
    else if ch in "Uu" then
      Some(NumberField(sp, '\0', UnsignedArg(if ch == 'U' then wide else sp, args), Dec, ch, false))
    else if ch in "Xx" then
      var n := UnsignedArg(sp, args);
      Some(NumberField(sp, '\0', n, Hex, ch, sp.alt && n != 0))
    else Some(Field('\0', '\0', 0, [ch], sp.zeropad))
  }

  /** Conversions that take an argument. */
  predicate TakesArg(ch: char) {
    ch in "cDdinOopsUuXx"
  }

  // ----- Laying out a field

  function Fill(c: char, n: int): (s: string)
    ensures |s| == if n > 0 then n else 0
    ensures forall i :: 0 <= i < |s| ==> s[i] == c
  {
    if n > 0 then Fill(c, n - 1) + [c] else []
  }

  function Lead(f: Field): string {
    if f.sign != '\0' then [f.sign] else if f.hexPrefix != '\0' then ['0', f.hexPrefix] else []
  }

  /** `realsz`: the width of the field before padding to the width asked. */
  function RealSize(f: Field): nat {
    |Lead(f)| + (if f.dprec > |f.body| then f.dprec else |f.body|)
  }

  /** Blanks, prefix, zeros. */
  function Left(f: Field, ladjust: bool, pad: int): string {
    (if ladjust || f.zeropad then [] else Fill(' ', pad))
    + Lead(f)
    + (if !ladjust && f.zeropad then Fill('0', pad) else [])
  }

  /** Zeros up to the precision, the text proper, blanks. */
  function Right(f: Field, ladjust: bool, pad: int): string {
    Fill('0', f.dprec - |f.body|) + f.body + (if ladjust then Fill(' ', pad) else [])
  }

  function Layout(f: Field, ladjust: bool, width: nat): string {
    var pad := width - RealSize(f);
    Left(f, ladjust, pad) + Right(f, ladjust, pad)
  }

  /** The stages together fill exactly the larger of the width and the size proper. */
  lemma LayoutLength(f: Field, ladjust: bool, width: nat)
    ensures |Layout(f, ladjust, width)| == if width > RealSize(f) then width else RealSize(f)
  {}

  /** What one character or conversion of the format prints, and what follows it. */
  datatype Piece = Piece(text: string, next: nat, args: seq<Arg>) | End

  function FieldText(f: Option<Field>, sp: Spec): string {
    match f
    case None => []
    case Some(f) => Layout(f, sp.ladjust, sp.width)
  }

  function PieceAt(fmt: string, i: nat, args: seq<Arg>): (p: Piece)
    ensures p.Piece? ==> i < p.next <= |fmt|
  {
    if Fetch(fmt, i) == '\0' then End
    else if fmt[i] != '%' then Piece([fmt[i]], i + 1, args)
    else
      var p := ParseSpec(fmt, i + 1, Plain, args);
      if p.ch == '\0' then End
      else
        Piece(FieldText(Convert(p.sp, p.ch, p.args), p.sp), p.next,
              if TakesArg(p.ch) then Rest(p.args) else p.args)
  }

  /** The untruncated text of the format from `i` on. */
  function Render(fmt: string, i: nat, args: seq<Arg>): string
    decreases |fmt| - i
  {
    match PieceAt(fmt, i, args)
    case End => []
    case Piece(text, next, rest) => text + Render(fmt, next, rest)
  }
}
