/** `kprintf` printing into a caller's buffer, stage by stage, and `bmk_vsnprintf`. */
module PrintfCode {
  import opened Queues
  import opened Numerals
  import opened Strtoul
  import opened Printf

  /** `KPRINTF_BUFSIZE`: sizeof(long long) * 8 / 3 + 2. */
  const BUFSIZE: nat := 8 * 8 / 3 + 2

  // ----- The digit buffer

  /** The text from `cp` to the end of the buffer. */
  ghost function Tail(bf: array<char>, cp: nat): string
    reads bf
    requires cp <= bf.Length
  {
    bf[cp..]
  }

  /** One digit in front of the text written so far. */
  method Push(bf: array<char>, cp: nat, c: char) returns (r: nat)
    requires 0 < cp <= bf.Length
    modifies bf
    ensures r == cp - 1 && Tail(bf, r) == [c] + old(Tail(bf, cp))
  {
    r := cp - 1;
    bf[r] := c;
  }

  /**
    The digit loops: the number, lowest digit first, written backwards from the end of the
    buffer, which it never leaves.
   */
  method WriteDigits(bf: array<char>, n: nat, base: Base, upper: bool) returns (cp: nat)
    requires bf.Length == BUFSIZE && n <= MAX
    modifies bf
    ensures 0 < cp < bf.Length && Tail(bf, cp) == Digits(n, base, upper)
  {
    DigitsFit(n, upper);
    var u: nat := n;
    cp := bf.Length;
    while u >= Radix(base)
      invariant 0 < cp <= bf.Length && Digits(n, base, upper) == Digits(u, base, upper) + Tail(bf, cp)
      invariant |Digits(u, base, upper)| + bf.Length - cp == |Digits(n, base, upper)|
      decreases u
    {
      ghost var t := Tail(bf, cp);
      cp := Push(bf, cp, DigitChar(Remainder(u, base), upper));
      DigitsStep(u, base, upper, t);
      u := Quotient(u, base);
    }
    DigitsLast(u, base, upper);
    cp := Push(bf, cp, DigitChar(Remainder(u, base), upper));
  }

  lemma DigitsStep(u: nat, base: Base, upper: bool, t: string)
    requires u >= Radix(base)
    ensures Digits(u, base, upper) + t
         == Digits(Quotient(u, base), base, upper) + ([DigitChar(Remainder(u, base), upper)] + t)
    ensures |Digits(u, base, upper)| == |Digits(Quotient(u, base), base, upper)| + 1
  {}

  lemma DigitsLast(u: nat, base: Base, upper: bool)
    requires u < Radix(base)
    ensures Digits(u, base, upper) == [DigitChar(Remainder(u, base), upper)]
  {}

  /** The label `number`: the digits of a number, and where they start. */
  method WriteNumber(bf: array<char>, n: nat, base: Base, alt: bool, upper: bool, prec: int) returns (cp: nat)
    requires bf.Length == BUFSIZE && n <= MAX
    modifies bf
    ensures cp <= bf.Length && Tail(bf, cp) == NumberText(n, base, alt, upper, prec)
  {
    cp := bf.Length;
    if n != 0 || prec != 0 {
      cp := WriteDigits(bf, n, base, upper);
      if base == Oct && alt && bf[cp] != '0' {
        cp := Push(bf, cp, '0');
      }
    }
  }

  /** `realsz`. */
  method FieldSize(f: Field) returns (realsz: nat)
    ensures realsz == RealSize(f)
  {
    var size := |f.body|;
    realsz := if f.dprec > size then f.dprec else size;
    if f.sign != '\0' {
      realsz := realsz + 1;
    } else if f.hexPrefix != '\0' {
      realsz := realsz + 2;
    }
  }

  /** The output side of `kprintf`: a buffer of `size` characters, or none. */
  class Printer {
    const buf: array?<char>
    const size: nat
    var sbuf: nat
    /** Everything printed, whether it still fitted or not. */
    ghost var out: string

    ghost predicate Valid()
      reads this, buf
    {
      && (buf != null ==> size <= buf.Length)
      && (if buf == null then sbuf == 0 else sbuf == Min(|out|, size) && buf[..sbuf] == out[..sbuf])
    }

    constructor (b: array?<char>, n: nat)
      requires b != null ==> n <= b.Length
      ensures Valid() && buf == b && size == n && out == []
    {
      buf, size, sbuf, out := b, n, 0, [];
    }

    /** What lies behind the `size` characters is the caller's. */
    twostate predicate Keeps()
      reads this, buf
    {
      buf != null && size <= buf.Length ==> buf[size..] == old(buf[size..])
    }

    /** `KPRINTF_PUTCHAR` with a tail pointer. */
    method Put(c: char)
      requires Valid()
      modifies this, buf
      ensures Valid() && out == old(out) + [c] && Keeps()
    {
      out := out + [c];
      if buf != null && sbuf < size {
        buf[sbuf] := c;
        sbuf := sbuf + 1;
      }
    }

    /** The padding loops. */
    method Repeat(c: char, n: int)
      requires Valid()
      modifies this, buf
      ensures Valid() && out == old(out) + Fill(c, n) && Keeps()
    {
      var k := 0;
      while k < n
        invariant Valid() && 0 <= k && (k <= n || k == 0) && out == old(out) + Fill(c, k) && Keeps()
        decreases n - k
      {
        Put(c);
        k := k + 1;
      }
    }

    /** The string or number proper. */
    method PutAll(s: string)
      requires Valid()
      modifies this, buf
      ensures Valid() && out == old(out) + s && Keeps()
    {
      var k := 0;
      while k < |s|
        invariant Valid() && k <= |s| && out == old(out) + s[..k] && Keeps()
      {
        Put(s[k]);
        k := k + 1;
      }
      assert s[..|s|] == s;
    }

    /** Sign or hexadecimal prefix. */
    method PutLead(f: Field)
      requires Valid()
      modifies this, buf
      ensures Valid() && out == old(out) + Lead(f) && Keeps()
    {
      if f.sign != '\0' {
        Put(f.sign);
      } else if f.hexPrefix != '\0' {
        Put('0');
        Put(f.hexPrefix);
      }
    }

    /** Left of the number proper: blanks, prefix, zeros. */
    method PutLeft(f: Field, ladjust: bool, pad: int)
      requires Valid()
      modifies this, buf
      ensures Valid() && out == old(out) + Left(f, ladjust, pad) && Keeps()
    {
      if !ladjust && !f.zeropad {
        Repeat(' ', pad);
      }
      PutLead(f);
      if !ladjust && f.zeropad {
        Repeat('0', pad);
      }
    }

    /** The number or string proper, and the blanks to its right. */
    method PutRight(f: Field, ladjust: bool, pad: int)
      requires Valid()
      modifies this, buf
      ensures Valid() && out == old(out) + Right(f, ladjust, pad) && Keeps()
    {
      Repeat('0', f.dprec - |f.body|);
      PutAll(f.body);
      if ladjust {
        Repeat(' ', pad);
      }
    }

    /** The padding and printing stages; the result is what `ret` grows by. */
    method PutField(f: Field, ladjust: bool, width: nat) returns (n: nat)
      requires Valid()
      modifies this, buf
      ensures Valid() && out == old(out) + Layout(f, ladjust, width) && Keeps()
      ensures n == |Layout(f, ladjust, width)|
    {
      var realsz := FieldSize(f);
      LayoutLength(f, ladjust, width);
      n := if width > realsz then width else realsz;
      PutLeft(f, ladjust, width - realsz);
      PutRight(f, ladjust, width - realsz);
      Associate(old(out), Left(f, ladjust, width - realsz), Right(f, ladjust, width - realsz));
    }

    /** One character or conversion of the format; `n` is what `ret` grows by. */
    method PutPiece(fmt: string, i: nat, args: seq<Arg>) returns (more: bool, n: nat, next: nat, rest: seq<Arg>)
      requires Valid()
      modifies this, buf
      ensures Valid() && Keeps()
      ensures
        match PieceAt(fmt, i, args)
        case End => !more && out == old(out)
        case Piece(text, j, a) => more && next == j && rest == a && out == old(out) + text && n == |text|
    {
      more, n, next, rest := true, 1, i + 1, args;
      if Fetch(fmt, i) == '\0' {
        more := false;
      } else if fmt[i] != '%' {
        Put(fmt[i]);
      } else {
        var d := ReadSpec(fmt, i + 1, args);
        if d.ch == '\0' {
          more := false;
        } else {
          n, next, rest := 0, d.next, if TakesArg(d.ch) then Rest(d.args) else d.args;
          var f := ConvertArg(d.sp, d.ch, d.args);
          if f.Some? {
            n := PutField(f.value, d.sp.ladjust, d.sp.width);
          }
        }
      }
    }

    /** `kprintf`: the number of characters printed, whether they fitted or not. */
    method Kprintf(fmt: string, args: seq<Arg>) returns (ret: nat)
      requires Valid() && out == []
      modifies this, buf
      ensures Valid() && out == Render(fmt, 0, args) && ret == |out| && Keeps()
    {
      var i, rest, more := 0, args, true;
      ret := 0;
      while more
        invariant Valid() && ret == |out| && Keeps()
        invariant Render(fmt, 0, args) == out + (if more then Render(fmt, i, rest) else [])
        decreases more, |fmt| - i
      {
        ghost var before, p := out, PieceAt(fmt, i, rest);
        var n;
        more, n, i, rest := PutPiece(fmt, i, rest);
        if more {
          Associate(before, p.text, Render(fmt, i, rest));
          ret := ret + n;
        }
      }
    }
  }

  // ----- Conversion specifications

  method ReadNumber(fmt: string, i: nat) returns (n: nat, j: nat)
    ensures (n, j) == Number(fmt, i, 0)
  {
    n, j := 0, i;
    while DecimalDigit(Fetch(fmt, j))
      invariant Number(fmt, i, 0) == Number(fmt, j, n)
      decreases |fmt| - j
    {
      n := 10 * n + (fmt[j] as int - '0' as int);
      j := j + 1;
    }
  }

  /** One turn of the switch under `rflag` and `reswitch`. */
  method OneModifier(fmt: string, i: nat, sp: Spec, args: seq<Arg>) returns (m: Modifier)
    ensures m == ReadModifier(fmt, i, sp, args)
  {
    var ch := Fetch(fmt, i);
    var sp', next, rest := sp, i + 1, args;
    if ch == ' ' {
      if sp.sign == '\0' {
        sp' := sp.(sign := ' ');
      }
    } else if ch == '#' {
      sp' := sp.(alt := true);
    } else if ch == '*' {
      var w := IntArg(args);
      rest := Rest(args);
      if w >= 0 {
        sp' := sp.(width := w);
      } else {
        sp' := sp.(width := -w, ladjust := true);
      }
    } else if ch == '-' {
      sp' := sp.(ladjust := true);
    } else if ch == '+' {
      sp' := sp.(sign := '+');
    } else if ch == '.' {
      if Fetch(fmt, i + 1) == '*' {
        var n := IntArg(args);
        sp', next, rest := sp.(prec := if n < 0 then -1 else n), i + 2, Rest(args);
      } else {
        var n, j := ReadNumber(fmt, i + 1);
        sp', next := sp.(prec := n), j;
      }
    } else if ch == '0' {
      sp' := sp.(zeropad := true);
    } else if DecimalDigit(ch) {
      var n, j := ReadNumber(fmt, i);
      sp', next := sp.(width := n), j;
    } else if ch == 'h' {
      sp' := sp.(short := true);
    } else if ch == 'l' {
      sp' := sp.(wide := true);
      if Fetch(fmt, i + 1) == 'l' {
        next := i + 2;
      }
    } else if ch == 'j' || ch == 'q' || ch == 't' || ch == 'z' {
      sp' := sp.(wide := true);
    } else {
      return NoModifier;
    }
    m := Modifier(sp', next, rest);
  }

  method ReadSpec(fmt: string, i: nat, args: seq<Arg>) returns (p: Parsed)
    ensures p == ParseSpec(fmt, i, Plain, args)
  {
    var j, sp, rest := i, Plain, args;
    while true
      invariant ParseSpec(fmt, i, Plain, args) == ParseSpec(fmt, j, sp, rest)
      decreases |fmt| - j
    {
      var m := OneModifier(fmt, j, sp, rest);
      if m.NoModifier? {
        return Parsed(sp, Fetch(fmt, j), j + 1, rest);
      }
      j, sp, rest := m.next, m.sp, m.args;
    }
  }

  /** The number conversions, through the digit buffer. */
  method ConvertNumber(sp: Spec, sign: char, n: nat, base: Base, ch: char, prefix: bool) returns (f: Field)
    requires n <= MAX
    ensures f == NumberField(sp, sign, n, base, ch, prefix)
  {
    var bf := new char[BUFSIZE];
    var cp := WriteNumber(bf, n, base, sp.alt, ch == 'X', sp.prec);
    f := Field(sign, if prefix then ch else '\0', sp.prec, bf[cp..], sp.zeropad && sp.prec < 0);
  }

  /** The conversion switch for numbers. */
  method ConvertInt(sp: Spec, ch: char, args: seq<Arg>) returns (f: Field)
    requires ch in "DdiOopUuXx"
    ensures Convert(sp, ch, args) == Some(f)
  {
    var wide := sp.(wide := true);
    if ch == 'D' || ch == 'd' || ch == 'i' {
      var n := SignedArg(if ch == 'D' then wide else sp, args);
      f := ConvertNumber(sp, if n < 0 then '-' else sp.sign, Magnitude(n), Dec, ch, false);
    } else if ch == 'O' || ch == 'o' {
      f := ConvertNumber(sp, '\0', UnsignedArg(if ch == 'O' then wide else sp, args), Oct, ch, false);
    } else if ch == 'p' {
      f := ConvertNumber(sp, '\0', Bits(args), Hex, 'x', true);
    } else if ch == 'U' || ch == 'u' {
      f := ConvertNumber(sp, '\0', UnsignedArg(if ch == 'U' then wide else sp, args), Dec, ch, false);
    } else {
      var n := UnsignedArg(sp, args);
      f := ConvertNumber(sp, '\0', n, Hex, ch, sp.alt && n != 0);
    }
  }

  /** `%s`: as much of the string as the precision allows. */
  method ConvertString(sp: Spec, args: seq<Arg>) returns (f: Field)
    ensures Convert(sp, 's', args) == Some(f)
  {
    var s := Text(args);
    var size := |s|;
    if 0 <= sp.prec < size {
      size := sp.prec;
    }
    assert s[..size] == Clip(s, sp.prec);
    f := Field('\0', '\0', 0, s[..size], sp.zeropad);
  }

  /** The conversion switch. */
  method ConvertArg(sp: Spec, ch: char, args: seq<Arg>) returns (r: Option<Field>)
    ensures r == Convert(sp, ch, args)
  {
    var f;
    if ch == 'n' {
      return None;
    } else if ch == 'c' {
      f := Field('\0', '\0', 0, [LowByte(Bits(args))], sp.zeropad);
    } else if ch == 's' {
      f := ConvertString(sp, args);
    } else if ch in "DdiOopUuXx" {
      f := ConvertInt(sp, ch, args);
    } else {
      f := Field('\0', '\0', 0, [ch], sp.zeropad);
    }
    r := Some(f);
  }

  /**
    `bmk_vsnprintf`: the length of the untruncated text; the buffer holds as much of it as fits
    with a terminator, and nothing behind the buffer changes.
   */
  method Vsnprintf(bf: array?<char>, size: nat, fmt: string, args: seq<Arg>) returns (retval: nat)
    requires bf != null ==> size <= bf.Length
    modifies bf
    ensures retval == |Render(fmt, 0, args)|
    ensures bf != null && size > 0 ==>
      var n := Min(retval, size - 1);
      bf[..n] == Render(fmt, 0, args)[..n] && bf[n] == '\0'
    ensures bf != null ==> bf[size..] == old(bf[size..])
  {
    var p := new Printer(bf, size);
    retval := p.Kprintf(fmt, args);
    if bf != null && size > 0 {
      ghost var n := Min(retval, size - 1);
      assert bf[..p.sbuf][..n] == bf[..n] && p.out[..p.sbuf][..n] == p.out[..n];
      if size <= retval {
        bf[size - 1] := '\0';
      } else {
        bf[retval] := '\0';
      }
    }
  }
}
