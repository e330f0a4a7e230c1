/** The tokenizer as it runs: a parser object that fills the caller's token array in place. */
module JsmnCode {
  import opened Queues
  import opened Jsmn

  function PoolOf(tokens: array?<Token>): Pool {
    if tokens == null then DryRun else Tokens(tokens.Length)
  }

  /** `jsmn_parser`. */
  class Parser {
    var pos: nat
    var toknext: nat
    var toksuper: int

    /** The tokens in use fit the array; a dry run starts with none. */
    ghost predicate Fits(tokens: array?<Token>)
      reads this`toknext
    {
      if tokens == null then toknext == 0 else toknext <= tokens.Length
    }

    ghost function View(tokens: array?<Token>, count: nat): State
      reads this, tokens
      requires Fits(tokens)
    {
      State(pos, toksuper, if tokens == null then [] else tokens[..toknext], count)
    }

    /** `jsmn_init`. */
    constructor ()
      ensures Fits(null) && View(null, 0) == Fresh
    {
      pos, toknext, toksuper := 0, 0, -1;
    }

    /** `jsmn_alloc_token`: the index of a token taken from the pool. */
    method AllocToken(tokens: array<Token>) returns (r: Option<nat>)
      requires Fits(tokens)
      modifies this`toknext, tokens
      ensures Fits(tokens)
      ensures old(toknext) >= tokens.Length ==> r.None? && unchanged(this, tokens)
      ensures old(toknext) < tokens.Length ==>
                && r == Some(old(toknext)) && toknext == old(toknext) + 1
                && tokens[..old(toknext)] == old(tokens[..toknext])
                && tokens[old(toknext)].start == -1 && tokens[old(toknext)].end == -1
                && tokens[old(toknext)].size == 0
    {
      if toknext >= tokens.Length {
        return None;
      }
      tokens[toknext] := tokens[toknext].(start := -1, end := -1, size := 0);
      r := Some(toknext);
      toknext := toknext + 1;
    }

    /** Takes a token and fills it: the common end of the two leaf parsers. */
    method AddToken(tokens: array?<Token>, t: Token) returns (ok: bool)
      requires Fits(tokens) && t.size == 0
      modifies this`toknext, tokens
      ensures Fits(tokens)
      ensures ok == (tokens == null || old(toknext) < tokens.Length)
      ensures !ok || tokens == null ==> unchanged(this) && (tokens != null ==> unchanged(tokens))
      ensures ok && tokens != null ==> tokens[..toknext] == old(tokens[..toknext]) + [t]
    {
      if tokens == null {
        return true;
      }
      var i := AllocToken(tokens);
      if i.None? {
        return false;
      }
      tokens[i.value] := t;
      ok := true;
    }

    /** `jsmn_parse_primitive`: leaves the position on the last character. */
    method ParsePrimitive(js: string, tokens: array?<Token>) returns (e: Option<Error>)
      requires Fits(tokens) && !AtEnd(js, pos) && !Delimiter(js[pos])
      modifies this`pos, this`toknext, tokens
      ensures Fits(tokens)
      ensures PrimitiveEnd(js, old(pos)).None? ==> e == Some(Inval)
      ensures
        var q := PrimitiveEnd(js, old(pos));
        q.Some? ==> && (e.None? ==> pos + 1 == q.value) && e in [None, Some(NoMem)]
                    && (e.None? <==> tokens == null || old(toknext) < tokens.Length)
      ensures e.Some? ==> pos == old(pos)
      ensures e.Some? || tokens == null ==>
        toknext == old(toknext) && (tokens != null ==> unchanged(tokens))
      ensures e.None? && tokens != null ==>
        tokens[..toknext] == old(tokens[..toknext]) + [Token(Primitive, old(pos), pos + 1, 0)]
    {
      var start := pos;
      while !AtEnd(js, pos) && !Delimiter(js[pos])
        invariant start <= pos <= |js|
        invariant PrimitiveEnd(js, start) == PrimitiveEnd(js, pos)
        decreases |js| - pos
        modifies this`pos
      {
        if Unprintable(js[pos]) {
          pos := start;
          return Some(Inval);
        }
        pos := pos + 1;
      }
      var ok := AddToken(tokens, Token(Primitive, start, pos, 0));
      if !ok {
        pos := start;
        return Some(NoMem);
      }
      pos := pos - 1;
      e := None;
    }

    /** The `\u` branch of `jsmn_parse_string`: up to four hexadecimal digits. */
    method SkipHex(js: string) returns (ok: bool)
      requires pos <= |js|
      modifies this`pos
      ensures ok == HexRun(js, old(pos), 4).Some?
      ensures ok ==> pos == HexRun(js, old(pos), 4).value
    {
      var start := pos;
      var i := 0;
      while i < 4 && !AtEnd(js, pos)
        invariant 0 <= i <= 4 && start <= pos <= |js|
        invariant HexRun(js, start, 4) == HexRun(js, pos, 4 - i)
      {
        if !Hex(js[pos]) {
          return false;
        }
        pos := pos + 1;
        i := i + 1;
      }
      ok := true;
    }

    /** The scan of `jsmn_parse_string`; on success the position is the closing quote. */
    method ScanString(js: string) returns (r: StringScan)
      requires pos <= |js|
      modifies this`pos
      ensures r == StringEnd(js, old(pos))
      ensures r.Closed? ==> pos == r.at
    {
      var start := pos;
      while !AtEnd(js, pos)
        invariant pos <= |js|
        invariant StringEnd(js, start) == StringEnd(js, pos)
        decreases |js| - pos
      {
        if js[pos] == '"' {
          return Closed(pos);
        }
        if js[pos] == '\\' && pos + 1 < |js| {
          pos := pos + 1;
          if js[pos] == 'u' {
            pos := pos + 1;
            var ok := SkipHex(js);
            if !ok {
              return BadEscape;
            }
            pos := pos - 1;
          } else if !SimpleEscape(js[pos]) {
            return BadEscape;
          }
        }
        pos := pos + 1;
      }
      r := Unclosed;
    }

    /** `jsmn_parse_string`. */
    method ParseString(js: string, tokens: array?<Token>) returns (e: Option<Error>)
      requires Fits(tokens) && pos < |js|
      modifies this`pos, this`toknext, tokens
      ensures Fits(tokens)
      ensures
        match StringEnd(js, old(pos) + 1)
        case BadEscape => e == Some(Inval)
        case Unclosed => e == Some(Partial)
        case Closed(q) => && (e.None? ==> pos == q) && e in [None, Some(NoMem)]
                          && (e.None? <==> tokens == null || old(toknext) < tokens.Length)
      ensures e.Some? ==> pos == old(pos)
      ensures e.Some? || tokens == null ==>
        toknext == old(toknext) && (tokens != null ==> unchanged(tokens))
      ensures e.None? && tokens != null ==>
        tokens[..toknext] == old(tokens[..toknext]) + [Token(String, old(pos) + 1, pos, 0)]
    {
      var start := pos;
      pos := pos + 1;
      var scan := ScanString(js);
      match scan
      case BadEscape =>
        pos := start;
        return Some(Inval);
      case Unclosed =>
        pos := start;
        return Some(Partial);
      case Closed(q) =>
        var ok := AddToken(tokens, Token(String, start + 1, pos, 0));
        if !ok {
          pos := start;
          return Some(NoMem);
        }
        e := None;
    }

    /** `tokens[toksuper].size++`, when there is a parent. */
    method CountChild(tokens: array?<Token>, super: int)
      requires Fits(tokens)
      modifies tokens
      ensures tokens != null ==> tokens[..toknext] == Bump(old(tokens[..toknext]), super)
    {
      if tokens != null && 0 <= super < toknext {
        tokens[super] := tokens[super].(size := tokens[super].size + 1);
      }
    }

    /** An opening bracket. */
    method OpenBracket(tokens: array<Token>, kind: Kind) returns (ok: bool)
      requires Fits(tokens) && -1 <= toksuper < toknext
      modifies this`toknext, this`toksuper, tokens
      ensures Fits(tokens) && ok == (old(toknext) < tokens.Length)
      ensures !ok ==> unchanged(this, tokens)
      ensures ok ==> toksuper == old(toknext) && toknext == old(toknext) + 1
      ensures ok ==> tokens[..toknext]
                     == Bump(old(tokens[..toknext]), old(toksuper)) + [Token(kind, pos, -1, 0)]
    {
      ghost var was := tokens[..toknext];
      var i := AllocToken(tokens);
      if i.None? {
        return false;
      }
      CountChild(tokens, toksuper);
      tokens[i.value] := tokens[i.value].(kind := kind, start := pos);
      assert tokens[..toknext] == Bump(was, toksuper) + [Token(kind, pos, -1, 0)];
      toksuper := toknext - 1;
      ok := true;
    }

    /** The downward scans for an open token below `n`. */
    method FindOpen(tokens: array<Token>, n: nat) returns (i: int)
      requires n <= tokens.Length
      ensures i == LastOpen(tokens[..n])
    {
      i := n - 1;
      while i >= 0 && !IsOpen(tokens[i])
        invariant -1 <= i < n
        invariant LastOpen(tokens[..n]) == LastOpen(tokens[..i + 1])
      {
        assert tokens[..i + 1][..i] == tokens[..i];
        i := i - 1;
      }
    }

    /** A closing bracket. */
    method CloseBracket(tokens: array<Token>, kind: Kind) returns (ok: bool)
      requires Fits(tokens)
      modifies this`toksuper, tokens
      ensures
        var toks, i := old(tokens[..toknext]), LastOpen(old(tokens[..toknext]));
        if i == -1 || toks[i].kind != kind then !ok && unchanged(this, tokens)
        else ok && tokens[..toknext] == toks[i := toks[i].(end := pos + 1)]
                && toksuper == LastOpen(toks[..i])
    {
      ghost var was := tokens[..toknext];
      var i := FindOpen(tokens, toknext);
      if i == -1 || tokens[i].kind != kind {
        return false;
      }
      toksuper := -1;
      tokens[i] := tokens[i].(end := pos + 1);
      var j := FindOpen(tokens, i + 1);
      assert tokens[..i + 1][..i] == was[..i];
      if j >= 0 {
        toksuper := j;
      }
      ok := true;
    }

    /** A comma: back to the innermost open container. */
    method Comma(tokens: array<Token>) returns (ok: bool)
      requires Fits(tokens) && -1 <= toksuper < toknext
      requires forall k :: 0 <= k < toknext && IsOpen(tokens[k]) ==> Container(tokens[k].kind)
      modifies this`toksuper
      ensures ok == (old(toksuper) != -1)
      ensures
        var toks := tokens[..toknext];
        toksuper == if ok && !Container(toks[old(toksuper)].kind) && LastOpen(toks) != -1
                    then LastOpen(toks) else old(toksuper)
    {
      if toksuper == -1 {
        return false;
      }
      ok := true;
      if !Container(tokens[toksuper].kind) {
        var i: int := toknext - 1;
        while i >= 0 && !(Container(tokens[i].kind) && IsOpen(tokens[i]))
          invariant -1 <= i < toknext
          invariant LastOpen(tokens[..toknext]) == LastOpen(tokens[..i + 1])
        {
          assert tokens[..i + 1][..i] == tokens[..i];
          i := i - 1;
        }
        if i >= 0 {
          toksuper := i;
        }
      }
    }

    /** What a character did: the next state but for the position, or the error of the step. */
    ghost predicate Did(js: string, tokens: array?<Token>, s: State, e: Option<Error>, count: nat)
      reads this, tokens
    {
      && Fits(tokens) && !AtEnd(js, s.pos)
      && match Step(js, s, PoolOf(tokens))
         case Stop(x) => e == Some(x) && View(tokens, s.count) == s
         case Go(s') => e.None? && View(tokens, count).(pos := pos + 1) == s'
    }

    /** The two bracket cases of the main loop. */
    method Bracket(js: string, tokens: array?<Token>, count: nat) returns (e: Option<Error>, n: nat)
      requires Fits(tokens) && !AtEnd(js, pos) && js[pos] in "{[}]"
      requires Valid(js, View(tokens, count), PoolOf(tokens))
      modifies this, tokens
      ensures Did(js, tokens, old(View(tokens, count)), e, n)
    {
      var c := js[pos];
      e, n := None, count;
      if c == '{' || c == '[' {
        n := n + 1;
        if tokens != null {
          var ok := OpenBracket(tokens, if c == '{' then Object else Array);
          e := if ok then None else Some(NoMem);
        }
      } else if tokens != null {
        var ok := CloseBracket(tokens, if c == '}' then Object else Array);
        e := if ok then None else Some(Inval);
      }
    }

    /** The string case. */
    method StringLeaf(js: string, tokens: array?<Token>, count: nat) returns (e: Option<Error>, n: nat)
      requires Fits(tokens) && !AtEnd(js, pos) && js[pos] == '"'
      requires Valid(js, View(tokens, count), PoolOf(tokens))
      modifies this, tokens
      ensures Did(js, tokens, old(View(tokens, count)), e, n)
    {
      n := count;
      e := ParseString(js, tokens);
      if e.None? {
        n := n + 1;
        CountChild(tokens, toksuper);
      }
    }

    /** The primitive case. */
    method PrimitiveLeaf(js: string, tokens: array?<Token>, count: nat) returns (e: Option<Error>, n: nat)
      requires Fits(tokens) && !AtEnd(js, pos) && js[pos] !in "{[\"" && !Delimiter(js[pos])
      requires Valid(js, View(tokens, count), PoolOf(tokens))
      modifies this, tokens
      ensures Did(js, tokens, old(View(tokens, count)), e, n)
    {
      n := count;
      e := ParsePrimitive(js, tokens);
      if e.None? {
        n := n + 1;
        CountChild(tokens, toksuper);
      }
    }

    /** White space, a colon or a comma. */
    method Punctuation(js: string, tokens: array?<Token>, count: nat) returns (e: Option<Error>)
      requires Fits(tokens) && !AtEnd(js, pos)
      requires Blank(js[pos]) || js[pos] == ':' || js[pos] == ','
      requires Valid(js, View(tokens, count), PoolOf(tokens))
      modifies this`toksuper
      ensures Did(js, tokens, old(View(tokens, count)), e, count)
    {
      e := None;
      if js[pos] == ':' {
        toksuper := toknext - 1;
      } else if js[pos] == ',' && tokens != null {
        ghost var toks := tokens[..toknext];
        assert forall k :: 0 <= k < toknext ==> tokens[k] == toks[k];
        assert forall k :: 0 <= k < toknext ==> TokenOk(pos, toks[k]);
        var ok := Comma(tokens);
        e := if ok then None else Some(Undefined);
      }
    }

    /** The switch of the main loop. */
    method Character(js: string, tokens: array?<Token>, count: nat) returns (e: Option<Error>, n: nat)
      requires Fits(tokens) && !AtEnd(js, pos)
      requires Valid(js, View(tokens, count), PoolOf(tokens))
      modifies this, tokens
      ensures Did(js, tokens, old(View(tokens, count)), e, n)
    {
      n := count;
      if js[pos] in "{[}]" {
        e, n := Bracket(js, tokens, count);
      } else if Blank(js[pos]) || js[pos] == ':' || js[pos] == ',' {
        e := Punctuation(js, tokens, count);
      } else if js[pos] == '"' {
        e, n := StringLeaf(js, tokens, count);
      } else {
        e, n := PrimitiveLeaf(js, tokens, count);
      }
    }

    /** `jsmn_parse`. */
    method Parse(js: string, tokens: array?<Token>) returns (r: Outcome)
      requires Fits(tokens) && Valid(js, View(tokens, 0), PoolOf(tokens))
      modifies this, tokens
      ensures Fits(tokens)
      ensures
        var (q, s) := Run(js, old(View(tokens, 0)), PoolOf(tokens));
        r == q && View(tokens, s.count) == s && Valid(js, s, PoolOf(tokens))
    {
      var count := 0;
      ghost var s, pool := View(tokens, 0), PoolOf(tokens);
      ghost var end := Run(js, s, pool);
      RunValid(js, s, pool);
      while !AtEnd(js, pos)
        invariant Fits(tokens) && s == View(tokens, count) && Valid(js, s, pool)
        invariant Run(js, s, pool) == end
        decreases |js| - pos
      {
        StepValid(js, s, pool);
        var e;
        e, count := Character(js, tokens, count);
        if e.Some? {
          return Failed(e.value);
        }
        pos := pos + 1;
        s := View(tokens, count);
      }
      if tokens != null {
        var i := FindOpen(tokens, toknext);
        if i >= 0 {
          return Failed(Partial);
        }
      }
      r := Done(count);
    }
  }
}
