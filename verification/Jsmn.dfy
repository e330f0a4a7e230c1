/**
  The JSON tokenizer of libbmk_core in its non-strict build without parent links: the
  specification of a run as a function of the text, and the parser that fills the token
  array in place. A null token array is the dry run, which only counts.
 */
module Jsmn {
  import opened Queues

  datatype Kind = Primitive | Object | Array | String

  /** `jsmntok_t`: a token is open while its end is not known. */
  datatype Token = Token(kind: Kind, start: int, end: int, size: nat)

  /** `Undefined` is the read of `tokens[-1]` at a comma outside every container. */
  datatype Error = NoMem | Inval | Partial | Undefined

  datatype Outcome = Done(count: nat) | Failed(error: Error)

  /** The tokens the caller supplies: none for a dry run. */
  datatype Pool = DryRun | Tokens(n: nat)

  /** The parser together with the tokens allocated so far and the count of this call. */
  datatype State = State(pos: nat, super: int, toks: seq<Token>, count: nat)

  // ----- Scanning

  predicate AtEnd(js: string, pos: nat) {
    pos >= |js| || js[pos] == '\0'
  }

  predicate Blank(c: char) {
    c == '\t' || c == '\r' || c == '\n' || c == ' '
  }

  predicate Delimiter(c: char) {
    Blank(c) || c == ':' || c == ',' || c == ']' || c == '}'
  }

  predicate Unprintable(c: char) {
    c as int < 32 || c as int >= 127
  }

  predicate SimpleEscape(c: char) {
    c == '"' || c == '/' || c == '\\' || c == 'b' || c == 'f' || c == 'r' || c == 'n' || c == 't'
  }

  predicate Hex(c: char) {
    '0' <= c <= '9' || 'A' <= c <= 'F' || 'a' <= c <= 'f'
  }

  /** Where an unquoted value starting at or before `i` ends. */
  function PrimitiveEnd(js: string, i: nat): (r: Option<nat>)
    ensures r.Some? && i <= |js| ==> i <= r.value <= |js|
    ensures r.Some? && !AtEnd(js, i) && !Delimiter(js[i]) ==> i < r.value
    decreases |js| - i
  {
    if AtEnd(js, i) || Delimiter(js[i]) then Some(i)
    else if Unprintable(js[i]) then None
    else PrimitiveEnd(js, i + 1)
  }

  /** Reads up to `k` hexadecimal digits. */
  function HexRun(js: string, i: nat, k: nat): (r: Option<nat>)
    ensures r.Some? && i <= |js| ==> i <= r.value <= |js|
    decreases k
  {
    if k == 0 || AtEnd(js, i) then Some(i)
    else if !Hex(js[i]) then None
    else HexRun(js, i + 1, k - 1)
  }

  datatype StringScan = Closed(at: nat) | BadEscape | Unclosed

  /** Where a string whose contents from `i` on are still to be read has its closing quote. */
  function StringEnd(js: string, i: nat): (r: StringScan)
    requires i <= |js|
    ensures r.Closed? ==> i <= r.at < |js|
    decreases |js| - i
  {
    if AtEnd(js, i) then Unclosed
    else if js[i] == '"' then Closed(i)
    else if js[i] == '\\' && i + 1 < |js| then
      if SimpleEscape(js[i + 1]) then StringEnd(js, i + 2)
      else if js[i + 1] != 'u' then BadEscape
      else
        match HexRun(js, i + 2, 4)
        case None => BadEscape
        case Some(j) => StringEnd(js, j)
    else StringEnd(js, i + 1)
  }

  // ----- Tokens

  predicate Container(k: Kind) {
    k == Object || k == Array
  }

  predicate IsOpen(t: Token) {
    t.start != -1 && t.end == -1
  }

  /** The innermost container still open, or -1. */
  function LastOpen(toks: seq<Token>): (i: int)
    ensures -1 <= i < |toks|
  {
    if toks == [] then -1
    else if IsOpen(toks[|toks| - 1]) then |toks| - 1
    else LastOpen(toks[..|toks| - 1])
  }

  /** Counts one more child of token `i`. */
  function Bump(toks: seq<Token>, i: int): (r: seq<Token>)
    ensures |r| == |toks|
  {
    if 0 <= i < |toks| then toks[i := toks[i].(size := toks[i].size + 1)] else toks
  }

  // ----- One character of the main loop

  datatype Next = Go(s: State) | Stop(error: Error)

  function AddLeaf(s: State, pool: Pool, tok: Token, next: nat): Next {
    var s' := s.(pos := next, count := s.count + 1);
    if pool.DryRun? then Go(s')
    else if |s.toks| >= pool.n then Stop(NoMem)
    else Go(s'.(toks := Bump(s.toks, s.super) + [tok]))
  }

  function OpenContainer(s: State, pool: Pool, kind: Kind): Next {
    var s' := s.(pos := s.pos + 1, count := s.count + 1);
    if pool.DryRun? then Go(s')
    else if |s.toks| >= pool.n then Stop(NoMem)
    else Go(s'.(toks := Bump(s.toks, s.super) + [Token(kind, s.pos, -1, 0)], super := |s.toks|))
  }

  function CloseContainer(s: State, pool: Pool, kind: Kind): Next {
    var s' := s.(pos := s.pos + 1);
    if pool.DryRun? then Go(s')
    else
      var i := LastOpen(s.toks);
      if i == -1 || s.toks[i].kind != kind then Stop(Inval)
      else Go(s'.(toks := s.toks[i := s.toks[i].(end := s.pos + 1)], super := LastOpen(s.toks[..i])))
  }

  function AtComma(s: State, pool: Pool): Next {
    var s' := s.(pos := s.pos + 1);
    if pool.DryRun? then Go(s')
    else if !(0 <= s.super < |s.toks|) then Stop(Undefined)
    else if Container(s.toks[s.super].kind) || LastOpen(s.toks) == -1 then Go(s')
    else Go(s'.(super := LastOpen(s.toks)))
  }

  function Step(js: string, s: State, pool: Pool): (r: Next)
    requires !AtEnd(js, s.pos)
    ensures r.Go? ==> s.pos < r.s.pos <= |js|
  {
    var c := js[s.pos];
    if c == '{' then OpenContainer(s, pool, Object)
    else if c == '[' then OpenContainer(s, pool, Array)
    else if c == '}' then CloseContainer(s, pool, Object)
    else if c == ']' then CloseContainer(s, pool, Array)
    else if c == '"' then
      match StringEnd(js, s.pos + 1)
      case BadEscape => Stop(Inval)
      case Unclosed => Stop(Partial)
      case Closed(q) => AddLeaf(s, pool, Token(String, s.pos + 1, q, 0), q + 1)
    else if Blank(c) then Go(s.(pos := s.pos + 1))
    else if c == ':' then Go(s.(pos := s.pos + 1, super := |s.toks| - 1))
    else if c == ',' then AtComma(s, pool)
    else
      match PrimitiveEnd(js, s.pos)
      case None => Stop(Inval)
      case Some(e) => AddLeaf(s, pool, Token(Primitive, s.pos, e, 0), e)
  }

  /** `jsmn_parse`: the outcome and the state it leaves behind. */
  function Run(js: string, s: State, pool: Pool): (Outcome, State)
    decreases |js| - s.pos
  {
    if AtEnd(js, s.pos) then
      (if LastOpen(s.toks) == -1 then Done(s.count) else Failed(Partial), s)
    else
      match Step(js, s, pool)
      case Stop(e) => (Failed(e), s)
      case Go(s') => Run(js, s', pool)
  }

  /** `jsmn_init`. */
  const Fresh: State := State(0, -1, [], 0)

  // ----- What every step keeps

  /** A span of text already read; only containers are open. */
  ghost predicate TokenOk(pos: nat, t: Token) {
    && 0 <= t.start < pos
    && if t.end == -1 then Container(t.kind) else t.start <= t.end <= pos
  }

  /** A later token starts later, and lies inside an earlier one or after it. */
  ghost predicate NestedPair(a: Token, b: Token) {
    && a.start < b.start
    && (a.end == -1 || a.end <= b.start || b.start <= b.end <= a.end)
  }

  ghost predicate Nested(toks: seq<Token>) {
    forall i, j :: 0 <= i < j < |toks| ==> NestedPair(toks[i], toks[j])
  }

  ghost predicate TokensOk(pos: nat, toks: seq<Token>) {
    (forall i :: 0 <= i < |toks| ==> TokenOk(pos, toks[i])) && Nested(toks)
  }

  /** The tokens are in order, and some token is the parent while a container is open. */
  ghost predicate Valid(js: string, s: State, pool: Pool) {
    && s.pos <= |js|
    && TokensOk(s.pos, s.toks)
    && -1 <= s.super < |s.toks|
    && (LastOpen(s.toks) != -1 ==> s.super != -1)
    && (if pool.DryRun? then s.toks == [] else |s.toks| <= pool.n)
  }

  lemma {:induction false} LastOpenMax(toks: seq<Token>)
    ensures LastOpen(toks) != -1 ==> IsOpen(toks[LastOpen(toks)])
    ensures forall k :: LastOpen(toks) < k < |toks| ==> !IsOpen(toks[k])
  {
    if toks != [] && !IsOpen(toks[|toks| - 1]) {
      LastOpenMax(toks[..|toks| - 1]);
    }
  }

  lemma LastOpenIs(toks: seq<Token>, i: int)
    requires -1 <= i < |toks|
    requires 0 <= i ==> IsOpen(toks[i])
    requires forall k :: i < k < |toks| ==> !IsOpen(toks[k])
    ensures LastOpen(toks) == i
  {
    LastOpenMax(toks);
  }

  lemma BumpLastOpen(toks: seq<Token>, s: int)
    ensures LastOpen(Bump(toks, s)) == LastOpen(toks)
  {
    LastOpenMax(toks);
    LastOpenIs(Bump(toks, s), LastOpen(toks));
  }

  /** Appending a token keeps the order. */
  lemma GrowOk(pos: nat, pos': nat, toks: seq<Token>, s: int, t: Token)
    requires TokensOk(pos, toks) && pos <= t.start && TokenOk(pos', t)
    ensures TokensOk(pos', Bump(toks, s) + [t])
  {
    var toks' := Bump(toks, s) + [t];
    forall i | 0 <= i < |toks'| ensures TokenOk(pos', toks'[i]) {
      assert i < |toks| ==> TokenOk(pos, toks[i]);
    }
    forall i, j | 0 <= i < j < |toks'| ensures NestedPair(toks'[i], toks'[j]) {
      assert TokenOk(pos, toks[i]);
      assert j < |toks| ==> NestedPair(toks[i], toks[j]);
    }
  }

  lemma AddLeafValid(js: string, s: State, pool: Pool, t: Token, next: nat)
    requires Valid(js, s, pool) && s.pos <= t.start && TokenOk(next, t) && next <= |js|
    requires !IsOpen(t)
    ensures AddLeaf(s, pool, t, next).Go? ==> Valid(js, AddLeaf(s, pool, t, next).s, pool)
  {
    if pool.Tokens? {
      var toks' := Bump(s.toks, s.super) + [t];
      GrowOk(s.pos, next, s.toks, s.super, t);
      BumpLastOpen(s.toks, s.super);
      assert toks'[..|s.toks|] == Bump(s.toks, s.super);
    }
  }

  lemma OpenValid(js: string, s: State, pool: Pool, kind: Kind)
    requires Valid(js, s, pool) && s.pos < |js| && Container(kind)
    ensures OpenContainer(s, pool, kind).Go? ==> Valid(js, OpenContainer(s, pool, kind).s, pool)
  {
    GrowOk(s.pos, s.pos + 1, s.toks, s.super, Token(kind, s.pos, -1, 0));
  }

  lemma TokensOkLater(pos: nat, toks: seq<Token>)
    requires TokensOk(pos, toks)
    ensures TokensOk(pos + 1, toks)
  {
    forall i | 0 <= i < |toks| ensures TokenOk(pos + 1, toks[i]) {
      assert TokenOk(pos, toks[i]);
    }
  }

  lemma CloseTokens(pos: nat, toks: seq<Token>, c: int)
    requires TokensOk(pos, toks) && c == LastOpen(toks) && c != -1
    ensures TokensOk(pos + 1, toks[c := toks[c].(end := pos + 1)])
    ensures LastOpen(toks[c := toks[c].(end := pos + 1)]) == LastOpen(toks[..c])
  {
    var toks' := toks[c := toks[c].(end := pos + 1)];
    LastOpenMax(toks);
    forall i | 0 <= i < |toks'| ensures TokenOk(pos + 1, toks'[i]) {
      assert TokenOk(pos, toks[i]);
    }
    forall i, j | 0 <= i < j < |toks'| ensures NestedPair(toks'[i], toks'[j]) {
      assert NestedPair(toks[i], toks[j]) && TokenOk(pos, toks[j]);
      if j == c {
        assert TokenOk(pos, toks[i]);
      }
    }
    LastOpenMax(toks[..c]);
    LastOpenIs(toks', LastOpen(toks[..c]));
  }

  lemma CloseValid(js: string, s: State, pool: Pool, kind: Kind)
    requires Valid(js, s, pool) && s.pos < |js|
    ensures CloseContainer(s, pool, kind).Go? ==> Valid(js, CloseContainer(s, pool, kind).s, pool)
  {
    var c := LastOpen(s.toks);
    if pool.Tokens? && c != -1 {
      CloseTokens(s.pos, s.toks, c);
      var toks := s.toks[c := s.toks[c].(end := s.pos + 1)];
      var closed := State(s.pos + 1, LastOpen(toks), toks, s.count);
      assert CloseContainer(s, pool, kind).Go? ==> CloseContainer(s, pool, kind).s == closed;
    } else {
      TokensOkLater(s.pos, s.toks);
    }
  }

  lemma StringValid(js: string, s: State, pool: Pool)
    requires Valid(js, s, pool) && !AtEnd(js, s.pos) && js[s.pos] == '"'
    ensures Step(js, s, pool).Go? ==> Valid(js, Step(js, s, pool).s, pool)
  {
    var q := StringEnd(js, s.pos + 1);
    if q.Closed? {
      var t := Token(String, s.pos + 1, q.at, 0);
      AddLeafValid(js, s, pool, t, q.at + 1);
      assert Step(js, s, pool) == AddLeaf(s, pool, t, q.at + 1);
    }
  }

  lemma PrimitiveValid(js: string, s: State, pool: Pool)
    requires Valid(js, s, pool) && !AtEnd(js, s.pos) && !Delimiter(js[s.pos])
    requires js[s.pos] !in "{[\""
    ensures Step(js, s, pool).Go? ==> Valid(js, Step(js, s, pool).s, pool)
  {
    var e := PrimitiveEnd(js, s.pos);
    if e.Some? {
      AddLeafValid(js, s, pool, Token(Primitive, s.pos, e.value, 0), e.value);
    }
  }

  lemma PunctuationValid(js: string, s: State, pool: Pool)
    requires Valid(js, s, pool) && !AtEnd(js, s.pos)
    requires Blank(js[s.pos]) || js[s.pos] == ':' || js[s.pos] == ','
    ensures Step(js, s, pool).Go? ==> Valid(js, Step(js, s, pool).s, pool)
  {
    TokensOkLater(s.pos, s.toks);
  }

  lemma StepValid(js: string, s: State, pool: Pool)
    requires Valid(js, s, pool) && !AtEnd(js, s.pos)
    ensures Step(js, s, pool).Go? ==> Valid(js, Step(js, s, pool).s, pool)
  {
    var c := js[s.pos];
    if c == '{' || c == '[' {
      OpenValid(js, s, pool, if c == '{' then Object else Array);
    } else if c == '}' || c == ']' {
      CloseValid(js, s, pool, if c == '}' then Object else Array);
    } else if c == '"' {
      StringValid(js, s, pool);
    } else if Blank(c) || c == ':' || c == ',' {
      PunctuationValid(js, s, pool);
    } else {
      PrimitiveValid(js, s, pool);
    }
  }

  /** A comma is the undefined read exactly when no token is the parent, so in no container. */
  lemma CommaDefined(js: string, s: State, pool: Pool)
    requires Valid(js, s, pool) && !AtEnd(js, s.pos)
    ensures Step(js, s, pool) == Stop(Undefined) <==> js[s.pos] == ',' && pool.Tokens? && s.super == -1
    ensures Step(js, s, pool) == Stop(Undefined) ==> LastOpen(s.toks) == -1
  {}

  /** After any run the tokens nest in preorder, and after a successful one all are closed. */
  lemma {:induction false} RunValid(js: string, s: State, pool: Pool)
    requires Valid(js, s, pool)
    ensures Valid(js, Run(js, s, pool).1, pool)
    ensures Run(js, s, pool).0.Done? ==> LastOpen(Run(js, s, pool).1.toks) == -1
    decreases |js| - s.pos
  {
    if !AtEnd(js, s.pos) && Step(js, s, pool).Go? {
      StepValid(js, s, pool);
      RunValid(js, Step(js, s, pool).s, pool);
    }
  }

  // ----- Dry runs, larger pools and resumed calls

  /** Same scan: the positions and counts agree, and every counted token was allocated. */
  ghost predicate InStep(s: State, d: State) {
    s.pos == d.pos && s.count == d.count == |s.toks| && d.toks == []
  }

  lemma StepInStep(js: string, s: State, d: State, n: nat)
    requires InStep(s, d) && !AtEnd(js, s.pos)
    ensures
      var r, q := Step(js, s, Tokens(n)), Step(js, d, DryRun);
      && (r.Go? ==> q.Go? && InStep(r.s, q.s))
      && (r == Stop(NoMem) ==> q.Go? && q.s.count == s.count + 1 && n <= |s.toks|)
  {}

  lemma {:induction false} CountGrows(js: string, d: State)
    ensures Run(js, d, DryRun).0.Done? ==> Run(js, d, DryRun).0.count >= d.count
    decreases |js| - d.pos
  {
    if !AtEnd(js, d.pos) && Step(js, d, DryRun).Go? {
      CountGrows(js, Step(js, d, DryRun).s);
    }
  }

  lemma {:induction false} RunInStep(js: string, s: State, d: State, n: nat)
    requires InStep(s, d)
    ensures
      var (r, s'), q := Run(js, s, Tokens(n)), Run(js, d, DryRun).0;
      && (r.Done? ==> q == r && |s'.toks| == r.count)
      && (r == Failed(NoMem) && q.Done? ==> n < q.count)
    decreases |js| - s.pos
  {
    if !AtEnd(js, s.pos) {
      StepInStep(js, s, d, n);
      var r, q := Step(js, s, Tokens(n)), Step(js, d, DryRun);
      if r.Go? {
        RunInStep(js, r.s, q.s, n);
      } else if q.Go? {
        CountGrows(js, q.s);
      }
    }
  }

  /** A successful parse counts what a dry run counts, and that many tokens suffice. */
  lemma DryRunAgrees(js: string, n: nat)
    ensures
      var (r, s), d := Run(js, Fresh, Tokens(n)), Run(js, Fresh, DryRun).0;
      && (r.Done? ==> d == r && |s.toks| == r.count)
      && (d.Done? && d.count <= n ==> r != Failed(NoMem))
  {
    RunInStep(js, Fresh, Fresh, n);
  }

  lemma StepLarger(js: string, s: State, n: nat, m: nat)
    requires n <= m && !AtEnd(js, s.pos)
    ensures Step(js, s, Tokens(n)) == Stop(NoMem) || Step(js, s, Tokens(n)) == Step(js, s, Tokens(m))
  {}

  /**
    A larger array changes nothing but the lack of tokens; and a parse that stopped for lack
    of them ends, when continued with the larger array, as if it had had that array at once.
   */
  lemma {:induction false} LargerPool(js: string, s: State, n: nat, m: nat)
    requires n <= m
    ensures
      var (r, s') := Run(js, s, Tokens(n));
      if r == Failed(NoMem) then Run(js, s, Tokens(m)) == Run(js, s', Tokens(m))
      else Run(js, s, Tokens(m)) == (r, s')
    decreases |js| - s.pos
  {
    if !AtEnd(js, s.pos) {
      StepLarger(js, s, n, m);
      if Step(js, s, Tokens(n)).Go? {
        LargerPool(js, Step(js, s, Tokens(n)).s, n, m);
      }
    }
  }

  function Later(r: Next, k: nat): Next {
    if r.Go? then Go(r.s.(count := r.s.count + k)) else r
  }

  lemma LeafCount(s: State, pool: Pool, t: Token, next: nat, k: nat)
    ensures AddLeaf(s.(count := s.count + k), pool, t, next) == Later(AddLeaf(s, pool, t, next), k)
  {}

  lemma BracketCount(s: State, pool: Pool, kind: Kind, k: nat)
    ensures OpenContainer(s.(count := s.count + k), pool, kind) == Later(OpenContainer(s, pool, kind), k)
    ensures CloseContainer(s.(count := s.count + k), pool, kind) == Later(CloseContainer(s, pool, kind), k)
  {}

  lemma CommaCount(s: State, pool: Pool, k: nat)
    ensures AtComma(s.(count := s.count + k), pool) == Later(AtComma(s, pool), k)
  {}

  lemma StepCount(js: string, s: State, pool: Pool, k: nat)
    requires !AtEnd(js, s.pos)
    ensures Step(js, s.(count := s.count + k), pool) == Later(Step(js, s, pool), k)
  {
    var c := js[s.pos];
    if c == '{' || c == '}' {
      BracketCount(s, pool, Object, k);
    } else if c == '[' || c == ']' {
      BracketCount(s, pool, Array, k);
    } else if c == ',' {
      CommaCount(s, pool, k);
    } else if c == '"' {
      var q := StringEnd(js, s.pos + 1);
      if q.Closed? {
        LeafCount(s, pool, Token(String, s.pos + 1, q.at, 0), q.at + 1, k);
      }
    } else if !Blank(c) && c != ':' {
      var e := PrimitiveEnd(js, s.pos);
      if e.Some? {
        LeafCount(s, pool, Token(Primitive, s.pos, e.value, 0), e.value, k);
      }
    }
  }

  lemma RunGoes(js: string, s: State, s': State, pool: Pool)
    requires !AtEnd(js, s.pos) && Step(js, s, pool) == Go(s')
    ensures Run(js, s, pool) == Run(js, s', pool)
  {}

  lemma RunStops(js: string, s: State, pool: Pool, k: nat)
    requires AtEnd(js, s.pos) || Step(js, s, pool).Stop?
    ensures Counted(Run(js, s, pool), Run(js, s.(count := s.count + k), pool), k)
  {
    if !AtEnd(js, s.pos) {
      StepCount(js, s, pool, k);
    }
  }

  /** The same result, with `k` more counted. */
  ghost predicate Counted(r: (Outcome, State), q: (Outcome, State), k: nat) {
    && q.1 == r.1.(count := r.1.count + k)
    && q.0 == if r.0.Done? then Done(r.0.count + k) else r.0
  }

  /** The count of a call is the number of tokens of that call alone. */
  lemma {:induction false} RunCount(js: string, s: State, pool: Pool, k: nat)
    ensures Counted(Run(js, s, pool), Run(js, s.(count := s.count + k), pool), k)
    decreases |js| - s.pos
  {
    if AtEnd(js, s.pos) || Step(js, s, pool).Stop? {
      RunStops(js, s, pool, k);
    } else {
      var s' := Step(js, s, pool).s;
      StepCount(js, s, pool, k);
      RunGoes(js, s, s', pool);
      RunGoes(js, s.(count := s.count + k), s'.(count := s'.count + k), pool);
      RunCount(js, s', pool, k);
    }
  }

  /**
    Calling again with a larger array after a lack of tokens: the tokens are those of one call
    with that array, and the two calls together count what the one call counts.
   */
  lemma ResumedCall(js: string, n: nat, m: nat)
    requires n <= m && Run(js, Fresh, Tokens(n)).0 == Failed(NoMem)
    ensures
      var s := Run(js, Fresh, Tokens(n)).1;
      var (r, t), (q, u) := Run(js, Fresh, Tokens(m)), Run(js, s.(count := 0), Tokens(m));
      && t.toks == u.toks && t.pos == u.pos && t.super == u.super
      && (r.Done? <==> q.Done?) && (r.Done? ==> r.count == s.count + q.count)
  {
    var s := Run(js, Fresh, Tokens(n)).1;
    LargerPool(js, Fresh, n, m);
    var z := s.(count := 0);
    RunCount(js, z, Tokens(m), s.count);
    assert z.(count := z.count + s.count) == s;
  }
}
