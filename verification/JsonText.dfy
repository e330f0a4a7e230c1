/**
  JSON texts (sections 2 to 7 of RFC 8259) as concrete syntax trees, and the theorem that the
  tokenizer returns the preorder flattening of the tree of every text.
 */
module JsonText {
  import opened Queues
  import opened Jsmn

  /** One character of a string as written: plain, `\c`, or `\uXXXX`. */
  datatype StringChar = Plain(c: char) | Escaped(c: char) | Unicode(digits: string)

  datatype Value =
    | Atom(text: string)
    | Quoted(body: seq<StringChar>)
    | Arr(blank: string, items: Items)
    | Obj(blank: string, items: Items)

  /** Elements and members, each with the white space around it. */
  datatype Items = Nil | Cons(item: Item, rest: Items)

  datatype Item =
    | Element(before: string, value: Value, after: string)
    | Member(before: string, key: seq<StringChar>, colonBefore: string, colonAfter: string,
             value: Value, after: string)

  // ----- The text of a tree

  function CharText(c: StringChar): string {
    match c
    case Plain(c) => [c]
    case Escaped(c) => ['\\', c]
    case Unicode(d) => ['\\', 'u'] + d
  }

  function BodyText(b: seq<StringChar>): string {
    if b == [] then [] else CharText(b[0]) + BodyText(b[1..])
  }

  function QuotedText(b: seq<StringChar>): string {
    ['"'] + BodyText(b) + ['"']
  }

  function Text(v: Value): string {
    match v
    case Atom(t) => t
    case Quoted(b) => QuotedText(b)
    case Arr(w, items) => ['['] + (w + (ItemsText(items) + [']']))
    case Obj(w, items) => ['{'] + (w + (ItemsText(items) + ['}']))
  }

  function ItemsText(items: Items): string {
    match items
    case Nil => []
    case Cons(item, rest) =>
      if rest.Nil? then ItemText(item) else ItemText(item) + ([','] + ItemsText(rest))
  }

  function ItemText(item: Item): string {
    match item
    case Element(b, v, a) => b + (Text(v) + a)
    case Member(b, k, cb, ca, v, a) => b + (QuotedText(k) + (cb + ([':'] + (ca + (Text(v) + a)))))
  }

  // ----- Which trees are JSON

  /** White space (section 2 of RFC 8259). */
  predicate JsonBlank(c: char) {
    c == ' ' || c == '\t' || c == '\n' || c == '\r'
  }

  /** What may follow a backslash, but for `u` (section 7). */
  predicate JsonEscape(c: char) {
    c == '"' || c == '\\' || c == '/' || c == 'b' || c == 'f' || c == 'n' || c == 'r' || c == 't'
  }

  predicate HexDigit(c: char) {
    '0' <= c <= '9' || 'a' <= c <= 'f' || 'A' <= c <= 'F'
  }

  /** Visible ASCII characters that do not end a value. */
  predicate AtomChar(c: char) {
    '!' <= c <= '~' && c != ',' && c != ':' && c != ']' && c != '}'
  }

  predicate Blanks(w: string) {
    forall i :: 0 <= i < |w| ==> JsonBlank(w[i])
  }

  predicate CharOk(c: StringChar) {
    match c
    case Plain(c) => c != '"' && c != '\\' && c != '\0'
    case Escaped(c) => JsonEscape(c)
    case Unicode(d) => |d| == 4 && HexDigit(d[0]) && HexDigit(d[1]) && HexDigit(d[2]) && HexDigit(d[3])
  }

  predicate BodyOk(b: seq<StringChar>) {
    forall i :: 0 <= i < |b| ==> CharOk(b[i])
  }

  /** Text the tokenizer takes for one unquoted value. */
  predicate AtomOk(t: string) {
    && t != [] && t[0] !in "{[\""
    && forall i :: 0 <= i < |t| ==> AtomChar(t[i])
  }

  predicate ValueOk(v: Value) {
    match v
    case Atom(t) => AtomOk(t)
    case Quoted(b) => BodyOk(b)
    case Arr(w, items) => Blanks(w) && ItemsOk(items, false)
    case Obj(w, items) => Blanks(w) && ItemsOk(items, true)
  }

  predicate ItemsOk(items: Items, members: bool) {
    items.Cons? ==> ItemOk(items.item, members) && ItemsOk(items.rest, members)
  }

  predicate ItemOk(item: Item, members: bool) {
    match item
    case Element(b, v, a) => !members && Blanks(b) && ValueOk(v) && Blanks(a)
    case Member(b, k, cb, ca, v, a) =>
      && members && Blanks(b) && BodyOk(k) && Blanks(cb) && Blanks(ca) && ValueOk(v) && Blanks(a)
  }

  // ----- The flattening

  function Count(items: Items): nat {
    if items.Nil? then 0 else 1 + Count(items.rest)
  }

  function KindOf(v: Value): Kind {
    match v
    case Atom(_) => Primitive
    case Quoted(_) => String
    case Arr(_, _) => Array
    case Obj(_, _) => Object
  }

  /** The tokens of a value whose text starts at `at`, the value first, then its parts. */
  function Flatten(v: Value, at: nat): seq<Token> {
    match v
    case Atom(t) => [Token(Primitive, at, at + |t|, 0)]
    case Quoted(b) => [Token(String, at + 1, at + 1 + |BodyText(b)|, 0)]
    case Arr(w, items) =>
      [Token(Array, at, at + |Text(v)|, Count(items))] + FlattenItems(items, at + 1 + |w|)
    case Obj(w, items) =>
      [Token(Object, at, at + |Text(v)|, Count(items))] + FlattenItems(items, at + 1 + |w|)
  }

  function FlattenItems(items: Items, at: nat): seq<Token> {
    match items
    case Nil => []
    case Cons(item, rest) =>
      FlattenItem(item, at) + FlattenItems(rest, at + |ItemText(item)| + 1)
  }

  function FlattenItem(item: Item, at: nat): seq<Token> {
    match item
    case Element(b, v, a) => Flatten(v, at + |b|)
    case Member(b, k, cb, ca, v, a) =>
      [Token(String, at + |b| + 1, at + |b| + 1 + |BodyText(k)|, 1)]
      + Flatten(v, at + |b| + |QuotedText(k)| + |cb| + 1 + |ca|)
  }

  // ----- Reading a piece of the text

  ghost predicate At(js: string, pos: nat, text: string) {
    pos + |text| <= |js| && forall i :: 0 <= i < |text| ==> js[pos + i] == text[i]
  }

  lemma AtSplit(js: string, pos: nat, a: string, b: string)
    requires At(js, pos, a + b)
    ensures At(js, pos, a) && At(js, pos + |a|, b)
  {
    var t := a + b;
    forall i | 0 <= i < |a| ensures js[pos + i] == a[i] {
      assert t[i] == a[i];
    }
    forall i | 0 <= i < |b| ensures js[pos + |a| + i] == b[i] {
      assert t[|a| + i] == b[i];
    }
  }

  lemma AtFirst(js: string, pos: nat, text: string)
    requires At(js, pos, text) && text != []
    ensures pos < |js| && js[pos] == text[0]
  {
    assert js[pos + 0] == text[0];
  }

  lemma {:induction false} SkipBlanks(js: string, s: State, pool: Pool, w: string)
    requires At(js, s.pos, w) && Blanks(w)
    ensures Run(js, s, pool) == Run(js, s.(pos := s.pos + |w|), pool)
    decreases |w|
  {
    if w != [] {
      AtFirst(js, s.pos, w);
      assert w == [w[0]] + w[1..];
      AtSplit(js, s.pos, [w[0]], w[1..]);
      RunGoes(js, s, s.(pos := s.pos + 1), pool);
      SkipBlanks(js, s.(pos := s.pos + 1), pool, w[1..]);
    }
  }

  lemma {:induction false} AtomEnd(js: string, i: nat, t: string)
    requires At(js, i, t) && (AtEnd(js, i + |t|) || Delimiter(js[i + |t|]))
    requires forall k :: 0 <= k < |t| ==> AtomChar(t[k])
    ensures PrimitiveEnd(js, i) == Some(i + |t|)
    decreases |t|
  {
    if t != [] {
      AtFirst(js, i, t);
      assert t == [t[0]] + t[1..];
      AtSplit(js, i, [t[0]], t[1..]);
      AtomEnd(js, i + 1, t[1..]);
    }
  }

  lemma HexRunOk(js: string, i: nat, d: string)
    requires At(js, i, d) && |d| == 4 && Hex(d[0]) && Hex(d[1]) && Hex(d[2]) && Hex(d[3])
    ensures HexRun(js, i, 4) == Some(i + 4)
  {
    AtFirst(js, i, d);
    assert HexRun(js, i + 4, 0) == Some(i + 4);
    assert HexRun(js, i + 3, 1) == Some(i + 4);
    assert HexRun(js, i + 2, 2) == Some(i + 4);
    assert HexRun(js, i + 1, 3) == Some(i + 4);
  }

  lemma CharSkip(js: string, i: nat, c: StringChar)
    requires At(js, i, CharText(c)) && CharOk(c) && i + |CharText(c)| < |js|
    ensures StringEnd(js, i) == StringEnd(js, i + |CharText(c)|)
  {
    AtFirst(js, i, CharText(c));
    if !c.Plain? {
      assert js[i + 1] == CharText(c)[1];
      if c.Unicode? {
        AtSplit(js, i, ['\\', 'u'], c.digits);
        HexRunOk(js, i + 2, c.digits);
      }
    }
  }

  lemma QuoteEnds(js: string, i: nat)
    requires At(js, i, ['"'])
    ensures StringEnd(js, i) == Closed(i)
  {
    AtFirst(js, i, ['"']);
  }

  lemma BodyUnfold(b: seq<StringChar>)
    requires b != []
    ensures BodyText(b) == CharText(b[0]) + BodyText(b[1..])
  {}

  lemma BodySplit(js: string, i: nat, b: seq<StringChar>)
    requires At(js, i, BodyText(b) + ['"']) && b != []
    ensures At(js, i, CharText(b[0])) && At(js, i + |CharText(b[0])|, BodyText(b[1..]) + ['"'])
  {
    var h, t := CharText(b[0]), BodyText(b[1..]);
    assert BodyText(b) + ['"'] == h + (t + ['"']) by {
      BodyUnfold(b);
      Associate(h, t, ['"']);
    }
    AtSplit(js, i, h, t + ['"']);
  }

  lemma BodySize(b: seq<StringChar>)
    requires b != []
    ensures |BodyText(b)| == |CharText(b[0])| + |BodyText(b[1..])|
  {
    BodyUnfold(b);
  }

  lemma {:induction false} BodyEnd(js: string, i: nat, b: seq<StringChar>)
    requires At(js, i, BodyText(b) + ['"']) && BodyOk(b)
    ensures StringEnd(js, i) == Closed(i + |BodyText(b)|)
    decreases |b|
  {
    if b == [] {
      assert BodyText(b) + ['"'] == ['"'];
      QuoteEnds(js, i);
    } else {
      BodySplit(js, i, b);
      BodySize(b);
      CharSkip(js, i, b[0]);
      BodyEnd(js, i + |CharText(b[0])|, b[1..]);
    }
  }

  // ----- Parsing

  /** The rest of the parse from a given state on. */
  type Rest = State -> (Outcome, State)

  ghost predicate IsRun(go: Rest, js: string, pool: Pool) {
    forall s {:trigger Run(js, s, pool)} :: go(s) == Run(js, s, pool)
  }

  lemma RunBlanks(js: string, go: Rest, s: State, pool: Pool, w: string)
    requires IsRun(go, js, pool)
    requires At(js, s.pos, w) && Blanks(w)
    ensures go(s) == go(s.(pos := s.pos + |w|))
  {
    SkipBlanks(js, s, pool, w);
  }

  /** One step of the main loop. */
  lemma Goes(js: string, go: Rest, s: State, pool: Pool)
    requires IsRun(go, js, pool) && !AtEnd(js, s.pos) && Step(js, s, pool).Go?
    ensures go(s) == go(Step(js, s, pool).s)
  {
    assert Run(js, s, pool) == Run(js, Step(js, s, pool).s, pool);
  }

  /** The token stack while the items of container `c` are read. */
  ghost predicate Within(s: State, c: int) {
    0 <= c < |s.toks| && LastOpen(s.toks) == c && Container(s.toks[c].kind)
  }

  /** The innermost open container afterwards, when the value closed one; else unchanged. */
  function SuperAfter(v: Value, s: State): int {
    if v.Arr? || v.Obj? then LastOpen(s.toks) else s.super
  }

  /** The state after a value has been read. */
  function AfterValue(v: Value, s: State): State {
    State(s.pos + |Text(v)|, SuperAfter(v, s),
          Bump(s.toks, s.super) + Flatten(v, s.pos), s.count + |Flatten(v, s.pos)|)
  }

  function AfterPadded(v: Value, a: string, s: State): State {
    AfterValue(v, s).(pos := s.pos + |Text(v)| + |a|)
  }

  ghost predicate Room(s: State, pool: Pool, more: seq<Token>) {
    pool.Tokens? && |s.toks| + |more| <= pool.n && -1 <= s.super < |s.toks|
  }

  function AfterString(s: State, b: seq<StringChar>): State {
    State(s.pos + |QuotedText(b)|, s.super,
          Bump(s.toks, s.super) + [Token(String, s.pos + 1, s.pos + 1 + |BodyText(b)|, 0)], s.count + 1)
  }

  lemma StringStep(js: string, s: State, pool: Pool, b: seq<StringChar>)
    requires At(js, s.pos, QuotedText(b)) && BodyOk(b)
    requires pool.Tokens? && |s.toks| < pool.n
    ensures !AtEnd(js, s.pos) && Step(js, s, pool) == Go(AfterString(s, b))
  {
    var rest := BodyText(b) + ['"'];
    assert QuotedText(b) == ['"'] + rest;
    AtSplit(js, s.pos, ['"'], rest);
    AtFirst(js, s.pos, ['"']);
    BodyEnd(js, s.pos + 1, b);
  }

  lemma RunString(js: string, go: Rest, s: State, pool: Pool, b: seq<StringChar>)
    requires IsRun(go, js, pool)
    requires At(js, s.pos, QuotedText(b)) && BodyOk(b)
    requires pool.Tokens? && |s.toks| < pool.n
    ensures go(s) == go(AfterString(s, b))
  {
    StringStep(js, s, pool, b);
    Goes(js, go, s, pool);
  }

  /** The end of the text with every container closed. */
  lemma RunEnd(js: string, go: Rest, s: State, pool: Pool)
    requires IsRun(go, js, pool) && AtEnd(js, s.pos) && LastOpen(s.toks) == -1
    ensures go(s) == (Done(s.count), s)
  {
    assert Run(js, s, pool) == (Done(s.count), s);
  }

  lemma RunAtom(js: string, go: Rest, s: State, pool: Pool, t: string)
    requires IsRun(go, js, pool)
    requires At(js, s.pos, t) && AtomOk(t)
    requires AtEnd(js, s.pos + |t|) || Delimiter(js[s.pos + |t|])
    requires pool.Tokens? && |s.toks| < pool.n
    ensures go(s) == go(State(s.pos + |t|, s.super,
        Bump(s.toks, s.super) + [Token(Primitive, s.pos, s.pos + |t|, 0)], s.count + 1))
  {
    AtFirst(js, s.pos, t);
    AtomEnd(js, s.pos, t);
    Goes(js, go, s, pool);
  }

  predicate Terminated(js: string, pos: nat) {
    AtEnd(js, pos) || Delimiter(js[pos])
  }

  /** A value followed by white space is terminated when what comes after is. */
  lemma BlanksTerminate(js: string, pos: nat, w: string)
    requires At(js, pos, w) && Blanks(w) && Terminated(js, pos + |w|)
    ensures Terminated(js, pos)
  {
    if w != [] {
      AtFirst(js, pos, w);
    }
  }

  ghost predicate AllClosed(toks: seq<Token>) {
    forall i :: 0 <= i < |toks| ==> !IsOpen(toks[i])
  }

  lemma {:induction false} FlattenClosed(v: Value, at: nat)
    ensures AllClosed(Flatten(v, at)) && Flatten(v, at) != []
    decreases v
  {
    if v.Arr? || v.Obj? {
      FlattenItemsClosed(v.items, at + 1 + |v.blank|);
    }
  }

  lemma {:induction false} FlattenItemsClosed(items: Items, at: nat)
    ensures AllClosed(FlattenItems(items, at))
    decreases items
  {
    if items.Cons? {
      FlattenItemClosed(items.item, at);
      FlattenItemsClosed(items.rest, at + |ItemText(items.item)| + 1);
    }
  }

  lemma {:induction false} FlattenItemClosed(item: Item, at: nat)
    ensures AllClosed(FlattenItem(item, at))
    decreases item
  {
    match item
    case Element(b, v, a) => FlattenClosed(v, at + |b|);
    case Member(b, k, cb, ca, v, a) =>
      var vat := at + |b| + |QuotedText(k)| + |cb| + 1 + |ca|;
      var key := Token(String, at + |b| + 1, at + |b| + 1 + |BodyText(k)|, 1);
      FlattenClosed(v, vat);
      MemberFlat(item, at, vat, key);
      ClosedCons(key, Flatten(v, vat));
  }

  lemma ClosedCons(t: Token, toks: seq<Token>)
    requires !IsOpen(t) && AllClosed(toks)
    ensures AllClosed([t] + toks)
  {}

  lemma LastOpenAppend(toks: seq<Token>, more: seq<Token>)
    requires AllClosed(more)
    ensures LastOpen(toks + more) == LastOpen(toks)
  {
    LastOpenMax(toks);
    LastOpenIs(toks + more, LastOpen(toks));
  }

  /** `n` more children for token `c`. */
  function Widen(toks: seq<Token>, c: int, n: nat): (r: seq<Token>)
    requires 0 <= c < |toks|
    ensures |r| == |toks|
  {
    toks[c := toks[c].(size := toks[c].size + n)]
  }

  lemma RunColon(js: string, go: Rest, s: State, pool: Pool)
    requires IsRun(go, js, pool)
    requires At(js, s.pos, [':'])
    ensures go(s) == go(s.(pos := s.pos + 1, super := |s.toks| - 1))
  {
    AtFirst(js, s.pos, [':']);
    Goes(js, go, s, pool);
  }

  /** At a comma the parent is again the container whose items are being read. */
  lemma RunComma(js: string, go: Rest, s: State, pool: Pool, c: int)
    requires IsRun(go, js, pool)
    requires At(js, s.pos, [',']) && pool.Tokens? && Within(s, c)
    requires 0 <= s.super < |s.toks| && (s.super == c || !Container(s.toks[s.super].kind))
    ensures go(s) == go(s.(pos := s.pos + 1, super := c))
  {
    AtFirst(js, s.pos, [',']);
    Goes(js, go, s, pool);
  }

  predicate BracketKind(c: char, kind: Kind) {
    (c == ']' && kind == Array) || (c == '}' && kind == Object)
  }

  lemma RunClose(js: string, go: Rest, s: State, pool: Pool, c: int, b: char)
    requires IsRun(go, js, pool)
    requires At(js, s.pos, [b]) && pool.Tokens? && Within(s, c) && BracketKind(b, s.toks[c].kind)
    ensures go(s) == go(State(s.pos + 1, LastOpen(s.toks[..c]),
        s.toks[c := s.toks[c].(end := s.pos + 1)], s.count))
  {
    AtFirst(js, s.pos, [b]);
    Goes(js, go, s, pool);
  }

  lemma RunOpen(js: string, go: Rest, s: State, pool: Pool, kind: Kind, b: char)
    requires IsRun(go, js, pool)
    requires At(js, s.pos, [b]) && pool.Tokens? && |s.toks| < pool.n
    requires (b == '[' && kind == Array) || (b == '{' && kind == Object)
    ensures go(s) == go(Opened(s, kind))
  {
    AtFirst(js, s.pos, [b]);
    Goes(js, go, s, pool);
  }

  function Opened(s: State, kind: Kind): State {
    State(s.pos + 1, |s.toks|, Bump(s.toks, s.super) + [Token(kind, s.pos, -1, 0)], s.count + 1)
  }

  function AfterItems(items: Items, s: State, c: int, super: int): State
    requires 0 <= c < |s.toks|
  {
    State(s.pos + |ItemsText(items)|, super,
          Widen(s.toks, c, Count(items)) + FlattenItems(items, s.pos),
          s.count + |FlattenItems(items, s.pos)|)
  }

  function AfterItem(item: Item, s: State, c: int, super: int): State
    requires 0 <= c < |s.toks|
  {
    State(s.pos + |ItemText(item)|, super,
          Bump(s.toks, c) + FlattenItem(item, s.pos), s.count + |FlattenItem(item, s.pos)|)
  }

  lemma {:induction false} RunValue(js: string, go: Rest, s: State, pool: Pool, v: Value)
    requires IsRun(go, js, pool)
    requires ValueOk(v) && At(js, s.pos, Text(v)) && Terminated(js, s.pos + |Text(v)|)
    requires Room(s, pool, Flatten(v, s.pos))
    ensures go(s) == go(AfterValue(v, s))
    decreases v, 1
  {
    match v
    case Atom(t) => RunAtom(js, go, s, pool, t);
    case Quoted(b) => RunString(js, go, s, pool, b);
    case Arr(w, items) => RunContainer(js, go, s, pool, v, w, items, '[', ']');
    case Obj(w, items) => RunContainer(js, go, s, pool, v, w, items, '{', '}');
  }

  lemma {:induction false} RunContainer(js: string, go: Rest, s: State, pool: Pool, v: Value,
                                        w: string, items: Items, open: char, close: char)
    requires IsRun(go, js, pool)
    requires (v == Arr(w, items) && open == '[' && close == ']')
          || (v == Obj(w, items) && open == '{' && close == '}')
    requires ValueOk(v) && At(js, s.pos, Text(v)) && Room(s, pool, Flatten(v, s.pos))
    ensures go(s) == go(AfterValue(v, s))
    decreases v, 0
  {
    var c := |s.toks|;
    var s2 := RunOpening(js, go, s, pool, v, w, items, open, close);
    var super := RunItems(js, go, s2, pool, items, c, v.Obj?);
    RunClosing(js, go, s, AfterItems(items, s2, c, super), pool, v, items, close);
  }

  /** From the opening bracket to the first item. */
  lemma RunOpening(js: string, go: Rest, s: State, pool: Pool, v: Value,
                   w: string, items: Items, open: char, close: char) returns (s2: State)
    requires IsRun(go, js, pool)
    requires (v == Arr(w, items) && open == '[' && close == ']')
          || (v == Obj(w, items) && open == '{' && close == '}')
    requires Blanks(w) && At(js, s.pos, Text(v)) && pool.Tokens? && |s.toks| < pool.n
    ensures go(s) == go(s2)
    ensures s2 == Opened(s, KindOf(v)).(pos := s.pos + 1 + |w|) && Within(s2, |s.toks|)
    ensures At(js, s2.pos, ItemsText(items)) && At(js, s2.pos + |ItemsText(items)|, [close])
    ensures Terminated(js, s2.pos + |ItemsText(items)|)
  {
    var kind := KindOf(v);
    var inner := ItemsText(items) + [close];
    assert Text(v) == [open] + (w + inner);
    AtSplit(js, s.pos, [open], w + inner);
    AtSplit(js, s.pos + 1, w, inner);
    AtSplit(js, s.pos + 1 + |w|, ItemsText(items), [close]);
    RunOpen(js, go, s, pool, kind, open);
    s2 := Opened(s, kind);
    RunBlanks(js, go, s2, pool, w);
    s2 := s2.(pos := s2.pos + |w|);
    LastOpenIs(s2.toks, |s.toks|);
    AtFirst(js, s2.pos + |ItemsText(items)|, [close]);
  }

  /** From the last item past the closing bracket. */
  lemma RunClosing(js: string, go: Rest, s: State, s3: State, pool: Pool, v: Value,
                   items: Items, close: char)
    requires IsRun(go, js, pool) && pool.Tokens?
    requires (v.Arr? && close == ']') || (v.Obj? && close == '}')
    requires v.items == items
    requires s3 == AfterItems(items, Opened(s, KindOf(v)).(pos := s.pos + 1 + |v.blank|), |s.toks|, s3.super)
    requires At(js, s3.pos, [close])
    ensures go(s3) == go(AfterValue(v, s))
  {
    var c := |s.toks|;
    var s2 := Opened(s, KindOf(v)).(pos := s.pos + 1 + |v.blank|);
    FlattenItemsClosed(items, s2.pos);
    LastOpenIs(Widen(s2.toks, c, Count(items)), c);
    LastOpenAppend(Widen(s2.toks, c, Count(items)), FlattenItems(items, s2.pos));
    RunClose(js, go, s3, pool, c, close);
    Closing(s, s3, v, items);
  }

  /** Closing the container gives the state after the value. */
  lemma Closing(s: State, s3: State, v: Value, items: Items)
    requires (v.Arr? || v.Obj?) && items == v.items
    requires
      var s2 := Opened(s, KindOf(v)).(pos := s.pos + 1 + |v.blank|);
      s3.pos == s2.pos + |ItemsText(items)| && s3.count == s2.count + |FlattenItems(items, s2.pos)|
      && s3.toks == Widen(s2.toks, |s.toks|, Count(items)) + FlattenItems(items, s2.pos)
    ensures State(s3.pos + 1, LastOpen(s3.toks[..|s.toks|]),
                  s3.toks[|s.toks| := s3.toks[|s.toks|].(end := s3.pos + 1)], s3.count) == AfterValue(v, s)
  {
    var c := |s.toks|;
    assert s3.toks[..c] == Bump(s.toks, s.super);
    BumpLastOpen(s.toks, s.super);
    var t := s3.toks[c := s3.toks[c].(end := s3.pos + 1)];
    assert t == AfterValue(v, s).toks;
  }

  lemma {:induction false} RunItems(js: string, go: Rest, s: State, pool: Pool, items: Items, c: int, members: bool)
      returns (super: int)
    requires IsRun(go, js, pool)
    requires ItemsOk(items, members) && At(js, s.pos, ItemsText(items))
    requires Terminated(js, s.pos + |ItemsText(items)|)
    requires Within(s, c) && s.super == c && Room(s, pool, FlattenItems(items, s.pos))
    ensures go(s) == go(AfterItems(items, s, c, super))
    decreases items
  {
    match items
    case Nil =>
      super := c;
      assert AfterItems(items, s, c, c) == s;
    case Cons(item, rest) =>
      ItemsSplit(js, s.pos, item, rest);
      ItemRoom(s, pool, item, rest);
      super := RunItem(js, go, s, pool, item, c, members);
      if rest.Cons? {
        var s2 := RunSeparator(js, go, s, pool, item, rest, c, super);
        super := RunItems(js, go, s2, pool, rest, c, members);
        OneItemMore(s, item, rest, c, super);
      } else {
        LastItem(s, item, c, super);
      }
  }

  lemma ItemRoom(s: State, pool: Pool, item: Item, rest: Items)
    requires Room(s, pool, FlattenItems(Cons(item, rest), s.pos))
    ensures Room(s, pool, FlattenItem(item, s.pos))
  {}

  lemma ItemsSplit(js: string, pos: nat, item: Item, rest: Items)
    requires At(js, pos, ItemsText(Cons(item, rest)))
    requires Terminated(js, pos + |ItemsText(Cons(item, rest))|)
    ensures At(js, pos, ItemText(item)) && Terminated(js, pos + |ItemText(item)|)
    ensures rest.Cons? ==>
              var at := pos + |ItemText(item)|;
              && At(js, at, [',']) && At(js, at + 1, ItemsText(rest))
              && Terminated(js, at + 1 + |ItemsText(rest)|)
  {
    if rest.Cons? {
      CommaSplit(js, pos, ItemText(item), ItemsText(rest));
    }
  }

  lemma CommaSplit(js: string, pos: nat, a: string, b: string)
    requires At(js, pos, a + ([','] + b))
    ensures At(js, pos, a) && Terminated(js, pos + |a|)
    ensures At(js, pos + |a|, [',']) && At(js, pos + |a| + 1, b)
  {
    AtSplit(js, pos, a, [','] + b);
    AtSplit(js, pos + |a|, [','], b);
    AtFirst(js, pos + |a|, [',']);
  }

  /** The comma between two items. */
  lemma RunSeparator(js: string, go: Rest, s: State, pool: Pool, item: Item, rest: Items, c: int,
                     super: int)
      returns (s2: State)
    requires IsRun(go, js, pool) && pool.Tokens? && Within(s, c)
    requires rest.Cons? && At(js, s.pos + |ItemText(item)|, [','])
    requires Room(s, pool, FlattenItems(Cons(item, rest), s.pos))
    requires
      var t := AfterItem(item, s, c, super).toks;
      0 <= super < |t| && (super == c || !Container(t[super].kind))
    ensures go(AfterItem(item, s, c, super)) == go(s2)
    ensures s2 == AfterItem(item, s, c, 0).(pos := s.pos + |ItemText(item)| + 1, super := c)
    ensures Within(s2, c) && Room(s2, pool, FlattenItems(rest, s2.pos))
  {
    var s1 := AfterItem(item, s, c, super);
    FlattenItemClosed(item, s.pos);
    BumpLastOpen(s.toks, c);
    LastOpenAppend(Bump(s.toks, c), FlattenItem(item, s.pos));
    RunComma(js, go, s1, pool, c);
    s2 := s1.(pos := s1.pos + 1, super := c);
  }

  lemma LastItem(s: State, item: Item, c: int, super: int)
    requires 0 <= c < |s.toks|
    ensures AfterItems(Cons(item, Nil), s, c, super) == AfterItem(item, s, c, super)
  {
    var items := Cons(item, Nil);
    assert Count(items) == 1 + Count(Nil);
    assert FlattenItems(items, s.pos) == FlattenItem(item, s.pos);
    assert ItemsText(items) == ItemText(item);
  }

  lemma OneItemMore(s: State, item: Item, rest: Items, c: int, super: int)
    requires 0 <= c < |s.toks| && rest.Cons?
    ensures
      var s2 := AfterItem(item, s, c, 0).(pos := s.pos + |ItemText(item)| + 1, super := c);
      AfterItems(Cons(item, rest), s, c, super) == AfterItems(rest, s2, c, super)
  {
    var s2 := AfterItem(item, s, c, 0).(pos := s.pos + |ItemText(item)| + 1, super := c);
    assert AfterItems(Cons(item, rest), s, c, super).toks == AfterItems(rest, s2, c, super).toks;
  }

  lemma {:induction false} RunItem(js: string, go: Rest, s: State, pool: Pool, item: Item, c: int, members: bool)
      returns (super: int)
    requires IsRun(go, js, pool)
    requires ItemOk(item, members) && At(js, s.pos, ItemText(item))
    requires Terminated(js, s.pos + |ItemText(item)|)
    requires Within(s, c) && s.super == c && Room(s, pool, FlattenItem(item, s.pos))
    ensures go(s) == go(AfterItem(item, s, c, super))
    ensures
      var t := AfterItem(item, s, c, super).toks;
      0 <= super < |t| && (super == c || !Container(t[super].kind))
    decreases item
  {
    match item
    case Element(b, v, a) =>
      AtSplit(js, s.pos, b, Text(v) + a);
      RunBlanks(js, go, s, pool, b);
      super := c;
      RunPadded(js, go, s.(pos := s.pos + |b|), pool, v, a);
    case Member(b, k, cb, ca, v, a) =>
      super := RunMember(js, go, s, pool, item, c);
  }

  lemma {:induction false} RunMember(js: string, go: Rest, s: State, pool: Pool, m: Item, c: int)
      returns (super: int)
    requires IsRun(go, js, pool)
    requires m.Member? && ItemOk(m, true) && At(js, s.pos, ItemText(m))
    requires Terminated(js, s.pos + |ItemText(m)|)
    requires Within(s, c) && s.super == c && Room(s, pool, FlattenItem(m, s.pos))
    ensures go(s) == go(AfterItem(m, s, c, super))
    ensures
      var t := AfterItem(m, s, c, super).toks;
      0 <= super < |t| && (super == c || !Container(t[super].kind))
    decreases m, 0
  {
    var s1 := RunKey(js, go, s, pool, m);
    RunPadded(js, go, s1, pool, m.value, m.after);
    super := SuperAfter(m.value, s1);
    MemberRead(s, s1, m, c);
  }

  /** The tokens after the value are those after the item: the key counts one child. */
  lemma MemberTokens(s: State, s1: State, m: Item, c: int)
    requires m.Member? && 0 <= c < |s.toks| && s.super == c && s1 == KeyRead(s, m)
    ensures Bump(s1.toks, s1.super) + Flatten(m.value, s1.pos) == Bump(s.toks, c) + FlattenItem(m, s.pos)
    ensures |FlattenItem(m, s.pos)| == 1 + |Flatten(m.value, s1.pos)|
  {
    var key := s1.toks[|s.toks|].(size := 1);
    assert Bump(s1.toks, |s.toks|) == Bump(s.toks, c) + [key];
    MemberFlat(m, s.pos, s1.pos, key);
    Associate(Bump(s.toks, c), [key], Flatten(m.value, s1.pos));
  }

  lemma MemberFlat(m: Item, at: nat, vat: nat, key: Token)
    requires m.Member? && vat == at + |m.before| + |QuotedText(m.key)| + |m.colonBefore| + 1 + |m.colonAfter|
    requires key == Token(String, at + |m.before| + 1, at + |m.before| + 1 + |BodyText(m.key)|, 1)
    ensures FlattenItem(m, at) == [key] + Flatten(m.value, vat)
  {}

  lemma MemberSize(m: Item)
    requires m.Member?
    ensures |ItemText(m)| == |m.before| + |QuotedText(m.key)| + |m.colonBefore| + 1 + |m.colonAfter|
                             + |Text(m.value)| + |m.after|
  {}

  /** The parent after the value is the container, or the key, which is no container. */
  lemma MemberParent(s: State, s1: State, m: Item, c: int)
    requires m.Member? && 0 <= c < |s.toks| && LastOpen(s.toks) == c && s.super == c && s1 == KeyRead(s, m)
    ensures
      var super := SuperAfter(m.value, s1);
      (super == c || super == |s.toks|) && |Bump(s1.toks, s1.super)| == |s.toks| + 1
      && Bump(s1.toks, s1.super)[|s.toks|].kind == String
  {
    BumpLastOpen(s.toks, c);
    LastOpenAppend(Bump(s.toks, c), [s1.toks[|s.toks|]]);
  }

  /** The state after the white space that follows a member is the one after the item. */
  lemma MemberRead(s: State, s1: State, m: Item, c: int)
    requires m.Member? && 0 <= c < |s.toks| && LastOpen(s.toks) == c && s.super == c
    requires s1 == KeyRead(s, m)
    ensures
      var super, s' := SuperAfter(m.value, s1), AfterPadded(m.value, m.after, s1);
      && AfterItem(m, s, c, super) == s'
      && (super == c || super == |s.toks|)
      && |s'.toks| > |s.toks| && s'.toks[|s.toks|].kind == String
  {
    MemberTokens(s, s1, m, c);
    MemberSize(m);
    MemberParent(s, s1, m, c);
  }

  /** The state between the key and the value of a member. */
  function KeyRead(s: State, m: Item): State
    requires m.Member?
  {
    var at := s.pos + |m.before|;
    State(at + |QuotedText(m.key)| + |m.colonBefore| + 1 + |m.colonAfter|, |s.toks|,
          Bump(s.toks, s.super) + [Token(String, at + 1, at + 1 + |BodyText(m.key)|, 0)], s.count + 1)
  }

  /** A value and the white space after it. */
  lemma {:induction false} RunPadded(js: string, go: Rest, s: State, pool: Pool, v: Value, a: string)
    requires IsRun(go, js, pool)
    requires ValueOk(v) && Blanks(a) && At(js, s.pos, Text(v) + a)
    requires Terminated(js, s.pos + |Text(v)| + |a|) && Room(s, pool, Flatten(v, s.pos))
    ensures go(s) == go(AfterPadded(v, a, s))
    decreases v, 2
  {
    AtSplit(js, s.pos, Text(v), a);
    BlanksTerminate(js, s.pos + |Text(v)|, a);
    RunValue(js, go, s, pool, v);
    RunBlanks(js, go, AfterValue(v, s), pool, a);
  }

  /** The key of a member up to its value: the key token becomes the parent. */
  lemma RunKey(js: string, go: Rest, s: State, pool: Pool, m: Item) returns (s': State)
    requires IsRun(go, js, pool)
    requires m.Member? && ItemOk(m, true) && At(js, s.pos, ItemText(m))
    requires pool.Tokens? && |s.toks| < pool.n && 0 <= s.super < |s.toks|
    ensures go(s) == go(s')
    ensures s' == KeyRead(s, m)
    ensures At(js, s'.pos, Text(m.value) + m.after)
  {
    var t4 := Text(m.value) + m.after;
    var t3 := m.colonAfter + t4;
    var t2 := [':'] + t3;
    var t1 := m.colonBefore + t2;
    AtSplit(js, s.pos, m.before, QuotedText(m.key) + t1);
    RunBlanks(js, go, s, pool, m.before);
    s' := s.(pos := s.pos + |m.before|);
    AtSplit(js, s'.pos, QuotedText(m.key), t1);
    RunString(js, go, s', pool, m.key);
    s' := AfterString(s', m.key);
    AtSplit(js, s'.pos, m.colonBefore, t2);
    RunBlanks(js, go, s', pool, m.colonBefore);
    s' := s'.(pos := s'.pos + |m.colonBefore|);
    AtSplit(js, s'.pos, [':'], t3);
    RunColon(js, go, s', pool);
    s' := s'.(pos := s'.pos + 1, super := |s'.toks| - 1);
    AtSplit(js, s'.pos, m.colonAfter, t4);
    RunBlanks(js, go, s', pool, m.colonAfter);
    s' := s'.(pos := s'.pos + |m.colonAfter|);
  }

  lemma TopLevel(v: Value, a: string, at: nat)
    ensures AfterPadded(v, a, State(at, -1, [], 0))
         == State(at + |Text(v)| + |a|, -1, Flatten(v, at), |Flatten(v, at)|)
    ensures LastOpen(Flatten(v, at)) == -1
  {
    FlattenClosed(v, at);
    LastOpenIs(Flatten(v, at), -1);
    assert Bump([], -1) + Flatten(v, at) == Flatten(v, at);
  }

  lemma EndsAt(js: string, go: Rest, s: State, last: State, pool: Pool)
    requires IsRun(go, js, pool) && go(s) == go(last) && AtEnd(js, last.pos) && LastOpen(last.toks) == -1
    ensures go(s) == (Done(last.count), last)
  {
    RunEnd(js, go, last, pool);
  }

  lemma TopRoom(v: Value, at: nat, pool: Pool)
    requires pool.Tokens? && |Flatten(v, at)| <= pool.n
    ensures Room(State(at, -1, [], 0), pool, Flatten(v, at))
  {}

  lemma RunTop(js: string, go: Rest, pool: Pool, at: nat, v: Value, after: string)
    requires IsRun(go, js, pool) && At(js, at, Text(v) + after) && |js| == at + |Text(v)| + |after|
    requires ValueOk(v) && Blanks(after) && pool.Tokens? && |Flatten(v, at)| <= pool.n
    ensures
      var toks := Flatten(v, at);
      go(State(at, -1, [], 0)) == (Done(|toks|), State(|js|, -1, toks, |toks|))
  {
    var first, toks := State(at, -1, [], 0), Flatten(v, at);
    TopRoom(v, at, pool);
    RunPadded(js, go, first, pool, v, after);
    TopLevel(v, after, at);
    EndsAt(js, go, first, State(|js|, -1, toks, |toks|), pool);
  }

  lemma RunText(js: string, go: Rest, pool: Pool, before: string, v: Value, after: string)
    requires IsRun(go, js, pool) && js == before + (Text(v) + after)
    requires Blanks(before) && ValueOk(v) && Blanks(after)
    requires pool.Tokens? && |Flatten(v, |before|)| <= pool.n
    ensures
      var toks := Flatten(v, |before|);
      go(Fresh) == (Done(|toks|), State(|js|, -1, toks, |toks|))
  {
    AtSplit(js, 0, before, Text(v) + after);
    RunBlanks(js, go, Fresh, pool, before);
    assert go(Fresh) == go(State(|before|, -1, [], 0));
    RunTop(js, go, pool, |before|, v, after);
  }

  /** Every JSON text with enough tokens is parsed to the flattening of its tree. */
  lemma ParsesJson(before: string, v: Value, after: string, n: nat)
    requires Blanks(before) && ValueOk(v) && Blanks(after)
    requires |Flatten(v, |before|)| <= n
    ensures
      var js, toks := before + (Text(v) + after), Flatten(v, |before|);
      Run(js, Fresh, Tokens(n)) == (Done(|toks|), State(|js|, -1, toks, |toks|))
  {
    var js := before + (Text(v) + after);
    RunText(js, s => Run(js, s, Tokens(n)), Tokens(n), before, v, after);
  }

  /** A dry run over a JSON text tells how many tokens it needs, and no fewer suffice. */
  lemma CountsJson(before: string, v: Value, after: string, n: nat)
    requires Blanks(before) && ValueOk(v) && Blanks(after)
    ensures
      var js, need := before + (Text(v) + after), |Flatten(v, |before|)|;
      && Run(js, Fresh, DryRun).0 == Done(need)
      && (Run(js, Fresh, Tokens(n)).0 == if need <= n then Done(need) else Failed(NoMem))
  {
    var js, need := before + (Text(v) + after), |Flatten(v, |before|)|;
    ParsesJson(before, v, after, need);
    DryRunAgrees(js, need);
    DryRunAgrees(js, n);
    if need <= n {
      ParsesJson(before, v, after, n);
    } else {
      RunValid(js, Fresh, Tokens(n));
      LargerPool(js, Fresh, n, need);
    }
  }

  // ----- Numbers and literals (sections 3 and 6 of RFC 8259)

  datatype Number = Number(minus: bool, whole: string, fraction: Option<string>, exponent: Option<Exponent>)

  datatype Exponent = Exponent(e: char, sign: string, digits: string)

  predicate Digits(t: string) {
    t != [] && forall i :: 0 <= i < |t| ==> '0' <= t[i] <= '9'
  }

  predicate NumberOk(n: Number) {
    && Digits(n.whole) && (n.whole[0] == '0' ==> |n.whole| == 1)
    && (n.fraction.Some? ==> Digits(n.fraction.value))
    && (n.exponent.Some? ==>
          && n.exponent.value.e in "eE" && n.exponent.value.sign in ["", "+", "-"]
          && Digits(n.exponent.value.digits))
  }

  function NumberText(n: Number): string {
    Signed(n) + (FractionText(n) + ExponentText(n))
  }

  function Signed(n: Number): string {
    if n.minus then "-" + n.whole else n.whole
  }

  function FractionText(n: Number): string {
    if n.fraction.None? then "" else "." + n.fraction.value
  }

  function ExponentText(n: Number): string {
    if n.exponent.None? then ""
    else [n.exponent.value.e] + (n.exponent.value.sign + n.exponent.value.digits)
  }

  predicate Bare(t: string) {
    forall i :: 0 <= i < |t| ==> AtomChar(t[i]) && t[i] !in "{[\""
  }

  lemma BareAppend(a: string, b: string)
    requires Bare(a) && Bare(b)
    ensures Bare(a + b)
  {}

  lemma NumberParts(n: Number)
    requires NumberOk(n)
    ensures Bare(Signed(n)) && Signed(n) != [] && Bare(FractionText(n))
  {}

  lemma ExponentPart(n: Number)
    requires NumberOk(n)
    ensures Bare(ExponentText(n))
  {
    if n.exponent.Some? {
      var x := n.exponent.value;
      assert Bare(x.sign) && Bare(x.digits) && Bare([x.e]);
      BareAppend(x.sign, x.digits);
      BareAppend([x.e], x.sign + x.digits);
    }
  }

  /** Every number is text the tokenizer takes for one unquoted value. */
  lemma NumbersAreAtoms(n: Number)
    requires NumberOk(n)
    ensures AtomOk(NumberText(n))
  {
    NumberParts(n);
    ExponentPart(n);
    BareAppend(FractionText(n), ExponentText(n));
    BareAppend(Signed(n), FractionText(n) + ExponentText(n));
    assert NumberText(n)[0] == Signed(n)[0];
  }

  lemma LiteralsAreAtoms()
    ensures AtomOk("true") && AtomOk("false") && AtomOk("null")
  {}
}
