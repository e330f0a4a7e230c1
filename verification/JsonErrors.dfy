/** Which error the tokenizer returns: for every initial part of a JSON text, and for spoilt ones. */
module JsonErrors {
  import opened Queues
  import opened Jsmn
  import opened JsonText

  // ----- Scanning an initial part

  lemma {:induction false} HexRunPrefix(js: string, cut: nat, i: nat, k: nat)
    requires i <= cut <= |js| && HexRun(js, i, k).Some?
    ensures HexRun(js[..cut], i, k) == Some(Min(HexRun(js, i, k).value, cut))
    decreases k
  {
    if k > 0 && i < cut && !AtEnd(js, i) {
      HexRunPrefix(js, cut, i + 1, k - 1);
    }
  }

  /** A string whose closing quote is cut off is unclosed, wherever in an escape it breaks off. */
  lemma {:induction false} StringPrefix(js: string, cut: nat, i: nat)
    requires i <= cut <= |js| && StringEnd(js, i).Closed?
    ensures StringEnd(js[..cut], i) == if StringEnd(js, i).at < cut then StringEnd(js, i) else Unclosed
    decreases |js| - i
  {
    if i < cut && js[i] != '"' {
      if js[i] == '\\' && i + 1 < cut {
        if js[i + 1] == 'u' {
          HexRunPrefix(js, cut, i + 2, 4);
          var j := HexRun(js, i + 2, 4).value;
          if j <= cut {
            StringPrefix(js, cut, j);
          }
        } else if i + 2 <= cut {
          StringPrefix(js, cut, i + 2);
        }
      } else if js[i] != '\\' {
        StringPrefix(js, cut, i + 1);
      }
    }
  }

  lemma {:induction false} PrimitivePrefix(js: string, cut: nat, i: nat)
    requires i <= cut <= |js| && PrimitiveEnd(js, i).Some?
    ensures PrimitiveEnd(js[..cut], i) == Some(Min(PrimitiveEnd(js, i).value, cut))
    decreases |js| - i
  {
    if i < cut && !AtEnd(js, i) && !Delimiter(js[i]) {
      PrimitivePrefix(js, cut, i + 1);
    }
  }

  // ----- Running over an initial part

  /** Tokens stay, and so does the end of a closed one. */
  ghost predicate EndsKept(a: seq<Token>, b: seq<Token>) {
    |a| <= |b| && forall i :: 0 <= i < |a| ==>
      a[i].start == b[i].start && (a[i].end != -1 ==> b[i].end == a[i].end)
  }

  lemma StepKeepsEnds(js: string, s: State, pool: Pool)
    requires !AtEnd(js, s.pos) && Step(js, s, pool).Go?
    ensures EndsKept(s.toks, Step(js, s, pool).s.toks)
  {
    LastOpenMax(s.toks);
  }

  lemma {:induction false} RunKeepsEnds(js: string, s: State, pool: Pool)
    ensures EndsKept(s.toks, Run(js, s, pool).1.toks)
    decreases |js| - s.pos
  {
    if !AtEnd(js, s.pos) && Step(js, s, pool).Go? {
      StepKeepsEnds(js, s, pool);
      RunKeepsEnds(js, Step(js, s, pool).s, pool);
    }
  }

  /** A step that would go past the cut ends there, or fails inside a string. */
  lemma StepPrefix(js: string, cut: nat, s: State, pool: Pool)
    requires s.pos < cut <= |js| && !AtEnd(js, s.pos) && Step(js, s, pool).Go?
    ensures
      var q, r := Step(js, s, pool).s, Step(js[..cut], s, pool);
      if q.pos <= cut then r == Go(q)
      else r == Stop(Partial) || (r.Go? && r.s.pos == cut)
  {
    if js[s.pos] == '"' {
      StringPrefix(js, cut, s.pos + 1);
    } else {
      if PrimitiveEnd(js, s.pos).Some? {
        PrimitivePrefix(js, cut, s.pos);
      }
    }
  }

  /** While a token is open the text cannot end. */
  lemma OpenIsPartial(js: string, s: State, pool: Pool)
    requires AtEnd(js, s.pos) && s.toks != [] && IsOpen(s.toks[0])
    ensures Run(js, s, pool).0 == Failed(Partial)
  {
    LastOpenMax(s.toks);
  }

  /** The first token closes at the end of the text, so it is open until then. */
  lemma StillOpen(js: string, s: State, pool: Pool, cut: nat)
    requires Valid(js, s, pool) && s.pos <= cut && s.toks != []
    requires |Run(js, s, pool).1.toks| > 0 && Run(js, s, pool).1.toks[0].end > cut
    ensures IsOpen(s.toks[0])
  {
    RunKeepsEnds(js, s, pool);
    assert TokenOk(s.pos, s.toks[0]);
  }

  lemma {:induction false} CutInside(js: string, cut: nat, s: State, pool: Pool)
    requires Valid(js, s, pool) && s.pos <= cut <= |js| && s.toks != []
    requires Run(js, s, pool).0.Done? && Run(js, s, pool).1.pos == |js|
    requires |Run(js, s, pool).1.toks| > 0 && Run(js, s, pool).1.toks[0].end > cut
    ensures Run(js[..cut], s, pool).0 == Failed(Partial)
    decreases |js| - s.pos
  {
    StillOpen(js, s, pool, cut);
    if s.pos == cut {
      OpenIsPartial(js[..cut], s, pool);
    } else {
      assert Step(js, s, pool).Go?;
      var q := Step(js, s, pool).s;
      StepValid(js, s, pool);
      StepKeepsEnds(js, s, pool);
      StepPrefix(js, cut, s, pool);
      if q.pos <= cut {
        CutInside(js, cut, q, pool);
      } else if Step(js[..cut], s, pool).Go? {
        CutLeaf(js[..cut], s, pool);
      }
    }
  }

  /** The text ends behind a step that leaves the first token open. */
  lemma CutLeaf(js: string, s: State, pool: Pool)
    requires !AtEnd(js, s.pos) && Step(js, s, pool).Go? && AtEnd(js, Step(js, s, pool).s.pos)
    requires s.toks != [] && IsOpen(s.toks[0]) && js[s.pos] != '}' && js[s.pos] != ']'
    ensures Run(js, s, pool).0 == Failed(Partial)
  {
    OpenIsPartial(js, Step(js, s, pool).s, pool);
  }

  // ----- Initial parts of JSON texts

  /** Up to the value, the initial part behaves as the text. */
  lemma AtValue(before: string, rest: string, cut: nat, pool: Pool)
    requires Blanks(before) && |before| <= cut <= |before| + |rest|
    ensures
      var js, s := before + rest, Fresh.(pos := |before|);
      Run(js, Fresh, pool) == Run(js, s, pool) && Run(js[..cut], Fresh, pool) == Run(js[..cut], s, pool)
  {
    var js := before + rest;
    SkipBlanks(js, Fresh, pool, before);
    SkipBlanks(js[..cut], Fresh, pool, before);
  }

  /** Behind the bracket that opens container `v` at the top level. */
  lemma OpensContainer(js: string, at: nat, v: Value, n: nat)
    requires (v.Arr? || v.Obj?) && at < |js| && js[at] == Text(v)[0] && n >= 1
    ensures Run(js, Fresh.(pos := at), Tokens(n)) == Run(js, Opened(Fresh.(pos := at), KindOf(v)), Tokens(n))
    ensures Valid(js, Opened(Fresh.(pos := at), KindOf(v)), Tokens(n))
  {
    var s := Fresh.(pos := at);
    assert Step(js, s, Tokens(n)) == Go(Opened(Fresh.(pos := at), KindOf(v)));
    LastOpenIs(Opened(Fresh.(pos := at), KindOf(v)).toks, 0);
  }

  lemma CutContainer(before: string, v: Value, after: string, n: nat, cut: nat)
    requires Blanks(before) && ValueOk(v) && Blanks(after) && (v.Arr? || v.Obj?)
    requires |Flatten(v, |before|)| <= n && |before| < cut < |before| + |Text(v)|
    ensures Run((before + (Text(v) + after))[..cut], Fresh, Tokens(n)).0 == Failed(Partial)
  {
    var js, at := before + (Text(v) + after), |before|;
    ParsesJson(before, v, after, n);
    AtValue(before, Text(v) + after, cut, Tokens(n));
    FlattenClosed(v, at);
    assert js[at] == Text(v)[0];
    OpensContainer(js, at, v, n);
    OpensContainer(js[..cut], at, v, n);
    assert Flatten(v, at)[0].end == at + |Text(v)|;
    CutInside(js, cut, Opened(Fresh.(pos := at), KindOf(v)), Tokens(n));
  }

  lemma CutString(before: string, v: Value, after: string, n: nat, cut: nat)
    requires Blanks(before) && ValueOk(v) && v.Quoted? && |before| < cut < |before| + |Text(v)|
    ensures Run((before + (Text(v) + after))[..cut], Fresh, Tokens(n)).0 == Failed(Partial)
  {
    var js := before + (Text(v) + after);
    AtValue(before, Text(v) + after, cut, Tokens(n));
    AtSplit(js, 0, before, Text(v) + after);
    AtSplit(js, |before|, Text(v), after);
    CutQuoted(js, |before|, v.body, Tokens(n), cut);
  }

  lemma CutQuoted(js: string, at: nat, b: seq<StringChar>, pool: Pool, cut: nat)
    requires At(js, at, QuotedText(b)) && BodyOk(b) && at < cut < at + |QuotedText(b)|
    ensures Run(js[..cut], Fresh.(pos := at), pool).0 == Failed(Partial)
  {
    var rest := BodyText(b) + ['"'];
    assert QuotedText(b) == ['"'] + rest;
    AtSplit(js, at, ['"'], rest);
    AtFirst(js, at, ['"']);
    BodyEnd(js, at + 1, b);
    StringPrefix(js, cut, at + 1);
    assert Step(js[..cut], Fresh.(pos := at), pool) == Stop(Partial);
  }

  lemma CutBlanks(before: string, rest: string, n: nat, cut: nat)
    requires Blanks(before) && cut <= |before|
    ensures Run((before + rest)[..cut], Fresh, Tokens(n)).0 == Done(0)
  {
    assert (before + rest)[..cut] == before[..cut];
    SkipBlanks(before[..cut], Fresh, Tokens(n), before[..cut]);
  }

  /** An atom cut short is still one. */
  lemma CutAtom(before: string, v: Value, after: string, n: nat, cut: nat)
    requires Blanks(before) && ValueOk(v) && v.Atom? && n >= 1 && |before| < cut < |before| + |Text(v)|
    ensures Run((before + (Text(v) + after))[..cut], Fresh, Tokens(n)).0 == Done(1)
  {
    var t := v.text[..cut - |before|];
    assert (before + (Text(v) + after))[..cut] == before + (Text(Atom(t)) + []);
    ParsesJson(before, Atom(t), [], n);
  }

  lemma CutBehind(before: string, v: Value, after: string, n: nat, cut: nat)
    requires Blanks(before) && ValueOk(v) && Blanks(after) && |Flatten(v, |before|)| <= n
    requires |before| + |Text(v)| <= cut <= |before| + |Text(v)| + |after|
    ensures Run((before + (Text(v) + after))[..cut], Fresh, Tokens(n)).0 == Done(|Flatten(v, |before|)|)
  {
    var a := after[..cut - |before| - |Text(v)|];
    assert (before + (Text(v) + after))[..cut] == before + (Text(v) + a);
    ParsesJson(before, v, a, n);
  }

  /**
    For every initial part of a JSON text: it is incomplete if and only if it ends inside the
    array, object or string that the text is, at any depth and anywhere in a string or an
    escape. Otherwise it is a text of its own, blank or with the whole value or with the first
    characters of an unquoted one. No other error comes back.
   */
  lemma CutText(before: string, v: Value, after: string, n: nat, cut: nat)
    requires Blanks(before) && ValueOk(v) && Blanks(after) && |Flatten(v, |before|)| <= n
    requires cut <= |before| + |Text(v)| + |after|
    ensures
      var js, need := before + (Text(v) + after), |Flatten(v, |before|)|;
      Run(js[..cut], Fresh, Tokens(n)).0 ==
      if cut <= |before| then Done(0)
      else if cut < |before| + |Text(v)| && !v.Atom? then Failed(Partial)
      else Done(need)
  {
    if cut <= |before| {
      CutBlanks(before, Text(v) + after, n, cut);
    } else if cut >= |before| + |Text(v)| {
      CutBehind(before, v, after, n, cut);
    } else {
      match v
      case Atom(_) => CutAtom(before, v, after, n, cut);
      case Quoted(_) => CutString(before, v, after, n, cut);
      case _ => CutContainer(before, v, after, n, cut);
    }
  }

  // ----- Spoilt texts

  /** Behind leading blanks stands `a`, and there the parse goes on. */
  lemma Behind(before: string, a: string, rest: string, pool: Pool)
    requires Blanks(before)
    ensures
      var js := before + (a + rest);
      At(js, |before|, a) && At(js, |before| + |a|, rest)
      && Run(js, Fresh, pool) == Run(js, Fresh.(pos := |before|), pool)
  {
    var js := before + (a + rest);
    AtSplit(js, 0, before, a + rest);
    AtSplit(js, |before|, a, rest);
    SkipBlanks(js, Fresh, pool, before);
  }

  lemma StopsAt(js: string, go: Rest, s: State, last: State, pool: Pool, e: Error)
    requires IsRun(go, js, pool) && go(s) == go(last) && !AtEnd(js, last.pos) && Step(js, last, pool) == Stop(e)
    ensures go(s) == (Failed(e), last)
  {
    assert Run(js, last, pool) == (Failed(e), last);
  }

  /** A closing bracket with nothing open, or behind an open container of the other kind. */
  lemma BracketStops(js: string, go: Rest, s: State, last: State, pool: Pool, b: char)
    requires IsRun(go, js, pool) && go(s) == go(last) && pool.Tokens? && At(js, last.pos, [b])
    requires (b == ']' || b == '}')
    requires LastOpen(last.toks) == -1 || last.toks[LastOpen(last.toks)].kind == if b == ']' then Object else Array
    ensures go(s) == (Failed(Inval), last)
  {
    AtFirst(js, last.pos, [b]);
    StopsAt(js, go, s, last, pool, Inval);
  }

  lemma BracketAt(js: string, go: Rest, pool: Pool, at: nat, v: Value, after: string, b: char)
    requires IsRun(go, js, pool) && At(js, at, Text(v) + after) && At(js, at + |Text(v)| + |after|, [b])
    requires ValueOk(v) && Blanks(after) && pool.Tokens? && |Flatten(v, at)| <= pool.n && (b == ']' || b == '}')
    ensures go(State(at, -1, [], 0)).0 == Failed(Inval)
  {
    AtFirst(js, at + |Text(v)| + |after|, [b]);
    var s := ValueRead(js, go, pool, at, v, after);
    BracketStops(js, go, State(at, -1, [], 0), s, pool, b);
  }

  /** From the start of a value past the white space behind it. */
  lemma ValueRead(js: string, go: Rest, pool: Pool, at: nat, v: Value, after: string) returns (s: State)
    requires IsRun(go, js, pool) && At(js, at, Text(v) + after) && Terminated(js, at + |Text(v)| + |after|)
    requires ValueOk(v) && Blanks(after) && pool.Tokens? && |Flatten(v, at)| <= pool.n
    ensures go(State(at, -1, [], 0)) == go(s) && s.pos == at + |Text(v)| + |after| && LastOpen(s.toks) == -1
  {
    TopRoom(v, at, pool);
    RunPadded(js, go, State(at, -1, [], 0), pool, v, after);
    TopLevel(v, after, at);
    s := AfterPadded(v, after, State(at, -1, [], 0));
  }

  /** A closing bracket behind the text of a value is invalid. */
  lemma ExtraBracket(before: string, v: Value, after: string, b: char, n: nat)
    requires Blanks(before) && ValueOk(v) && Blanks(after) && |Flatten(v, |before|)| <= n
    requires b == ']' || b == '}'
    ensures Run(before + ((Text(v) + after) + [b]), Fresh, Tokens(n)).0 == Failed(Inval)
  {
    var js := before + ((Text(v) + after) + [b]);
    Behind(before, Text(v) + after, [b], Tokens(n));
    BracketAt(js, s => Run(js, s, Tokens(n)), Tokens(n), |before|, v, after, b);
  }

  /** From the opening bracket past the last item. */
  lemma ItemsRead(js: string, go: Rest, pool: Pool, v: Value, open: char, at: nat) returns (s: State)
    requires IsRun(go, js, pool) && (v.Arr? || v.Obj?) && ValueOk(v) && open == (if v.Arr? then '[' else '{')
    requires pool.Tokens? && |Flatten(v, at)| <= pool.n
    requires At(js, at, [open]) && At(js, at + 1, v.blank) && At(js, at + 1 + |v.blank|, ItemsText(v.items))
    requires Terminated(js, at + 1 + |v.blank| + |ItemsText(v.items)|)
    ensures go(State(at, -1, [], 0)) == go(s) && s.pos == at + 1 + |v.blank| + |ItemsText(v.items)|
    ensures Within(s, 0) && s.toks[0].kind == KindOf(v)
  {
    RunOpen(js, go, State(at, -1, [], 0), pool, KindOf(v), open);
    s := Opened(State(at, -1, [], 0), KindOf(v));
    RunBlanks(js, go, s, pool, v.blank);
    s := s.(pos := s.pos + |v.blank|);
    LastOpenIs(s.toks, 0);
    ItemsRoom(v, at, s, pool);
    var super := RunItems(js, go, s, pool, v.items, 0, v.Obj?);
    StillInside(v, s, super);
    s := AfterItems(v.items, s, 0, super);
  }

  lemma ItemsRoom(v: Value, at: nat, s: State, pool: Pool)
    requires (v.Arr? || v.Obj?) && pool.Tokens? && |Flatten(v, at)| <= pool.n
    requires s == Opened(State(at, -1, [], 0), KindOf(v)).(pos := at + 1 + |v.blank|)
    ensures Room(s, pool, FlattenItems(v.items, s.pos))
  {}

  lemma StillInside(v: Value, s: State, super: int)
    requires (v.Arr? || v.Obj?) && |s.toks| == 1 && IsOpen(s.toks[0]) && s.toks[0].kind == KindOf(v)
    ensures Within(AfterItems(v.items, s, 0, super), 0)
    ensures AfterItems(v.items, s, 0, super).toks[0].kind == KindOf(v)
  {
    FlattenItemsClosed(v.items, s.pos);
    LastOpenIs(Widen(s.toks, 0, Count(v.items)), 0);
    LastOpenAppend(Widen(s.toks, 0, Count(v.items)), FlattenItems(v.items, s.pos));
  }

  lemma WrongAt(js: string, go: Rest, pool: Pool, v: Value, open: char, wrong: char, at: nat)
    requires IsRun(go, js, pool) && (v.Arr? || v.Obj?) && ValueOk(v) && open == (if v.Arr? then '[' else '{')
    requires pool.Tokens? && |Flatten(v, at)| <= pool.n && wrong == if v.Arr? then '}' else ']'
    requires At(js, at, [open]) && At(js, at + 1, v.blank) && At(js, at + 1 + |v.blank|, ItemsText(v.items))
    requires At(js, at + 1 + |v.blank| + |ItemsText(v.items)|, [wrong])
    ensures go(State(at, -1, [], 0)).0 == Failed(Inval)
  {
    AtFirst(js, at + 1 + |v.blank| + |ItemsText(v.items)|, [wrong]);
    var s := ItemsRead(js, go, pool, v, open, at);
    BracketStops(js, go, State(at, -1, [], 0), s, pool, wrong);
  }

  /** The text of a container with another closing bracket and `rest` behind it. */
  function Spoilt(v: Value, open: char, wrong: char, rest: string): string
    requires v.Arr? || v.Obj?
  {
    [open] + (v.blank + (ItemsText(v.items) + ([wrong] + rest)))
  }

  lemma SpoiltParts(js: string, at: nat, v: Value, open: char, wrong: char, rest: string)
    requires (v.Arr? || v.Obj?) && At(js, at, Spoilt(v, open, wrong, rest))
    ensures At(js, at, [open]) && At(js, at + 1, v.blank) && At(js, at + 1 + |v.blank|, ItemsText(v.items))
    ensures At(js, at + 1 + |v.blank| + |ItemsText(v.items)|, [wrong])
  {
    var t3 := [wrong] + rest;
    var t2 := ItemsText(v.items) + t3;
    AtSplit(js, at, [open], v.blank + t2);
    AtSplit(js, at + 1, v.blank, t2);
    AtSplit(js, at + 1 + |v.blank|, ItemsText(v.items), t3);
    AtSplit(js, at + 1 + |v.blank| + |ItemsText(v.items)|, [wrong], rest);
  }

  lemma SpoiltStart(before: string, v: Value, open: char, wrong: char, rest: string, pool: Pool)
    requires Blanks(before) && (v.Arr? || v.Obj?)
    ensures
      var js, at := before + Spoilt(v, open, wrong, rest), |before|;
      && At(js, at, [open]) && At(js, at + 1, v.blank) && At(js, at + 1 + |v.blank|, ItemsText(v.items))
      && At(js, at + 1 + |v.blank| + |ItemsText(v.items)|, [wrong])
      && Run(js, Fresh, pool) == Run(js, State(at, -1, [], 0), pool)
  {
    var text := Spoilt(v, open, wrong, rest);
    assert text + [] == text;
    Behind(before, text, [], pool);
    SpoiltParts(before + text, |before|, v, open, wrong, rest);
  }

  /** A container closed by the bracket of the other kind is invalid, whatever comes behind. */
  lemma WrongBracket(before: string, v: Value, n: nat, rest: string)
    requires Blanks(before) && ValueOk(v) && (v.Arr? || v.Obj?) && |Flatten(v, |before|)| <= n
    ensures
      var js := before + Spoilt(v, if v.Arr? then '[' else '{', if v.Arr? then '}' else ']', rest);
      Run(js, Fresh, Tokens(n)).0 == Failed(Inval)
  {
    var open, wrong := if v.Arr? then '[' else '{', if v.Arr? then '}' else ']';
    var js := before + Spoilt(v, open, wrong, rest);
    SpoiltStart(before, v, open, wrong, rest, Tokens(n));
    WrongAt(js, s => Run(js, s, Tokens(n)), Tokens(n), v, open, wrong, |before|);
  }

  lemma {:induction false} EscapeFails(js: string, i: nat, b: seq<StringChar>, c: char)
    requires At(js, i, BodyText(b) + ['\\', c]) && BodyOk(b) && !JsonEscape(c) && c != 'u'
    ensures StringEnd(js, i) == BadEscape
    decreases |b|
  {
    var bad := ['\\', c];
    if b == [] {
      assert BodyText(b) + bad == bad;
      AtTwo(js, i, '\\', c);
    } else {
      var h, t := CharText(b[0]), BodyText(b[1..]);
      assert BodyText(b) + bad == h + (t + bad) by {
        BodyUnfold(b);
        Associate(h, t, bad);
      }
      AtSplit(js, i, h, t + bad);
      CharSkip(js, i, b[0]);
      EscapeFails(js, i + |h|, b[1..], c);
    }
  }

  lemma AtTwo(js: string, i: nat, a: char, b: char)
    requires At(js, i, [a, b])
    ensures i + 1 < |js| && js[i] == a && js[i + 1] == b
  {
    assert js[i + 0] == [a, b][0] && js[i + 1] == [a, b][1];
  }

  lemma EscapeStops(js: string, s: State, pool: Pool, b: seq<StringChar>, c: char)
    requires At(js, s.pos, ['"']) && At(js, s.pos + 1, BodyText(b) + ['\\', c])
    requires BodyOk(b) && !JsonEscape(c) && c != 'u'
    ensures Run(js, s, pool).0 == Failed(Inval)
  {
    AtFirst(js, s.pos, ['"']);
    EscapeFails(js, s.pos + 1, b, c);
  }

  /** A string with an escape that JSON does not have is invalid, whatever comes behind. */
  lemma WrongEscape(before: string, b: seq<StringChar>, c: char, rest: string, n: nat)
    requires Blanks(before) && BodyOk(b) && !JsonEscape(c) && c != 'u'
    ensures Run(before + (['"'] + ((BodyText(b) + ['\\', c]) + rest)), Fresh, Tokens(n)).0 == Failed(Inval)
  {
    var body := BodyText(b) + ['\\', c];
    var js, at := before + (['"'] + (body + rest)), |before|;
    Behind(before, ['"'], body + rest, Tokens(n));
    AtSplit(js, at + 1, body, rest);
    EscapeStops(js, Fresh.(pos := at), Tokens(n), b, c);
  }

  lemma {:induction false} CharacterFails(js: string, i: nat, t: string, c: char)
    requires At(js, i, t + [c]) && forall k :: 0 <= k < |t| ==> AtomChar(t[k])
    requires c != '\0' && !JsonBlank(c) && (c as int < 32 || c as int >= 127)
    ensures PrimitiveEnd(js, i) == None
    decreases |t|
  {
    if t == [] {
      assert t + [c] == [c];
      AtFirst(js, i, [c]);
    } else {
      assert t + [c] == [t[0]] + (t[1..] + [c]);
      AtSplit(js, i, [t[0]], t[1..] + [c]);
      AtFirst(js, i, [t[0]]);
      CharacterFails(js, i + 1, t[1..], c);
    }
  }

  lemma CharacterStops(js: string, s: State, pool: Pool, t: string, c: char)
    requires At(js, s.pos, t + [c]) && AtomOk(t)
    requires c != '\0' && !JsonBlank(c) && (c as int < 32 || c as int >= 127)
    ensures Run(js, s, pool).0 == Failed(Inval)
  {
    AtFirst(js, s.pos, t + [c]);
    CharacterFails(js, s.pos, t, c);
  }

  /** A control character or one beyond ASCII in an unquoted value is invalid. */
  lemma WrongCharacter(before: string, t: string, c: char, rest: string, n: nat)
    requires Blanks(before) && AtomOk(t) && c != '\0' && !JsonBlank(c) && (c as int < 32 || c as int >= 127)
    ensures Run(before + ((t + [c]) + rest), Fresh, Tokens(n)).0 == Failed(Inval)
  {
    var js := before + ((t + [c]) + rest);
    Behind(before, t + [c], rest, Tokens(n));
    CharacterStops(js, Fresh.(pos := |before|), Tokens(n), t, c);
  }
}
