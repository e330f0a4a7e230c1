/**
  When `jsmn_parse` reads `tokens[-1]`: a scan of the text alone, with no token array and no
  parent index, finds the comma at which every parse with enough tokens does so.
 */
module JsonCommas {
  import opened Queues
  import opened Jsmn

  /** What a reader of the text has seen: the containers open, whether some token is the
      parent, and how many tokens there were. */
  datatype Scan = Scan(open: seq<Kind>, parent: bool, count: nat)

  datatype ScanNext = On(next: nat, sc: Scan) | Orphan | Ends

  function ScanOpen(sc: Scan, pos: nat, kind: Kind): ScanNext {
    On(pos + 1, Scan(sc.open + [kind], true, sc.count + 1))
  }

  function ScanClose(sc: Scan, pos: nat, kind: Kind): ScanNext {
    var n := |sc.open|;
    if n == 0 || sc.open[n - 1] != kind then Ends
    else On(pos + 1, Scan(sc.open[..n - 1], n > 1, sc.count))
  }

  function ScanChar(js: string, pos: nat, sc: Scan): (r: ScanNext)
    requires !AtEnd(js, pos)
    ensures r.On? ==> pos < r.next <= |js|
  {
    var c := js[pos];
    if c == '{' then ScanOpen(sc, pos, Object)
    else if c == '[' then ScanOpen(sc, pos, Array)
    else if c == '}' then ScanClose(sc, pos, Object)
    else if c == ']' then ScanClose(sc, pos, Array)
    else if c == '"' then
      match StringEnd(js, pos + 1)
      case Closed(q) => On(q + 1, sc.(count := sc.count + 1))
      case _ => Ends
    else if Blank(c) then On(pos + 1, sc)
    else if c == ':' then On(pos + 1, sc.(parent := sc.count > 0))
    else if c == ',' then (if sc.parent then On(pos + 1, sc) else Orphan)
    else
      match PrimitiveEnd(js, pos)
      case Some(e) => On(e, sc.(count := sc.count + 1))
      case None => Ends
  }

  /** The number of tokens in front of the first comma without a parent. */
  function OrphanComma(js: string, pos: nat, sc: Scan): Option<nat>
    decreases |js| - pos
  {
    if AtEnd(js, pos) then None
    else
      match ScanChar(js, pos, sc)
      case On(next, sc') => OrphanComma(js, next, sc')
      case Orphan => Some(sc.count)
      case Ends => None
  }

  const Start: Scan := Scan([], false, 0)

  // ----- The scan follows the parser

  /** The kinds of the open containers, outermost first. */
  function OpenKinds(toks: seq<Token>): seq<Kind> {
    if toks == [] then []
    else
      var t := toks[|toks| - 1];
      OpenKinds(toks[..|toks| - 1]) + if IsOpen(t) then [t.kind] else []
  }

  lemma OpenAppend(toks: seq<Token>, t: Token)
    ensures OpenKinds(toks + [t]) == OpenKinds(toks) + if IsOpen(t) then [t.kind] else []
  {
    assert (toks + [t])[..|toks|] == toks;
  }

  lemma {:induction false} OpenBump(toks: seq<Token>, i: int)
    ensures OpenKinds(Bump(toks, i)) == OpenKinds(toks)
  {
    if toks != [] {
      var n := |toks| - 1;
      OpenBump(toks[..n], i);
      assert Bump(toks, i)[..n] == Bump(toks[..n], i);
    }
  }

  lemma {:induction false} OpenClosed(toks: seq<Token>, c: nat)
    requires c <= |toks| && forall k :: c <= k < |toks| ==> !IsOpen(toks[k])
    ensures OpenKinds(toks) == OpenKinds(toks[..c])
    decreases |toks|
  {
    var n := |toks| - 1;
    if c <= n {
      OpenClosed(toks[..n], c);
      assert toks[..n][..c] == toks[..c];
    } else {
      assert toks[..c] == toks;
    }
  }

  /** The innermost open container is the last of the kinds; closing it drops that one. */
  lemma OpenLast(toks: seq<Token>)
    ensures LastOpen(toks) == -1 <==> OpenKinds(toks) == []
    ensures
      var c := LastOpen(toks);
      c != -1 ==> OpenKinds(toks) == OpenKinds(toks[..c]) + [toks[c].kind]
  {
    LastOpenMax(toks);
    var c := LastOpen(toks);
    if c == -1 {
      OpenClosed(toks, 0);
      assert toks[..0] == [];
    } else {
      OpenClosed(toks, c + 1);
      assert toks[..c + 1] == toks[..c] + [toks[c]];
      OpenAppend(toks[..c], toks[c]);
    }
  }

  lemma CloseKinds(toks: seq<Token>, end: nat)
    requires LastOpen(toks) != -1
    ensures
      var c := LastOpen(toks);
      OpenKinds(toks[c := toks[c].(end := end)]) == OpenKinds(toks[..c])
  {
    LastOpenMax(toks);
    var c := LastOpen(toks);
    var toks' := toks[c := toks[c].(end := end)];
    OpenClosed(toks', c);
    assert toks'[..c] == toks[..c];
  }

  /** The scan has seen what the parser holds. */
  ghost predicate Follows(s: State, sc: Scan) {
    && sc.open == OpenKinds(s.toks) && sc.count == |s.toks|
    && -1 <= s.super < |s.toks| && (sc.parent <==> s.super != -1)
  }

  lemma LeafFollows(s: State, sc: Scan, n: nat, t: Token, next: nat)
    requires Follows(s, sc) && !IsOpen(t)
    ensures
      var r := AddLeaf(s, Tokens(n), t, next);
      if n <= |s.toks| then r == Stop(NoMem)
      else r.Go? && r.s.pos == next && Follows(r.s, sc.(count := sc.count + 1))
  {
    OpenBump(s.toks, s.super);
    OpenAppend(Bump(s.toks, s.super), t);
  }

  lemma OpenFollows(s: State, sc: Scan, n: nat, kind: Kind)
    requires Follows(s, sc)
    ensures
      var r := OpenContainer(s, Tokens(n), kind);
      if n <= |s.toks| then r == Stop(NoMem)
      else r.Go? && r.s.pos == s.pos + 1 && Follows(r.s, ScanOpen(sc, s.pos, kind).sc)
  {
    OpenBump(s.toks, s.super);
    OpenAppend(Bump(s.toks, s.super), Token(kind, s.pos, -1, 0));
  }

  lemma CloseFollows(s: State, sc: Scan, n: nat, kind: Kind)
    requires Follows(s, sc)
    ensures
      var r, q := CloseContainer(s, Tokens(n), kind), ScanClose(sc, s.pos, kind);
      if q.Ends? then r == Stop(Inval)
      else q.On? && r.Go? && r.s.pos == s.pos + 1 == q.next && Follows(r.s, q.sc)
  {
    OpenLast(s.toks);
    if LastOpen(s.toks) != -1 {
      Closing(s.toks, s.pos + 1);
    }
  }

  lemma Closing(toks: seq<Token>, end: nat)
    requires LastOpen(toks) != -1
    ensures
      var c, o := LastOpen(toks), OpenKinds(toks);
      && o != [] && o[|o| - 1] == toks[c].kind
      && OpenKinds(toks[c := toks[c].(end := end)]) == o[..|o| - 1]
      && (LastOpen(toks[..c]) != -1 <==> |o| > 1)
  {
    var c := LastOpen(toks);
    OpenLast(toks);
    DropLast(OpenKinds(toks[..c]), toks[c].kind);
    CloseKinds(toks, end);
    OpenLast(toks[..c]);
  }

  lemma DropLast(q: seq<Kind>, k: Kind)
    ensures var r := q + [k]; r[|r| - 1] == k && r[..|r| - 1] == q
  {}

  lemma CommaFollows(s: State, sc: Scan, n: nat)
    requires Follows(s, sc)
    ensures
      var r := AtComma(s, Tokens(n));
      if !sc.parent then r == Stop(Undefined)
      else r.Go? && r.s.pos == s.pos + 1 && Follows(r.s, sc)
  {}

  /** One character: both go on together, or both end, or the parser lacks a token. */
  ghost predicate Together(r: Next, q: ScanNext, n: nat, count: nat) {
    match q
    case Orphan => r == Stop(Undefined)
    case Ends => r.Stop? && r.error != Undefined && r.error != NoMem
    case On(next, sc') =>
      if r.Go? then r.s.pos == next && Follows(r.s, sc')
      else r.error == NoMem && n <= count
  }

  lemma CharFollows(js: string, s: State, sc: Scan, n: nat)
    requires Follows(s, sc) && !AtEnd(js, s.pos)
    ensures Together(Step(js, s, Tokens(n)), ScanChar(js, s.pos, sc), n, sc.count)
  {
    var c := js[s.pos];
    if c == '{' || c == '[' {
      OpenFollows(s, sc, n, if c == '{' then Object else Array);
    } else if c == '}' || c == ']' {
      CloseFollows(s, sc, n, if c == '}' then Object else Array);
    } else if c == '"' {
      var q := StringEnd(js, s.pos + 1);
      if q.Closed? {
        LeafFollows(s, sc, n, Token(String, s.pos + 1, q.at, 0), q.at + 1);
      }
    } else if Blank(c) || c == ':' {
    } else if c == ',' {
      CommaFollows(s, sc, n);
    } else {
      var e := PrimitiveEnd(js, s.pos);
      if e.Some? {
        LeafFollows(s, sc, n, Token(Primitive, s.pos, e.value, 0), e.value);
      }
    }
  }

  lemma {:induction false} OrphanCountGrows(js: string, pos: nat, sc: Scan)
    ensures OrphanComma(js, pos, sc).Some? ==> OrphanComma(js, pos, sc).value >= sc.count
    decreases |js| - pos
  {
    if !AtEnd(js, pos) {
      var q := ScanChar(js, pos, sc);
      if q.On? {
        OrphanCountGrows(js, q.next, q.sc);
      }
    }
  }

  lemma {:induction false} RunOrphan(js: string, s: State, sc: Scan, n: nat)
    requires Follows(s, sc) && |s.toks| <= n
    ensures
      var k := OrphanComma(js, s.pos, sc);
      Run(js, s, Tokens(n)).0 == Failed(Undefined) <==> k.Some? && k.value <= n
    decreases |js| - s.pos
  {
    if !AtEnd(js, s.pos) {
      CharFollows(js, s, sc, n);
      var r, q := Step(js, s, Tokens(n)), ScanChar(js, s.pos, sc);
      if r.Go? {
        assert |r.s.toks| <= n;
        RunOrphan(js, r.s, q.sc, n);
      } else if q.On? {
        OrphanCountGrows(js, q.next, q.sc);
      }
    }
  }

  // ----- The theorems

  /**
    For every text and every number of tokens: the parse reads `tokens[-1]` if and only if the
    text has a comma without a parent and the tokens in front of it fit the array.
   */
  lemma UndefinedRead(js: string, n: nat)
    ensures
      var k := OrphanComma(js, 0, Start);
      Run(js, Fresh, Tokens(n)).0 == Failed(Undefined) <==> k.Some? && k.value <= n
  {
    RunOrphan(js, Fresh, Start, n);
  }

  /** A dry run never does. */
  lemma {:induction false} DryRunDefined(js: string, s: State)
    ensures Run(js, s, DryRun).0 != Failed(Undefined)
    decreases |js| - s.pos
  {
    if !AtEnd(js, s.pos) && Step(js, s, DryRun).Go? {
      DryRunDefined(js, Step(js, s, DryRun).s);
    }
  }

  /** Every comma that is read as such stands inside an open bracket. */
  predicate CommasInside(js: string, pos: nat, sc: Scan)
    decreases |js| - pos
  {
    AtEnd(js, pos) ||
    ((js[pos] == ',' ==> sc.open != [])
     && (ScanChar(js, pos, sc).On? ==> CommasInside(js, ScanChar(js, pos, sc).next, ScanChar(js, pos, sc).sc)))
  }

  lemma {:induction false} InsideHasParent(js: string, pos: nat, sc: Scan)
    requires CommasInside(js, pos, sc) && |sc.open| <= sc.count && (sc.open != [] ==> sc.parent)
    ensures OrphanComma(js, pos, sc).None?
    decreases |js| - pos
  {
    if !AtEnd(js, pos) && ScanChar(js, pos, sc).On? {
      InsideHasParent(js, ScanChar(js, pos, sc).next, ScanChar(js, pos, sc).sc);
    }
  }

  /** Commas inside open brackets only: no parse of the text reads `tokens[-1]`. */
  lemma CommasInsideDefined(js: string, pool: Pool)
    requires CommasInside(js, 0, Start)
    ensures Run(js, Fresh, pool).0 != Failed(Undefined)
  {
    InsideHasParent(js, 0, Start);
    match pool
    case DryRun => DryRunDefined(js, Fresh);
    case Tokens(n) => UndefinedRead(js, n);
  }

  /** Two texts that fail, the second behind a complete value. */
  lemma FailingTexts()
    ensures Run(",", Fresh, Tokens(1)).0 == Failed(Undefined)
    ensures Run("[],", Fresh, Tokens(1)).0 == Failed(Undefined)
  {
    UndefinedRead(",", 1);
    assert OrphanComma(",", 0, Start) == Some(0);
    UndefinedRead("[],", 1);
    var js := "[],";
    var inside := Scan([Array], true, 1);
    assert ScanChar(js, 0, Start) == On(1, inside);
    assert ScanChar(js, 1, inside) == On(2, Scan([], false, 1));
    assert OrphanComma(js, 2, Scan([], false, 1)) == Some(1);
    assert OrphanComma(js, 1, inside) == Some(1);
  }

  /** Outside every bracket, but behind a colon, a comma has a parent. */
  lemma ColonGivesParent()
    ensures Run("1:,", Fresh, Tokens(1)).0 == Done(1) && !CommasInside("1:,", 0, Start)
  {
    var js := "1:,";
    var s1, s2 := State(1, -1, [Token(Primitive, 0, 1, 0)], 1), State(2, 0, [Token(Primitive, 0, 1, 0)], 1);
    assert PrimitiveEnd(js, 0) == Some(1) by {
      assert PrimitiveEnd(js, 1) == Some(1);
    }
    assert Step(js, Fresh, Tokens(1)) == Go(s1);
    assert Step(js, s1, Tokens(1)) == Go(s2);
    assert Step(js, s2, Tokens(1)) == Go(s2.(pos := 3));
    assert Run(js, s2, Tokens(1)).0 == Done(1);
    assert Run(js, s1, Tokens(1)).0 == Done(1);
    assert ScanChar(js, 0, Start) == On(1, Scan([], false, 1));
    assert ScanChar(js, 1, Scan([], false, 1)) == On(2, Scan([], true, 1));
    assert !CommasInside(js, 2, Scan([], true, 1));
    assert !CommasInside(js, 1, Scan([], false, 1));
  }
}
