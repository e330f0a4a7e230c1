/**
  The two allocators at work on one page allocator: whole runs of `rumpuser_malloc`,
  `rumpuser_free`, `bmk_memalloc` and `bmk_memfree`.
 */
module RumpRuns {
  import opened Dyadic
  import opened FreeBlocks
  import opened Queues
  import opened Pgalloc
  import opened Memalloc
  import opened RumpuserMem

  /** The kernel asks `rumpuser_malloc`, others the block allocator; what is freed is named by number. */
  datatype Call =
    | Kernel(len: nat, alignment: nat)
    | Other(nbytes: nat, align: nat, who: Who)
    | Free(i: nat)

  /** Memory handed out: a region of the block allocator, or pages from frame `f` on. */
  datatype Held =
    | Region(p: nat, len: nat, who: Who)
    | Pages(f: nat, len: nat)

  const PAGES_MAX: nat := PAGE_SIZE * FRAME_LIMIT / 2

  /** No assertion of the allocators fails and no size wraps. */
  predicate CallOk(c: Call) {
    match c
    case Kernel(len, alignment) =>
      if len < PAGE_SIZE then BlockOk(len, alignment) else len <= PAGES_MAX && AtMostOneBit(alignment)
    case Other(nbytes, align, _) => BlockOk(nbytes, align)
    case Free(_) => true
  }

  predicate BlockOk(nbytes: nat, align: nat) {
    AtMostOneBit(align) ==> align <= MAX_ALIGN && nbytes + Effective(align) <= MAX_BLOCK
  }

  /** The order of the pages for `len` bytes. */
  function PageOrder(len: nat): nat {
    if len < PAGE_SIZE then 0 else
      OrderFits(len);
      Len2Order(len)
  }

  /** Frames `lo` to `hi` are managed; `free` are free, `taken` the block allocator's. */
  datatype Frames = Frames(lo: nat, hi: nat, free: set<nat>, taken: set<nat>)

  /** A block of frames that belongs to neither. */
  ghost predicate Lent(s: Frames, f: nat, k: nat) {
    && Aligned(f, k) && s.lo <= f && f + Pow2(k) <= s.hi
    && forall x: nat {:trigger x in s.free} {:trigger x in s.taken} :: f <= x < f + Pow2(k) ==>
        x !in s.free && x !in s.taken
  }

  ghost predicate HeldOk(live: map<nat, Memalloc.Region>, s: Frames, g: Held) {
    match g
    case Region(p, len, who) => p in live && live[p].nbytes == len && live[p].who == who
    case Pages(f, len) => PAGE_SIZE <= len <= PAGES_MAX && Lent(s, f, PageOrder(len))
  }

  predicate Beside(f: nat, j: nat, g: nat, k: nat) {
    f + Pow2(j) <= g || g + Pow2(k) <= f
  }

  /** Regions have different pointers, pages no frame in common. */
  predicate Distinct(a: Held, b: Held) {
    match a
    case Region(p, _, _) => b.Region? ==> p != b.p
    case Pages(f, len) => b.Pages? ==> Beside(f, PageOrder(len), b.f, PageOrder(b.len))
  }

  ghost predicate EachOk(live: map<nat, Memalloc.Region>, s: Frames, out: seq<Held>) {
    forall i {:trigger out[i]} :: 0 <= i < |out| ==> HeldOk(live, s, out[i])
  }

  ghost predicate AllDistinct(out: seq<Held>) {
    forall i, j {:trigger out[i], out[j]} :: 0 <= i < j < |out| ==> Distinct(out[i], out[j])
  }

  ghost predicate AllHeld(live: map<nat, Memalloc.Region>, s: Frames, out: seq<Held>) {
    EachOk(live, s, out) && AllDistinct(out)
  }

  ghost function State(m: MemAllocator): Frames
    reads m, m.pg
  {
    Frames(m.pg.minPage, m.pg.maxPage, m.pg.free, m.heap.taken)
  }

  /** Frames outside both stay outside: none turns up that was not there. */
  ghost predicate NoneTurnsUp(s: Frames, s': Frames) {
    && s'.lo == s.lo && s'.hi == s.hi
    && forall x: nat {:trigger x in s'.free} {:trigger x in s'.taken} ::
         x in s'.free || x in s'.taken ==> x in s.free || x in s.taken
  }

  lemma LentStays(s: Frames, s': Frames, f: nat, k: nat)
    requires Lent(s, f, k) && NoneTurnsUp(s, s')
    ensures Lent(s', f, k)
  {}

  /** Regions that are still live and pages that are still lent. */
  lemma EachStays(live: map<nat, Memalloc.Region>, s: Frames, live': map<nat, Memalloc.Region>, s': Frames,
                  out: seq<Held>)
    requires EachOk(live, s, out) && NoneTurnsUp(s, s')
    requires forall i {:trigger out[i]} :: 0 <= i < |out| && out[i].Region? && out[i].p in live ==>
      out[i].p in live' && live'[out[i].p] == live[out[i].p]
    ensures EachOk(live', s', out)
  {
    forall i | 0 <= i < |out| ensures HeldOk(live', s', out[i]) {
      assert HeldOk(live, s, out[i]);
      if out[i].Pages? {
        LentStays(s, s', out[i].f, PageOrder(out[i].len));
      }
    }
  }

  lemma AddHeld(live: map<nat, Memalloc.Region>, s: Frames, out: seq<Held>, g: Held)
    requires AllHeld(live, s, out) && HeldOk(live, s, g)
    requires forall i {:trigger out[i]} :: 0 <= i < |out| ==> Distinct(out[i], g)
    ensures AllHeld(live, s, out + [g])
  {}

  /** A new region of the block allocator. */
  lemma NewRegionHeld(live: map<nat, Memalloc.Region>, s: Frames, live': map<nat, Memalloc.Region>, s': Frames,
                      out: seq<Held>, p: nat, pad: nat, len: nat, who: Who)
    requires AllHeld(live, s, out) && NoneTurnsUp(s, s') && Added(live, live', p, pad, len, who)
    ensures AllHeld(live', s', out + [Held.Region(p, len, who)])
  {
    EachStays(live, s, live', s', out);
    forall i | 0 <= i < |out| ensures Distinct(out[i], Held.Region(p, len, who)) {
      assert HeldOk(live, s, out[i]);
    }
    AddHeld(live', s', out, Held.Region(p, len, who));
  }

  /** New pages. */
  lemma NewPagesHeld(live: map<nat, Memalloc.Region>, s: Frames, s': Frames, out: seq<Held>, f: nat, len: nat)
    requires AllHeld(live, s, out) && PAGE_SIZE <= len <= PAGES_MAX && Aligned(f, PageOrder(len))
    requires Covered(s.free, f, PageOrder(len)) && s.free !! s.taken && Managed(s)
    requires s' == s.(free := s.free - Block(f, PageOrder(len)))
    ensures AllHeld(live, s', out + [Pages(f, len)])
  {
    EachStays(live, s, live, s', out);
    CoveredEnds(s.free, f, PageOrder(len));
    forall i | 0 <= i < |out| ensures Distinct(out[i], Pages(f, len)) {
      assert HeldOk(live, s, out[i]);
      if out[i].Pages? {
        LentBeside(s, out[i].f, PageOrder(out[i].len), f, PageOrder(len));
      }
    }
    AddHeld(live, s', out, Pages(f, len));
  }

  ghost predicate Managed(s: Frames) {
    forall x: nat {:trigger x in s.free} :: x in s.free ==> s.lo <= x < s.hi
  }

  lemma LentBeside(s: Frames, f: nat, j: nat, g: nat, k: nat)
    requires Lent(s, f, j) && Covered(s.free, g, k)
    ensures Beside(f, j, g, k)
  {
    var x := if f < g then g else f;
    assert f <= x < f + Pow2(j) && g <= x < g + Pow2(k) ==> x in s.free;
  }

  function Without(out: seq<Held>, i: nat): seq<Held>
    requires i < |out|
  {
    out[..i] + out[i + 1..]
  }

  lemma WithoutAt(out: seq<Held>, i: nat, j: nat)
    requires i < |out| && j < |out| - 1
    ensures |Without(out, i)| == |out| - 1 && Without(out, i)[j] == out[if j < i then j else j + 1]
  {}

  lemma WithoutHeld(live: map<nat, Memalloc.Region>, s: Frames, out: seq<Held>, i: nat)
    requires AllHeld(live, s, out) && i < |out|
    ensures AllHeld(live, s, Without(out, i))
    ensures forall j {:trigger Without(out, i)[j]} :: 0 <= j < |Without(out, i)| ==>
      Distinct(Without(out, i)[j], out[i]) || Distinct(out[i], Without(out, i)[j])
  {
    var out' := Without(out, i);
    forall j | 0 <= j < |out'|
      ensures HeldOk(live, s, out'[j]) && (Distinct(out'[j], out[i]) || Distinct(out[i], out'[j]))
    {
      WithoutAt(out, i, j);
      assert HeldOk(live, s, out[if j < i then j else j + 1]);
    }
    forall j, k | 0 <= j < k < |out'| ensures Distinct(out'[j], out'[k]) {
      WithoutAt(out, i, j);
      WithoutAt(out, i, k);
    }
  }

  /** A region given back. */
  lemma RegionFreed(live: map<nat, Memalloc.Region>, s: Frames, s': Frames, out: seq<Held>, i: nat)
    requires AllHeld(live, s, out) && i < |out| && out[i].Region? && NoneTurnsUp(s, s')
    ensures AllHeld(live - {out[i].p}, s', Without(out, i))
  {
    WithoutHeld(live, s, out, i);
    EachStays(live, s, live - {out[i].p}, s', Without(out, i));
  }

  /** Pages given back. */
  lemma PagesFreed(live: map<nat, Memalloc.Region>, s: Frames, s': Frames, out: seq<Held>, i: nat)
    requires AllHeld(live, s, out) && i < |out| && out[i].Pages?
    requires s' == s.(free := s.free + Block(out[i].f, PageOrder(out[i].len)))
    ensures AllHeld(live, s', Without(out, i))
  {
    var out' := Without(out, i);
    WithoutHeld(live, s, out, i);
    forall j | 0 <= j < |out'| ensures HeldOk(live, s', out'[j]) {
      assert HeldOk(live, s, out'[j]);
    }
  }

  /** What is outstanding after a call that returned `r`, an address or a frame. */
  function Next(out: seq<Held>, c: Call, r: Option<nat>): seq<Held> {
    match c
    case Kernel(len, _) =>
      if r.None? then out
      else out + [if len < PAGE_SIZE then Held.Region(r.value, len, RumpKern) else Pages(r.value, len)]
    case Other(nbytes, _, who) => if r.None? then out else out + [Held.Region(r.value, nbytes, who)]
    case Free(i) => if i < |out| then Without(out, i) else out
  }

  function Replay(calls: seq<Call>, results: seq<Option<nat>>): seq<Held>
    requires |calls| == |results|
  {
    if calls == [] then []
    else
      var n := |calls| - 1;
      Next(Replay(calls[..n], results[..n]), calls[n], results[n])
  }

  ghost predicate InPages(g: Held, x: nat) {
    g.Pages? && g.f <= x < g.f + Pow2(PageOrder(g.len))
  }

  /** Every managed frame is free, the block allocator's, or in pages handed out. */
  ghost predicate NoneLost(s: Frames, out: seq<Held>) {
    forall x: nat {:trigger x in s.free} {:trigger x in s.taken} :: s.lo <= x < s.hi ==>
      x in s.free || x in s.taken || exists i :: 0 <= i < |out| && InPages(out[i], x)
  }

  /** Every live region is handed out. */
  ghost predicate NoneLeaked(live: map<nat, Memalloc.Region>, out: seq<Held>) {
    forall p: nat {:trigger p in live} :: p in live ==> exists i :: 0 <= i < |out| && out[i].Region? && out[i].p == p
  }

  /** What is handed out is sound and complete. */
  ghost predicate Served(live: map<nat, Memalloc.Region>, s: Frames, out: seq<Held>) {
    AllHeld(live, s, out) && NoneLost(s, out) && NoneLeaked(live, out)
  }

  lemma MoreKept(live: map<nat, Memalloc.Region>, s: Frames, out: seq<Held>, g: Held)
    requires NoneLost(s, out) && NoneLeaked(live, out)
    ensures NoneLost(s, out + [g]) && NoneLeaked(live, out + [g])
  {
    var out' := out + [g];
    forall x: nat | s.lo <= x < s.hi && x !in s.free && x !in s.taken
      ensures exists i :: 0 <= i < |out'| && InPages(out'[i], x)
    {
      var i :| 0 <= i < |out| && InPages(out[i], x);
      assert out'[i] == out[i];
    }
    forall p: nat | p in live ensures exists i :: 0 <= i < |out'| && out'[i].Region? && out'[i].p == p {
      var i :| 0 <= i < |out| && out[i].Region? && out[i].p == p;
      assert out'[i] == out[i];
    }
  }

  /** Dropping an entry loses its own frames and region only. */
  lemma LessKept(live: map<nat, Memalloc.Region>, s: Frames, out: seq<Held>, i: nat)
    requires NoneLost(s, out) && NoneLeaked(live, out) && i < |out|
    ensures
      var s' := if out[i].Pages? then s.(free := s.free + Block(out[i].f, PageOrder(out[i].len))) else s;
      NoneLost(s', Without(out, i))
    ensures NoneLeaked(if out[i].Region? then live - {out[i].p} else live, Without(out, i))
  {
    var out' := Without(out, i);
    forall x: nat | s.lo <= x < s.hi && x !in s.free && x !in s.taken && !InPages(out[i], x)
      ensures exists j :: 0 <= j < |out'| && InPages(out'[j], x)
    {
      var j :| 0 <= j < |out| && InPages(out[j], x);
      WithoutAt(out, i, if j < i then j else j - 1);
      assert InPages(out'[if j < i then j else j - 1], x);
    }
    forall p: nat | p in live && !(out[i].Region? && out[i].p == p)
      ensures exists j :: 0 <= j < |out'| && out'[j].Region? && out'[j].p == p
    {
      var j :| 0 <= j < |out| && out[j].Region? && out[j].p == p;
      WithoutAt(out, i, if j < i then j else j - 1);
      assert out'[if j < i then j else j - 1].p == p;
    }
  }

  /**
    Serves a run of calls of both kinds on one page allocator: what is outstanding are exactly
    the live regions and the pages that neither allocator counts as its own; no frame is lost.
   */
  method Serve(m: MemAllocator, calls: seq<Call>) returns (out: seq<Held>, results: seq<Option<nat>>)
    requires m.Valid() && m.heap.live == map[] && NoneLost(State(m), [])
    requires forall k :: 0 <= k < |calls| ==> CallOk(calls[k])
    modifies m, m.pg, m.pg.bitmap
    ensures |results| == |calls| && out == Replay(calls, results)
    ensures m.Valid() && Served(m.heap.live, State(m), out)
  {
    out, results := [], [];
    for k := 0 to |calls|
      invariant |results| == k && out == Replay(calls[..k], results)
      invariant m.Valid() && m.pg.bitmap == old(m.pg.bitmap) && Served(m.heap.live, State(m), out)
    {
      ghost var before := results;
      var r := ServeOne(m, calls[k], out);
      out, results := Next(out, calls[k], r), results + [r];
      assert calls[..k + 1][..k] == calls[..k] && results[..k] == before;
    }
    assert calls[..|calls|] == calls;
  }

  method ServeOne(m: MemAllocator, c: Call, out: seq<Held>) returns (r: Option<nat>)
    requires m.Valid() && CallOk(c) && Served(m.heap.live, State(m), out)
    modifies m, m.pg, m.pg.bitmap
    ensures m.Valid() && m.pg.bitmap == old(m.pg.bitmap) && Served(m.heap.live, State(m), Next(out, c, r))
  {
    r := None;
    match c {
      case Kernel(len, alignment) =>
        if len < PAGE_SIZE {
          r := ServeBlock(m, len, alignment, RumpKern, out);
        } else {
          r := ServePages(m, len, alignment, out);
        }
      case Other(nbytes, align, who) =>
        r := ServeBlock(m, nbytes, align, who, out);
      case Free(i) =>
        if i < |out| {
          ServeFree(m, i, out);
        }
    }
  }

  method ServeBlock(m: MemAllocator, nbytes: nat, align: nat, who: Who, out: seq<Held>) returns (r: Option<nat>)
    requires m.Valid() && BlockOk(nbytes, align) && Served(m.heap.live, State(m), out)
    modifies m, m.pg, m.pg.bitmap
    ensures m.Valid() && m.pg.bitmap == old(m.pg.bitmap)
    ensures Served(m.heap.live, State(m), Next(out, Other(nbytes, align, who), r))
  {
    ghost var live, s := m.heap.live, State(m);
    r := m.MemAlloc(nbytes, align, who);
    BlockServed(live, s, m.heap.live, State(m), out, nbytes, align, who, r);
  }

  /** After `bmk_memalloc`, the frames of both allocators together being the same. */
  lemma BlockServed(live: map<nat, Memalloc.Region>, s: Frames, live': map<nat, Memalloc.Region>, s': Frames,
                    out: seq<Held>, nbytes: nat, align: nat, who: Who, r: Option<nat>)
    requires Served(live, s, out) && Conserved(s.taken, s.free, s'.taken, s'.free) && s'.lo == s.lo && s'.hi == s.hi
    requires if r.None? then live' == live else Added(live, live', r.value, Effective(align), nbytes, who)
    ensures Served(live', s', Next(out, Other(nbytes, align, who), r))
  {
    assert NoneLost(s', out);
    if r.Some? {
      var g := Held.Region(r.value, nbytes, who);
      NewRegionHeld(live, s, live', s', out, r.value, Effective(align), nbytes, who);
      MoreKept(live, s', out, g);
      assert (out + [g])[|out|] == g;
    } else {
      EachStays(live, s, live', s', out);
    }
  }

  method ServePages(m: MemAllocator, len: nat, alignment: nat, out: seq<Held>) returns (r: Option<nat>)
    requires m.Valid() && PAGE_SIZE <= len <= PAGES_MAX && AtMostOneBit(alignment)
    requires Served(m.heap.live, State(m), out)
    modifies m.pg, m.pg.bitmap
    ensures m.Valid() && m.pg.bitmap == old(m.pg.bitmap)
    ensures Served(m.heap.live, State(m), Next(out, Kernel(len, alignment), r))
  {
    ghost var s := State(m);
    r := TakePages(m, len, alignment);
    if r.Some? {
      PagesServed(m.heap.live, s, State(m), out, r.value, len);
    }
  }

  lemma PagesServed(live: map<nat, Memalloc.Region>, s: Frames, s': Frames, out: seq<Held>, f: nat, len: nat)
    requires Served(live, s, out) && PAGE_SIZE <= len <= PAGES_MAX && Aligned(f, PageOrder(len))
    requires Covered(s.free, f, PageOrder(len)) && s.free !! s.taken && Managed(s)
    requires s' == s.(free := s.free - Block(f, PageOrder(len)))
    ensures Served(live, s', out + [Pages(f, len)])
  {
    NewPagesHeld(live, s, s', out, f, len);
    MoreKept(live, s, out, Pages(f, len));
    var out' := out + [Pages(f, len)];
    forall x: nat | s.lo <= x < s.hi && x !in s'.free && x !in s'.taken
      ensures exists i :: 0 <= i < |out'| && InPages(out'[i], x)
    {
      if x in s.free {
        assert InPages(out'[|out|], x);
      }
    }
  }

  method TakePages(m: MemAllocator, len: nat, alignment: nat) returns (r: Option<nat>)
    requires m.Valid() && PAGE_SIZE <= len <= PAGES_MAX && AtMostOneBit(alignment)
    modifies m.pg, m.pg.bitmap
    ensures m.Valid() && m.pg.bitmap == old(m.pg.bitmap)
    ensures Managed(old(State(m))) && old(m.pg.free) !! m.heap.taken
    ensures r.None? ==> State(m) == old(State(m))
    ensures r.Some? ==>
      && Aligned(r.value, PageOrder(len)) && Covered(old(m.pg.free), r.value, PageOrder(len))
      && State(m) == old(State(m)).(free := old(m.pg.free) - Block(r.value, PageOrder(len)))
  {
    FreeManaged(m.pg);
    r := MallocPages(m.pg, len, alignment);
  }

  lemma FreeManaged(pg: PageAllocator)
    requires pg.Valid()
    ensures forall x: nat {:trigger x in pg.free} :: x in pg.free ==> pg.minPage <= x < pg.maxPage
  {}

  method ServeFree(m: MemAllocator, i: nat, out: seq<Held>)
    requires m.Valid() && Served(m.heap.live, State(m), out) && i < |out|
    modifies m, m.pg, m.pg.bitmap
    ensures m.Valid() && m.pg.bitmap == old(m.pg.bitmap) && Served(m.heap.live, State(m), Without(out, i))
  {
    ghost var live, s := m.heap.live, State(m);
    assert HeldOk(live, s, out[i]);
    match out[i] {
      case Region(p, _, who) =>
        m.MemFree(p, who);
        RegionReturned(live, s, State(m), out, i);
      case Pages(f, len) =>
        GiveBack(m, f, len);
        PagesReturned(live, s, State(m), out, i);
    }
  }

  lemma RegionReturned(live: map<nat, Memalloc.Region>, s: Frames, s': Frames, out: seq<Held>, i: nat)
    requires Served(live, s, out) && i < |out| && out[i].Region?
    requires Conserved(s.taken, s.free, s'.taken, s'.free) && s'.lo == s.lo && s'.hi == s.hi
    ensures Served(live - {out[i].p}, s', Without(out, i))
  {
    RegionFreed(live, s, s', out, i);
    LessKept(live, s, out, i);
    assert NoneLost(s', Without(out, i));
  }

  lemma PagesReturned(live: map<nat, Memalloc.Region>, s: Frames, s': Frames, out: seq<Held>, i: nat)
    requires Served(live, s, out) && i < |out| && out[i].Pages?
    requires s' == s.(free := s.free + Block(out[i].f, PageOrder(out[i].len)))
    ensures Served(live, s', Without(out, i))
  {
    PagesFreed(live, s, s', out, i);
    LessKept(live, s, out, i);
  }

  method GiveBack(m: MemAllocator, f: nat, len: nat)
    requires m.Valid() && PAGE_SIZE <= len <= PAGES_MAX && Lent(State(m), f, PageOrder(len))
    modifies m.pg, m.pg.bitmap
    ensures m.Valid() && m.pg.bitmap == old(m.pg.bitmap)
    ensures State(m) == old(State(m)).(free := old(m.pg.free) + Block(f, PageOrder(len)))
  {
    FreePages(m.pg, f, len);
  }

  // ----- Bytes

  function Start(g: Held): nat {
    match g
    case Region(p, _, _) => p
    case Pages(f, _) => f * PAGE_SIZE
  }

  lemma PagesHold(len: nat)
    requires len >= PAGE_SIZE
    ensures len <= PAGE_SIZE * Pow2(PageOrder(len))
  {
    OrderFits(len);
  }

  /** No block of a live region meets lent pages. */
  lemma RegionBesidePages(h: Heap, s: Frames, p: nat, f: nat, k: nat)
    requires h.Valid() && p in h.live && s.taken == h.taken && Lent(s, f, k)
    ensures Apart(h.live[p].base, Pow2(h.live[p].bucket + MINSHIFT), f * PAGE_SIZE, PAGE_SIZE * Pow2(k))
  {
    var base, size, lo := h.live[p].base, Pow2(h.live[p].bucket + MINSHIFT), f * PAGE_SIZE;
    var x := if base < lo then lo else base;
    if base <= x < base + size && x < lo + PAGE_SIZE * Pow2(k) {
      assert f <= x / PAGE_SIZE < f + Pow2(k);
      LiveInTakenFrames(h, p, x);
    }
  }

  /** The bytes of any two things handed out, by whichever allocator, are apart. */
  lemma AllApart(h: Heap, s: Frames, out: seq<Held>, i: nat, j: nat)
    requires h.Valid() && s.taken == h.taken && AllHeld(h.live, s, out) && i < j < |out|
    ensures Apart(Start(out[i]), out[i].len, Start(out[j]), out[j].len)
  {
    var a, b := out[i], out[j];
    assert HeldOk(h.live, s, a) && HeldOk(h.live, s, b) && Distinct(a, b);
    match a
    case Region(p, _, _) =>
      PointerLayout(h, p);
      if b.Region? {
        PointerLayout(h, b.p);
        LiveApart(h, p, b.p);
      } else {
        PagesHold(b.len);
        RegionBesidePages(h, s, p, b.f, PageOrder(b.len));
      }
    case Pages(f, len) =>
      PagesHold(len);
      if b.Region? {
        PointerLayout(h, b.p);
        RegionBesidePages(h, s, b.p, f, PageOrder(len));
      } else {
        PagesHold(b.len);
      }
  }
}
