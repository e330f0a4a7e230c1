/**
  The binary buddy page allocator of libbmk_core. Page addresses are represented by frame
  numbers (address divided by the page size), so `order2size(order)` is `Pow2(order)` frames.
 */
module Pgalloc {
  import opened Dyadic
  import opened Bitmap
  import opened FreeBlocks
  import opened Queues

  const PAGE_SHIFT: nat := 12
  const PAGE_SIZE: nat := 4096
  /** Kilobytes per page: sizes are counted as `bytes >> 10`. */
  const PAGE_KB: nat := 4
  const CHUNKMAGIC: nat := 0x11020217

  /** The `struct chunk` at the start of a page, without its list linkage. */
  datatype ChunkHeader = ChunkHeader(level: nat, magic: nat)

  /** Free lists that hold exactly the maximal blocks of `F`, each once. */
  ghost predicate Canonical(lists: seq<seq<nat>>, F: set<nat>) {
    && |lists| == LEVELS
    && (forall k: nat, b: nat :: k < LEVELS ==> (b in lists[k] <==> Maximal(F, b, k)))
    && (forall k: nat :: k < LEVELS ==> NoDup(lists[k]))
  }

  /** Every listed chunk carries its level and the magic number in memory. */
  ghost predicate Stamped(lists: seq<seq<nat>>, header: map<nat, ChunkHeader>) {
    forall k: nat, b: nat :: k < |lists| && b in lists[k] ==>
      b in header && header[b] == ChunkHeader(k, CHUNKMAGIC)
  }

  /** Memory outside the frames `S` is not written. */
  ghost predicate SameOutside(h: map<nat, ChunkHeader>, h': map<nat, ChunkHeader>, S: set<nat>) {
    forall f: nat :: f !in S ==> (f in h <==> f in h') && (f in h ==> h[f] == h'[f])
  }

  function Link(lists: seq<seq<nat>>, b: nat, k: nat): seq<seq<nat>>
    requires k < |lists|
  {
    lists[k := [b] + lists[k]]
  }

  function Unlink(lists: seq<seq<nat>>, b: nat, k: nat): seq<seq<nat>>
    requires k < |lists|
  {
    lists[k := Without(lists[k], b)]
  }

  /** Linking a separated block extends the canonical form. */
  lemma LinkCanonical(lists: seq<seq<nat>>, G: set<nat>, b: nat, k: nat)
    requires Canonical(lists, G) && k < LEVELS && Aligned(b, k)
    requires Separated(G, Block(b, k))
    ensures Canonical(Link(lists, b, k), G + Block(b, k))
  {
    var lists' := Link(lists, b, k);
    forall j: nat, c: nat | j < LEVELS
      ensures c in lists'[j] <==> Maximal(G + Block(b, k), c, j)
    {
      MaximalUnion(G, Block(b, k), c, j);
      BlockCanonical(b, k, c, j);
    }
    BlockCanonical(b, k, b, k);
    MaximalUnion(G, Block(b, k), b, k);
    assert b !in lists[k];
    assert NoDup(lists'[k]);
  }

  /** Unlinking a listed block shrinks it. */
  lemma UnlinkCanonical(lists: seq<seq<nat>>, F: set<nat>, b: nat, k: nat)
    requires Canonical(lists, F) && k < LEVELS && b in lists[k]
    ensures Canonical(Unlink(lists, b, k), F - Block(b, k))
    ensures Separated(F - Block(b, k), Block(b, k))
  {
    SplitMaximal(F, b, k);
    var G := F - Block(b, k);
    WithoutContents(lists[k], b);
    forall j: nat, c: nat | j < LEVELS
      ensures c in Unlink(lists, b, k)[j] <==> Maximal(G, c, j)
    {
      MaximalUnion(G, Block(b, k), c, j);
      BlockCanonical(b, k, c, j);
    }
  }

  lemma LinkStamped(lists: seq<seq<nat>>, header: map<nat, ChunkHeader>, b: nat, k: nat)
    requires Stamped(lists, header) && k < |lists|
    requires forall j: nat :: j < |lists| ==> b !in lists[j]
    ensures Stamped(Link(lists, b, k), header[b := ChunkHeader(k, CHUNKMAGIC)])
  {
  }

  lemma UnlinkStamped(lists: seq<seq<nat>>, F: set<nat>, header: map<nat, ChunkHeader>, b: nat, k: nat, h: ChunkHeader)
    requires Canonical(lists, F) && Stamped(lists, header) && k < LEVELS && b in lists[k]
    ensures Stamped(Unlink(lists, b, k), header[b := h])
  {
    var lists' := Unlink(lists, b, k);
    WithoutContents(lists[k], b);
    forall j: nat, c: nat | j < LEVELS && c in lists'[j]
      ensures c != b
    {
      if j != k {
        HeadOnce(lists, F, b, k, j);
      }
    }
  }

  /** A frame heads at most one listed chunk. */
  lemma HeadOnce(lists: seq<seq<nat>>, F: set<nat>, b: nat, k: nat, j: nat)
    requires Canonical(lists, F) && k < LEVELS && j < LEVELS && b in lists[k] && k != j
    ensures b !in lists[j]
  {
    if Maximal(F, b, j) {
      MaximalDominates(F, b, k, b, j, b);
      MaximalDominates(F, b, j, b, k, b);
      assert false;
    }
  }

  /** An aligned block of free frames whose address is a multiple of `align`. */
  ghost predicate Candidate(F: set<nat>, c: nat, order: nat, align: nat)
    requires align > 0
  {
    Aligned(c, order) && Covered(F, c, order) && AlignedTo(c, align)
  }

  /** `((unsigned long)p & (align-1)) == 0` for a power of two. */
  predicate AlignedTo(c: nat, align: nat)
    requires align > 0
  {
    (c * PAGE_SIZE) % align == 0
  }

  /** The first chunk of a list at a multiple of `align`. */
  ghost predicate FirstSuitable(l: seq<nat>, p: nat, align: nat)
    requires align > 0
  {
    exists i :: 0 <= i < |l| && l[i] == p && AlignedTo(p, align) && forall j :: 0 <= j < i ==> !AlignedTo(l[j], align)
  }

  lemma AlignedToMeans(c: nat, a: nat)
    requires a >= PAGE_SHIFT
    ensures AlignedTo(c, Pow2(a)) <==> Aligned(c, a - PAGE_SHIFT)
  {
    Pow2Table();
    AlignedScale(c, PAGE_SHIFT, a - PAGE_SHIFT);
    AlignedIsMod(c * PAGE_SIZE, a);
  }

  /**
    Looking only at the bases of listed chunks loses nothing: whenever some suitable block is
    free, the maximal block around it is suitable as well.
   */
  lemma CandidateChunk(F: set<nat>, c: nat, order: nat, a: nat) returns (b: nat, k: nat)
    requires a >= PAGE_SHIFT && Candidate(F, c, order, Pow2(a))
    requires 0 !in F && forall x :: x in F ==> x < FRAME_LIMIT
    ensures order <= k < LEVELS && Maximal(F, b, k) && AlignedTo(b, Pow2(a))
  {
    CoveredEnds(F, c, order);
    k := MaximalExists(F, c);
    b := Base(c, k);
    MaximalDominates(F, c, order, b, k, c);
    AlignedToMeans(c, a);
    AlignedToMeans(b, a);
    if a - PAGE_SHIFT <= k {
      AlignedWeaken(b, a - PAGE_SHIFT, k);
    } else {
      AlignedWeaken(c, k, a - PAGE_SHIFT);
      BaseUnique(c, c, k);
    }
  }

  // ----- Merging with the buddy

  function Buddy(b: nat, k: nat): (r: nat)
    requires Aligned(b, k)
  {
    ParentHalves(b, k);
    if Bit(b, k) then b - Pow2(k) else b + Pow2(k)
  }

  /** A block and its buddy are the two halves of their parent. */
  lemma BuddyHalves(b: nat, k: nat)
    requires Aligned(b, k)
    ensures Aligned(Buddy(b, k), k) && Base(b, k + 1) == if Bit(b, k) then Buddy(b, k) else b
    ensures Block(Base(b, k + 1), k + 1) == Block(b, k) + Block(Buddy(b, k), k)
    ensures Block(b, k) !! Block(Buddy(b, k), k)
  {
    ParentHalves(b, k);
    AlignedStep(b, k);
  }

  lemma CoveredBlock(F: set<nat>, b: nat, k: nat)
    ensures Covered(F, b, k) <==> Block(b, k) <= F
  {
    if Block(b, k) <= F {
      forall x: nat | b <= x < b + Pow2(k)
        ensures x in F
      {
        assert x in Block(b, k);
      }
    }
  }

  /**
    While `(b, k)` is being freed, a free frame at its buddy's address is the head of a
    listed chunk of order at most `k`: reading its level is safe.
   */
  lemma BuddyIsListed(lists: seq<seq<nat>>, F: set<nat>, b: nat, k: nat) returns (j: nat)
    requires Aligned(b, k) && Canonical(lists, F - Block(b, k)) && Buddy(b, k) in F
    requires 0 !in F && forall x :: x in F ==> x < FRAME_LIMIT
    ensures j <= k && j < LEVELS && Buddy(b, k) in lists[j]
  {
    var G, d := F - Block(b, k), Buddy(b, k);
    BuddyHalves(b, k);
    assert d in G;
    assert b !in G by {
      assert b in Block(b, k);
    }
    j := MaximalExists(G, d);
    var h := Base(d, j);
    if j > k {
      BaseProperties(b, k + 1);
      Laminar(Base(b, k + 1), k + 1, h, j, d);
      assert false;
    }
    Laminar(h, j, d, k, d);
  }

  /** If the buddy is not a free chunk of the same order, the block is maximal. */
  lemma NoMerge(lists: seq<seq<nat>>, F: set<nat>, b: nat, k: nat)
    requires Aligned(b, k) && Covered(F, b, k) && Canonical(lists, F - Block(b, k))
    requires Buddy(b, k) !in F || exists j: nat :: j < LEVELS && j < k && Buddy(b, k) in lists[j]
    ensures Maximal(F, b, k)
  {
    var G, d := F - Block(b, k), Buddy(b, k);
    BuddyHalves(b, k);
    if Covered(F, Base(b, k + 1), k + 1) {
      CoveredBlock(F, Base(b, k + 1), k + 1);
      CoveredBlock(G, d, k);
      assert d in Block(d, k);
      var j: nat :| j < LEVELS && j < k && d in lists[j];
      MaximalDominates(G, d, k, d, j, d);
      assert false;
    }
  }

  /** Merging with a free buddy of the same order moves up one order. */
  lemma Merge(lists: seq<seq<nat>>, F: set<nat>, b: nat, k: nat)
    requires Aligned(b, k) && Covered(F, b, k) && Canonical(lists, F - Block(b, k))
    requires k < LEVELS && Buddy(b, k) in lists[k]
    ensures var p := Base(b, k + 1);
      && Aligned(p, k + 1) && Covered(F, p, k + 1)
      && Block(b, k) <= Block(p, k + 1)
      && Canonical(Unlink(lists, Buddy(b, k), k), F - Block(p, k + 1))
  {
    var G, d, p := F - Block(b, k), Buddy(b, k), Base(b, k + 1);
    BuddyHalves(b, k);
    BaseProperties(b, k + 1);
    UnlinkCanonical(lists, G, d, k);
    CoveredBlock(G, d, k);
    CoveredBlock(F, b, k);
    CoveredBlock(F, p, k + 1);
    assert G - Block(d, k) == F - Block(p, k + 1);
  }

  // ----- Accounting

  /** Frames on the free lists from level `k` up. */
  ghost function ListedFrom(lists: seq<seq<nat>>, k: nat): nat
    decreases |lists| - k
  {
    if k >= |lists| then 0 else |lists[k]| * Pow2(k) + ListedFrom(lists, k + 1)
  }

  lemma {:induction false} ListedUpdate(lists: seq<seq<nat>>, i: nat, l: seq<nat>, k: nat)
    requires i < |lists|
    ensures ListedFrom(lists[i := l], k) ==
      ListedFrom(lists, k) + if k <= i then (|l| - |lists[i]|) * Pow2(i) else 0
    decreases |lists| - k
  {
    if k < |lists| {
      ListedUpdate(lists, i, l, k + 1);
      if k == i {
        assert |l| * Pow2(i) == |lists[i]| * Pow2(i) + (|l| - |lists[i]|) * Pow2(i);
      }
    }
  }

  lemma {:induction false} ListedEmpty(lists: seq<seq<nat>>, k: nat)
    requires forall j :: 0 <= j < |lists| ==> lists[j] == []
    ensures ListedFrom(lists, k) == 0
    decreases |lists| - k
  {
    if k < |lists| {
      ListedEmpty(lists, k + 1);
    }
  }

  /** Conservation: the listed chunks together hold exactly the free frames. */
  lemma {:induction false} ListedIsFree(lists: seq<seq<nat>>, F: set<nat>)
    requires Canonical(lists, F) && 0 !in F && forall x :: x in F ==> x < FRAME_LIMIT
    ensures ListedFrom(lists, 0) == |F|
    decreases |F|
  {
    if F == {} {
      forall k: nat | k < LEVELS
        ensures lists[k] == []
      {
        if lists[k] != [] {
          var b := lists[k][0];
          CoveredEnds(F, b, k);
          EmptyHasNoMaximal(b, k);
          assert false;
        }
      }
      ListedEmpty(lists, 0);
    } else {
      var x :| x in F;
      var k := MaximalExists(F, x);
      var b := Base(x, k);
      UnlinkCanonical(lists, F, b, k);
      BlockSize(F, b, k);
      ListedIsFree(Unlink(lists, b, k), F - Block(b, k));
      ListedUnlink(lists, b, k);
    }
  }

  lemma EmptyHasNoMaximal(b: nat, k: nat)
    ensures !Maximal({}, b, k)
  {
    CoveredEnds({}, b, k);
  }

  lemma BlockSize(F: set<nat>, b: nat, k: nat)
    requires Covered(F, b, k)
    ensures |F - Block(b, k)| == |F| - Pow2(k)
  {
    CoveredBlock(F, b, k);
    IntervalSize(b, b + Pow2(k));
    assert F == (F - Block(b, k)) + Block(b, k);
  }

  lemma ListedUnlink(lists: seq<seq<nat>>, b: nat, k: nat)
    requires k < |lists| && b in lists[k]
    ensures ListedFrom(Unlink(lists, b, k), 0) == ListedFrom(lists, 0) - Pow2(k)
  {
    var l := Without<nat>(lists[k], b);
    WithoutSize<nat>(lists[k], b);
    ListedUpdate(lists, k, l, 0);
    assert (|l| - |lists[k]|) * Pow2(k) == (-1) * Pow2(k);
  }

  ghost predicate IsPow2(n: nat) {
    exists a: nat :: n == Pow2(a)
  }

  lemma AlignShift(align: nat) returns (a: nat)
    requires IsPow2(align) && align >= PAGE_SIZE
    ensures a >= PAGE_SHIFT && align == Pow2(a)
  {
    a :| align == Pow2(a);
    Pow2Table();
    if a < PAGE_SHIFT {
      Pow2Monotone(a, PAGE_SHIFT);
    }
  }

  /** Frames left of `min` after `bmk_round_page`, and of `max` after `bmk_trunc_page`. */
  function FirstFrame(min: nat): nat {
    (min + PAGE_SIZE - 1) / PAGE_SIZE
  }

  function EndFrame(max: nat): nat {
    max / PAGE_SIZE
  }

  /** Pages of bitmap for `frames` pages: a bit each, at least one spare byte, rounded up. */
  function BitmapPages(frames: nat): nat {
    (frames / 8 + 1 + PAGE_SIZE - 1) / PAGE_SIZE
  }

  /**
    What `[min, max)` is cut into: whole pages from the first one at or above `min` to the last
    one at or below `max`, and in front as few pages as hold a bit for each and a spare byte.
   */
  predicate LoadedFrom(min: nat, max: nat, lo: nat, minPage: nat, maxPage: nat) {
    && min <= 4096 * lo < min + 4096
    && 4096 * maxPage <= max < 4096 * (maxPage + 1)
    && lo < minPage <= maxPage
    && 4096 * (minPage - lo - 1) < (maxPage - lo) / 8 + 1 <= 4096 * (minPage - lo)
  }

  lemma LoadedRange(min: nat, max: nat)
    requires FirstFrame(min) <= EndFrame(max)
    requires FirstFrame(min) + BitmapPages(EndFrame(max) - FirstFrame(min)) <= EndFrame(max)
    ensures LoadedFrom(min, max, FirstFrame(min),
                       FirstFrame(min) + BitmapPages(EndFrame(max) - FirstFrame(min)), EndFrame(max))
  {
    RoundsUp(min);
    RoundsUp((EndFrame(max) - FirstFrame(min)) / 8 + 1);
  }

  lemma RoundsUp(n: nat)
    ensures var q := (n + PAGE_SIZE - 1) / PAGE_SIZE; n <= PAGE_SIZE * q < n + PAGE_SIZE
  {}

  const WORDS_PER_PAGE: nat := 512

  /** The bitmap has a word for every index `map_alloc` and `map_free` may touch. */
  lemma BitmapCovers(frames: nat)
    ensures BitmapPages(frames) >= 1
    ensures frames / WORD_BITS < BitmapPages(frames) * WORDS_PER_PAGE
  {
  }

  class PageAllocator {
    var bitmap: array<Word>
    var minPage: nat
    var maxPage: nat
    var freelist: seq<seq<nat>>
    /** The chunk headers in page memory, by frame. */
    var header: map<nat, ChunkHeader>
    var totalKb: nat
    var usedKb: nat
    /** The free frames, as the bitmap records them. */
    ghost var free: set<nat>

    ghost predicate Shape()
      reads `bitmap, `minPage, `maxPage, bitmap
    {
      && 0 < minPage <= maxPage <= FRAME_LIMIT
      && (maxPage - minPage) / WORD_BITS < bitmap.Length
    }

    predicate Managed(f: nat)
      reads `minPage, `maxPage
    {
      minPage <= f < maxPage
    }

    /** `allocated_in_map`. */
    predicate Allocated(f: nat)
      requires Shape() && Managed(f)
      reads `bitmap, `minPage, `maxPage, bitmap
    {
      Bit(bitmap[(f - minPage) / WORD_BITS], (f - minPage) % WORD_BITS)
    }

    /** `free` holds the managed frames whose bitmap bit is clear. */
    ghost predicate MapMatches()
      reads `bitmap, `minPage, `maxPage, `free, bitmap
    {
      && Shape()
      && (forall f: nat {:trigger f in free} :: f in free ==> Managed(f))
      && (forall f: nat {:trigger Allocated(f)} :: Managed(f) ==> (f in free <==> !Allocated(f)))
    }

    ghost predicate Valid()
      reads this, bitmap
    {
      && MapMatches()
      && Canonical(freelist, free)
      && Stamped(freelist, header)
      && totalKb == PAGE_KB * (maxPage - minPage)
      && usedKb + PAGE_KB * |free| == totalKb
    }

    /**
      `bmk_pgalloc_loadmem`: everything in `[min, max)` that is a whole page, after the pages
      taken for the bitmap, becomes free.
     */
    constructor LoadMem(min: nat, max: nat)
      requires min < max < WORD_LIMIT
      requires FirstFrame(min) <= EndFrame(max)
      requires FirstFrame(min) + BitmapPages(EndFrame(max) - FirstFrame(min)) <= EndFrame(max)
      ensures Valid() && fresh(bitmap)
      ensures minPage == FirstFrame(min) + BitmapPages(EndFrame(max) - FirstFrame(min))
      ensures maxPage == EndFrame(max)
      ensures exists lo: nat :: LoadedFrom(min, max, lo, minPage, maxPage)
      ensures free == Interval(minPage, maxPage)
      ensures usedKb == 0
    {
      LoadedRange(min, max);
      var lo, hi := FirstFrame(min), EndFrame(max);
      var pages := BitmapPages(hi - lo);
      var first: nat := lo + pages;
      var frames: nat := hi - first;
      assert 0 < first && hi <= FRAME_LIMIT && frames / WORD_BITS < pages * WORDS_PER_PAGE by {
        BitmapCovers(hi - lo);
        EndFrameBound(max);
      }
      minPage, maxPage := first, hi;
      bitmap := new Word[pages * WORDS_PER_PAGE](_ => AllOnes());
      freelist := seq(LEVELS, _ => []);
      header := map[];
      totalKb := PAGE_KB * frames;
      usedKb := 0;
      free := {};
      new;
      AllAllocated();
      Populate();
    }

    /** After the bitmap has been filled with ones, no frame is free. */
    lemma AllAllocated()
      requires Shape() && forall i :: 0 <= i < bitmap.Length ==> bitmap[i] == AllOnes()
      requires free == {}
      ensures MapMatches()
    {
      forall f: nat | Managed(f)
        ensures Allocated(f)
      {
        AllOnesBits((f - minPage) % WORD_BITS);
      }
    }

    method Populate()
      requires MapMatches() && totalKb == PAGE_KB * (maxPage - minPage) && usedKb == 0
      requires |freelist| == LEVELS && forall k :: 0 <= k < LEVELS ==> freelist[k] == []
      modifies `freelist, `header, `free, bitmap
      ensures Valid() && free == Interval(minPage, maxPage)
    {
      ghost var all := Interval(minPage, maxPage);
      EmptyCanonical(freelist);
      EmptySeparated(all);
      IntervalSize(minPage, maxPage);
      assert {} + all == all;
      assert free + all == all;
      CarveRange(minPage, maxPage - minPage, {}, all);
      MarkFree(minPage, maxPage - minPage, all);
    }

    /** `freechunk_link`. */
    method FreeChunkLink(b: nat, order: nat)
      requires order < |freelist|
      modifies this`freelist, this`header
      ensures freelist == Link(old(freelist), b, order)
      ensures header == old(header)[b := ChunkHeader(order, CHUNKMAGIC)]
    {
      header := header[b := ChunkHeader(order, CHUNKMAGIC)];
      freelist := freelist[order := [b] + freelist[order]];
    }

    /**
      `carverange`: cuts `[addr, addr + range)` into chunks and lists them. `G` is the set of
      frames on the lists before, `F` the set after.
     */
    method CarveRange(addr: nat, range: nat, ghost G: set<nat>, ghost F: set<nat>)
      requires addr > 0 && addr + range <= FRAME_LIMIT
      requires Canonical(freelist, G) && Stamped(freelist, header)
      requires Separated(G, Interval(addr, addr + range)) && F == G + Interval(addr, addr + range)
      modifies this`freelist, this`header
      ensures Canonical(freelist, F) && Stamped(freelist, header)
      ensures SameOutside(old(header), header, F - G)
    {
      var a: nat, n: nat := addr, range;
      ghost var H := G;
      while n > 0
        invariant a > 0 && a + n == addr + range
        invariant G <= H && F == H + Interval(a, a + n)
        invariant Separated(H, Interval(a, a + n))
        invariant Canonical(freelist, H) && Stamped(freelist, header)
        invariant SameOutside(old(header), header, F - G)
        decreases n
      {
        var i := CarveOrder(a, n);
        CarveOneFrames(H, F, a, n);
        LinkChunk(freelist, header, H, a, i);
        FreeChunkLink(a, i);
        H := H + Block(a, i);
        a, n := a + Pow2(i), n - Pow2(i);
      }
      assert H == F;
    }

    /** `satisfies_p`: the first chunk of a list at a multiple of `align`. */
    method SatisfiesP(i: nat, align: nat) returns (r: Option<nat>)
      requires i < |freelist| && align > 0
      ensures r.Some? ==> FirstSuitable(freelist[i], r.value, align)
      ensures r.None? ==> forall b :: b in freelist[i] ==> !AlignedTo(b, align)
    {
      var l := freelist[i];
      for n := 0 to |l|
        invariant forall m :: 0 <= m < n ==> !AlignedTo(l[m], align)
      {
        if AlignedTo(l[n], align) {
          return Some(l[n]);
        }
      }
      return None;
    }

    /** The search of `bmk_pgalloc_align`: the lowest level with a suitable chunk. */
    method FindChunk(order: nat, align: nat) returns (r: Option<nat>, bucket: nat)
      requires order < LEVELS && |freelist| == LEVELS && align > 0
      ensures r.Some? ==> order <= bucket < LEVELS && FirstSuitable(freelist[bucket], r.value, align)
      ensures forall j: nat, b :: order <= j < (if r.Some? then bucket else LEVELS) && b in freelist[j] ==>
          !AlignedTo(b, align)
    {
      bucket := order;
      while bucket < LEVELS
        invariant order <= bucket <= LEVELS
        invariant forall j: nat, b :: order <= j < bucket && b in freelist[j] ==> !AlignedTo(b, align)
      {
        r := SatisfiesP(bucket, align);
        if r.Some? {
          return;
        }
        bucket := bucket + 1;
      }
      r := None;
    }

    /** Unlinks the chunk found, clears its magic and lists what the request leaves over. */
    method SplitChunk(p: nat, bucket: nat, order: nat, ghost F: set<nat>)
      requires Canonical(freelist, F) && Stamped(freelist, header)
      requires 0 !in F && forall x :: x in F ==> x < FRAME_LIMIT
      requires order <= bucket < LEVELS && p in freelist[bucket]
      modifies this`freelist, this`header
      ensures Canonical(freelist, F - Block(p, order)) && Stamped(freelist, header)
      ensures SameOutside(old(header), header, F)
    {
      CoveredEnds(F, p, bucket);
      CoveredBlock(F, p, bucket);
      UnlinkCanonical(freelist, F, p, bucket);
      UnlinkStamped(freelist, F, header, p, bucket, ChunkHeader(bucket, 0));
      SplitFits(F, p, order, bucket);
      header := header[p := ChunkHeader(bucket, 0)];
      freelist := Unlink(freelist, p, bucket);
      CarveRange(p + Pow2(order), Pow2(bucket) - Pow2(order), F - Block(p, bucket), F - Block(p, order));
    }

    method MarkAllocated(p: nat, order: nat, ghost F: set<nat>)
      requires MapMatches() && Managed(p) && p + Pow2(order) <= maxPage
      requires F == free - Block(p, order)
      modifies `free, bitmap
      ensures MapMatches() && free == F
    {
      MapAlloc(bitmap, p - minPage, Pow2(order));
      free := F;
      forall f: nat | Managed(f)
        ensures Allocated(f) <==> old(Allocated(f)) || f in Block(p, order)
      {
        assert InMap(bitmap[..], f - minPage) <==> InMap(old(bitmap[..]), f - minPage) || f in Block(p, order);
      }
    }

    method MarkFree(p: nat, count: nat, ghost F: set<nat>)
      requires MapMatches() && minPage <= p && p + count <= maxPage
      requires F == free + Interval(p, p + count)
      modifies `free, bitmap
      ensures MapMatches() && free == F
    {
      MapFree(bitmap, p - minPage, count);
      free := F;
      forall f: nat | Managed(f)
        ensures Allocated(f) <==> old(Allocated(f)) && f !in Interval(p, p + count)
      {
        assert InMap(bitmap[..], f - minPage) <==> InMap(old(bitmap[..]), f - minPage) && f !in Interval(p, p + count);
      }
    }

    /** The part of `bmk_pgalloc_align` after the search. */
    method TakeChunk(p: nat, bucket: nat, order: nat)
      requires Valid()
      requires order <= bucket < LEVELS && p in freelist[bucket]
      modifies this, bitmap
      ensures Valid() && unchanged(`bitmap) && unchanged(`minPage) && unchanged(`maxPage)
      ensures free == old(free) - Block(p, order)
      ensures SameOutside(old(header), header, old(free))
    {
      ghost var F := free;
      FrontOfBlock(F, p, order, bucket);
      SplitChunk(p, bucket, order, F);
      usedKb := usedKb + PAGE_KB * Pow2(order);
      MarkAllocated(p, order, F - Block(p, order));
    }

    /**
      `bmk_pgalloc_align`. It fails exactly when no wholly free block of `Pow2(order)` frames
      lies at a multiple of both its own size and `align`; otherwise it takes the front of a
      suitable maximal block of least order.
     */
    method PgAllocAlign(order: nat, align: nat) returns (r: Option<nat>)
      requires Valid()
      requires order < LEVELS && IsPow2(align) && align >= PAGE_SIZE
      modifies this, bitmap
      ensures Valid() && unchanged(`bitmap) && unchanged(`minPage) && unchanged(`maxPage)
      ensures r.None? <==> !exists c: nat :: Candidate(old(free), c, order, align)
      ensures r.None? ==> free == old(free) && freelist == old(freelist) && header == old(header)
      ensures r.Some? ==>
        && Candidate(old(free), r.value, order, align)
        && free == old(free) - Block(r.value, order)
        && SameOutside(old(header), header, old(free))
        && BestFit(old(free), r.value, order, align)
    {
      var bucket;
      r, bucket := FindChunk(order, align);
      if r.None? {
        NoCandidate(freelist, free, order, align);
      } else {
        Found(freelist, free, r.value, bucket, order, align);
        TakeChunk(r.value, bucket, order);
      }
    }

    /** `bmk_pgalloc`. */
    method PgAlloc(order: nat) returns (r: Option<nat>)
      requires Valid() && order < LEVELS
      modifies this, bitmap
      ensures Valid() && unchanged(`bitmap) && unchanged(`minPage) && unchanged(`maxPage)
      ensures r.None? <==> !exists c: nat :: Aligned(c, order) && Covered(old(free), c, order)
      ensures r.None? ==> free == old(free) && freelist == old(freelist) && header == old(header)
      ensures r.Some? ==>
        && Aligned(r.value, order) && Covered(old(free), r.value, order)
        && free == old(free) - Block(r.value, order)
        && SameOutside(old(header), header, old(free))
    {
      Pow2Table();
      ghost var F := free;
      forall c: nat
        ensures Candidate(F, c, order, PAGE_SIZE) <==> Aligned(c, order) && Covered(F, c, order)
      {
        AlignedToMeans(c, PAGE_SHIFT);
      }
      r := PgAllocAlign(order, PAGE_SIZE);
    }

    /** `chunklevel`: halts unless the magic number is there, so it must be. */
    method ChunkLevel(f: nat) returns (level: nat)
      requires f in header && header[f].magic == CHUNKMAGIC
      ensures level == header[f].level
    {
      level := header[f].level;
    }

    /** The test of `bmk_pgfree`: is the buddy a free chunk of the same order? */
    method CanMerge(b: nat, k: nat, ghost F: set<nat>) returns (yes: bool)
      requires MapMatches() && F == free
      requires Aligned(b, k) && k < LEVELS && Covered(F, b, k)
      requires Canonical(freelist, F - Block(b, k)) && Stamped(freelist, header)
      ensures yes ==> Buddy(b, k) in freelist[k]
      ensures !yes ==> Maximal(F, b, k)
    {
      var d: nat := Buddy(b, k);
      if !Managed(d) || Allocated(d) {
        NoMerge(freelist, F, b, k);
        return false;
      }
      ghost var j := BuddyIsListed(freelist, F, b, k);
      var level := ChunkLevel(d);
      if level != k {
        NoMerge(freelist, F, b, k);
      }
      return level == k;
    }

    /** The coalescing loop of `bmk_pgfree`, with the final `freechunk_link`. */
    method Coalesce(p: nat, order: nat, ghost F: set<nat>)
      requires MapMatches() && F == free
      requires Aligned(p, order) && order < LEVELS && Covered(F, p, order)
      requires Canonical(freelist, F - Block(p, order)) && Stamped(freelist, header)
      modifies `freelist, `header
      ensures Canonical(freelist, F) && Stamped(freelist, header)
      ensures SameOutside(old(header), header, F)
    {
      var cur, k := p, order;
      var merging := true;
      while merging && k < LEVELS
        invariant Aligned(cur, k) && Covered(F, cur, k)
        invariant Canonical(freelist, F - Block(cur, k)) && Stamped(freelist, header)
        invariant SameOutside(old(header), header, F)
        invariant !merging ==> Maximal(F, cur, k)
        decreases LEVELS - k, merging
      {
        merging := CanMerge(cur, k, F);
        if merging {
          cur := MergeBuddy(cur, k, F);
          k := k + 1;
        }
      }
      OrderBounded(F, cur, k);
      SplitMaximal(F, cur, k);
      CoveredEnds(F, cur, k);
      LinkChunk(freelist, header, F - Block(cur, k), cur, k);
      FreeChunkLink(cur, k);
    }

    /** One merge: clears both magics, unlinks the buddy, moves to the lower half. */
    method MergeBuddy(b: nat, k: nat, ghost F: set<nat>) returns (p: nat)
      requires Aligned(b, k) && k < LEVELS && Covered(F, b, k)
      requires Canonical(freelist, F - Block(b, k)) && Stamped(freelist, header)
      requires Buddy(b, k) in freelist[k]
      modifies `freelist, `header
      ensures p == Base(b, k + 1) && Aligned(p, k + 1) && Covered(F, p, k + 1)
      ensures Canonical(freelist, F - Block(p, k + 1)) && Stamped(freelist, header)
      ensures SameOutside(old(header), header, F)
    {
      var d: nat := Buddy(b, k);
      BuddyHalves(b, k);
      Merge(freelist, F, b, k);
      CoveredEnds(F, b, k);
      CoveredEnds(F - Block(b, k), d, k);
      OldHeadUnlisted(freelist, F, header, b, k, ClearMagic(header, b)[b]);
      header := ClearMagic(header, b);
      UnlinkStamped(freelist, F - Block(b, k), header, d, k, ClearMagic(header, d)[d]);
      header := ClearMagic(header, d);
      freelist := Unlink(freelist, d, k);
      p := if Bit(b, k) then d else b;
    }

    /** The bitmap and counter updates of `bmk_pgfree`. */
    method Release(p: nat, order: nat)
      requires MapMatches() && usedKb + PAGE_KB * |free| == totalKb == PAGE_KB * (maxPage - minPage)
      requires minPage <= p && p + Pow2(order) <= maxPage && Block(p, order) !! free
      modifies `usedKb, `free, bitmap
      ensures MapMatches() && free == old(free) + Block(p, order)
      ensures usedKb + PAGE_KB * |free| == totalKb
    {
      ghost var F := free;
      assert |F + Block(p, order)| == |F| + Pow2(order) <= maxPage - minPage by {
        FreedFrames(F, p, order, minPage, maxPage);
      }
      usedKb := usedKb - PAGE_KB * Pow2(order);
      MarkFree(p, Pow2(order), F + Block(p, order));
    }

    /** `bmk_pgfree` of a block whose frames are all allocated. */
    method PgFree(p: nat, order: nat)
      requires Valid()
      requires order < LEVELS && Aligned(p, order)
      requires minPage <= p && p + Pow2(order) <= maxPage && Block(p, order) !! free
      modifies this, bitmap
      ensures Valid() && unchanged(`bitmap) && unchanged(`minPage) && unchanged(`maxPage)
      ensures free == old(free) + Block(p, order)
      ensures SameOutside(old(header), header, free)
    {
      ghost var F := free + Block(p, order);
      assert Canonical(freelist, F - Block(p, order)) by {
        FreedFrames(free, p, order, minPage, maxPage);
      }
      assert Covered(F, p, order) by {
        FreedFrames(free, p, order, minPage, maxPage);
      }
      Release(p, order);
      Coalesce(p, order, F);
    }

    /** The owner of an allocated page may store anything in it. */
    method ClientStore(f: nat, content: ChunkHeader)
      requires Valid() && Managed(f) && f !in free
      modifies `header
      ensures Valid() && header == old(header)[f := content]
    {
      forall k: nat, b: nat | k < LEVELS && b in freelist[k]
        ensures b != f
      {
        CoveredEnds(free, b, k);
      }
      header := header[f := content];
    }
  }

  function ClearMagic(h: map<nat, ChunkHeader>, f: nat): (r: map<nat, ChunkHeader>)
    ensures f in r && r == h[f := r[f]]
  {
    if f in h then h[f := h[f].(magic := 0)] else h[f := ChunkHeader(0, 0)]
  }

  lemma FreedFrames(F: set<nat>, p: nat, order: nat, lo: nat, hi: nat)
    requires lo <= p && p + Pow2(order) <= hi && F <= Interval(lo, hi) && Block(p, order) !! F
    ensures F + Block(p, order) - Block(p, order) == F
    ensures Covered(F + Block(p, order), p, order)
    ensures |F + Block(p, order)| == |F| + Pow2(order) <= hi - lo
  {
    var F' := F + Block(p, order);
    assert F' - Block(p, order) == F;
    CoveredBlock(F', p, order);
    BlockSize(F', p, order);
    IntervalSize(lo, hi);
    SubsetSize(F', Interval(lo, hi));
  }

  lemma SubsetSize<T>(A: set<T>, B: set<T>)
    requires A <= B
    ensures |A| <= |B|
  {
    assert B == A + (B - A);
  }

  /** The block being freed heads no listed chunk, so its header may be overwritten. */
  lemma OldHeadUnlisted(lists: seq<seq<nat>>, F: set<nat>, header: map<nat, ChunkHeader>, b: nat, k: nat,
                        h: ChunkHeader)
    requires Canonical(lists, F - Block(b, k)) && Stamped(lists, header)
    ensures Stamped(lists, header[b := h])
  {
    forall j: nat, c: nat | j < LEVELS && c in lists[j]
      ensures c != b
    {
      CoveredEnds(F - Block(b, k), c, j);
      assert b in Block(b, k);
    }
  }

  lemma NoCandidate(lists: seq<seq<nat>>, F: set<nat>, order: nat, align: nat)
    requires Canonical(lists, F) && 0 !in F && forall x :: x in F ==> x < FRAME_LIMIT
    requires IsPow2(align) && align >= PAGE_SIZE
    requires forall j: nat, b :: order <= j < LEVELS && b in lists[j] ==> !AlignedTo(b, align)
    ensures !exists c: nat :: Candidate(F, c, order, align)
  {
    var a := AlignShift(align);
    forall c: nat
      ensures !Candidate(F, c, order, align)
    {
      if Candidate(F, c, order, align) {
        var b, k := CandidateChunk(F, c, order, a);
      }
    }
  }

  lemma Found(lists: seq<seq<nat>>, F: set<nat>, p: nat, bucket: nat, order: nat, align: nat)
    requires Canonical(lists, F) && order <= bucket < LEVELS && align > 0
    requires p in lists[bucket] && AlignedTo(p, align)
    requires forall j: nat, b :: order <= j < bucket && b in lists[j] ==> !AlignedTo(b, align)
    ensures Candidate(F, p, order, align) && BestFit(F, p, order, align)
  {
    SplitFits(F, p, order, bucket);
  }

  /** The result heads a maximal block, and no lower level had a suitable one. */
  ghost predicate BestFit(F: set<nat>, p: nat, order: nat, align: nat)
    requires align > 0
  {
    exists k: nat :: order <= k && Maximal(F, p, k) &&
      forall j: nat, c: nat :: order <= j < k && Maximal(F, c, j) ==> !AlignedTo(c, align)
  }

  lemma FrontOfBlock(F: set<nat>, p: nat, order: nat, k: nat)
    requires Maximal(F, p, k) && order <= k
    ensures p in F && p + Pow2(order) - 1 in F
    ensures |F - Block(p, order)| == |F| - Pow2(order)
  {
    SplitFits(F, p, order, k);
    CoveredEnds(F, p, order);
    BlockSize(F, p, order);
  }

  /** Cutting the front off a maximal block leaves an interval separated from the rest. */
  lemma SplitFits(F: set<nat>, p: nat, order: nat, k: nat)
    requires Maximal(F, p, k) && order <= k
    ensures Pow2(order) <= Pow2(k)
    ensures Aligned(p, order) && Covered(F, p, order)
    ensures Separated(F - Block(p, k), Interval(p + Pow2(order), p + Pow2(k)))
    ensures F - Block(p, k) + Interval(p + Pow2(order), p + Pow2(k)) == F - Block(p, order)
  {
    Pow2Monotone(order, k);
    AlignedWeaken(p, order, k);
    SplitMaximal(F, p, k);
    CoveredBlock(F, p, k);
    SeparatedPart(F - Block(p, k), Block(p, k), Interval(p + Pow2(order), p + Pow2(k)));
  }

  lemma SeparatedPart(G: set<nat>, C: set<nat>, I: set<nat>)
    requires Separated(G, C) && I <= C
    ensures Separated(G, I)
  {
    forall c: nat, j: nat | Aligned(c, j) && Covered(G + I, c, j)
      ensures Covered(G, c, j) || Covered(I, c, j)
    {
      assert Covered(G + C, c, j);
      if Covered(C, c, j) {
        assert Covered(I, c, j);
      }
    }
  }

  /** One round of `carverange`, on the frames and then on the lists. */
  lemma CarveOneFrames(H: set<nat>, F: set<nat>, a: nat, n: nat)
    requires a > 0 && n > 0 && a + n <= FRAME_LIMIT
    requires Separated(H, Interval(a, a + n)) && F == H + Interval(a, a + n)
    ensures var i := CarveOrder(a, n);
      && i < LEVELS && Pow2(i) <= n && Aligned(a, i) && a in F && a !in H
      && F == H + Block(a, i) + Interval(a + Pow2(i), a + n)
      && Separated(H, Block(a, i))
      && Separated(H + Block(a, i), Interval(a + Pow2(i), a + n))
  {
    var i := CarveOrder(a, n);
    CarveStep(a, n);
    LevelInRange(i, n, a);
    CarveOff(H, F, Interval(a, a + n), Block(a, i), Interval(a + Pow2(i), a + n));
  }

  lemma CarveOff(H: set<nat>, F: set<nat>, I: set<nat>, C: set<nat>, R: set<nat>)
    requires Separated(H, I) && F == H + I && I == C + R && Separated(C, R)
    ensures F == H + C + R && Separated(H, C) && Separated(H + C, R)
  {
    SeparatedSplit(H, C, R);
  }

  lemma LinkChunk(lists: seq<seq<nat>>, header: map<nat, ChunkHeader>, H: set<nat>, a: nat, i: nat)
    requires Canonical(lists, H) && Stamped(lists, header)
    requires i < LEVELS && Aligned(a, i) && Separated(H, Block(a, i))
    ensures Canonical(Link(lists, a, i), H + Block(a, i))
    ensures Stamped(Link(lists, a, i), header[a := ChunkHeader(i, CHUNKMAGIC)])
  {
    NewHead(lists, H, a, i);
    LinkCanonical(lists, H, a, i);
    LinkStamped(lists, header, a, i);
  }

  lemma LevelInRange(i: nat, n: nat, a: nat)
    requires Pow2(i) <= n && a > 0 && a + n <= FRAME_LIMIT
    ensures i < LEVELS
  {
    if i >= LEVELS {
      FrameLimit();
      Pow2Monotone(LEVELS, i);
    }
  }

  /** A block separated from the listed frames heads no listed chunk. */
  lemma NewHead(lists: seq<seq<nat>>, G: set<nat>, b: nat, k: nat)
    requires Canonical(lists, G) && Separated(G, Block(b, k))
    ensures forall j: nat :: j < LEVELS ==> b !in lists[j]
  {
    forall j: nat | j < LEVELS
      ensures b !in lists[j]
    {
      CoveredEnds(G, b, j);
      assert b in Block(b, k);
    }
  }

  lemma EndFrameBound(max: nat)
    requires max < WORD_LIMIT
    ensures EndFrame(max) <= FRAME_LIMIT
  {
  }

  lemma EmptyCanonical(lists: seq<seq<nat>>)
    requires |lists| == LEVELS && forall k :: 0 <= k < LEVELS ==> lists[k] == []
    ensures Canonical(lists, {})
  {
    forall k: nat, b: nat | k < LEVELS
      ensures b in lists[k] <==> Maximal({}, b, k)
    {
      EmptyHasNoMaximal(b, k);
    }
  }

  lemma EmptySeparated(I: set<nat>)
    ensures Separated({}, I)
  {
    assert {} + I == I;
  }

  // ----- History independence

  /** Two canonical free lists of the same frames differ only in the order of each list. */
  lemma CanonicalUnique(l1: seq<seq<nat>>, l2: seq<seq<nat>>, F: set<nat>, k: nat)
    requires Canonical(l1, F) && Canonical(l2, F) && k < LEVELS
    ensures multiset(l1[k]) == multiset(l2[k])
  {
    NoDupMultiset(l1[k]);
    NoDupMultiset(l2[k]);
    assert forall b: nat :: b in l1[k] <==> b in l2[k];
  }

  lemma {:induction false} NoDupMultiset<T>(s: seq<T>)
    requires NoDup(s)
    ensures forall x :: multiset(s)[x] == if x in s then 1 else 0
  {
    if s != [] {
      var t := s[..|s| - 1];
      NoDupMultiset(t);
      assert s == t + [s[|s| - 1]];
      assert s[|s| - 1] !in t;
    }
  }

  /**
    The whole state of the allocator, up to the order inside each free list, is a function of
    the set of free frames, whatever the sequence of calls that led to it.
   */
  lemma HistoryIndependent(a: PageAllocator, b: PageAllocator)
    requires a.Valid() && b.Valid()
    requires a.minPage == b.minPage && a.maxPage == b.maxPage && a.free == b.free
    ensures forall k: nat :: k < LEVELS ==> multiset(a.freelist[k]) == multiset(b.freelist[k])
    ensures a.usedKb == b.usedKb && a.totalKb == b.totalKb
    ensures forall f: nat :: a.Managed(f) ==> (a.Allocated(f) <==> b.Allocated(f))
    ensures forall k: nat, f: nat :: k < LEVELS && f in a.freelist[k] ==> a.header[f] == b.header[f]
  {
    forall k: nat | k < LEVELS
      ensures multiset(a.freelist[k]) == multiset(b.freelist[k])
    {
      CanonicalUnique(a.freelist, b.freelist, a.free, k);
    }
    forall f: nat | a.Managed(f)
      ensures a.Allocated(f) <==> b.Allocated(f)
    {
      assert f in a.free <==> !a.Allocated(f);
    }
  }

  /** Used plus listed memory is always the memory loaded. */
  lemma UsedPlusFree(a: PageAllocator)
    requires a.Valid()
    ensures a.usedKb + PAGE_KB * ListedFrom(a.freelist, 0) == a.totalKb
  {
    ListedIsFree(a.freelist, a.free);
  }
}
