/**
  The bucket allocator of libbmk_core, stacked on the page allocator: blocks of a power of
  two of bytes, with a header hidden in the alignment padding before each returned pointer.
 */
module Memalloc {
  import opened Dyadic
  import opened Bitmap
  import opened FreeBlocks
  import opened Queues
  import opened Pgalloc

  const MINSHIFT: nat := 5
  /** Buckets below this come out of single pages, the others are page blocks. */
  const LOCALBUCKETS: nat := 7
  const MINALIGN: nat := 16
  const HDR_SIZE: nat := 8
  const MAGIC: nat := 0xef
  const MAX_ALIGN: nat := 0x8000_0000
  /** Largest block the page allocator can be asked for. */
  const MAX_BLOCK: nat := 0x8000_0000_0000_0000

  datatype Who = WiredBmk | RumpKern | User

  datatype Header = Header(alignpad: nat, magic: nat, index: nat, who: Who)

  /** `(x & (x-1)) == 0`. */
  predicate AtMostOneBit(x: nat) {
    x == 0 || BitAnd(x, x - 1) == 0
  }

  /** `(x + align - 1) & ~(align - 1)` for a power of two: the low bits are cleared. */
  function RoundUp(x: nat, align: nat): nat
    requires align > 0
  {
    Base(x + align - 1, FloorLog2(align))
  }

  /** The bucket computation of `bmk_memalloc`. */
  function BucketOf(bytes: nat): nat {
    if bytes < 32 then 0
    else
      var b := FloorLog2(bytes / 32) + 1;
      if AtMostOneBit(bytes) then b - 1 else b
  }

  lemma {:induction false} BitAndSelf(x: nat)
    ensures BitAnd(x, x) == x
  {
    if x > 0 {
      BitAndSelf(x / 2);
    }
  }

  /** The bit trick recognises exactly the powers of two. */
  lemma {:induction false} OneBitIsPow2(x: nat)
    requires x > 0
    ensures AtMostOneBit(x) <==> x == Pow2(FloorLog2(x))
  {
    if x == 1 {
      assert BitAnd(0, 0) == 0;
    } else if x % 2 == 1 {
      BitAndSelf(x / 2);
      assert (x - 1) / 2 == x / 2;
      assert BitAnd(x, x - 1) == 2 * (x / 2);
    } else {
      OneBitIsPow2(x / 2);
      assert (x - 1) / 2 == x / 2 - 1;
      assert BitAnd(x, x - 1) == 2 * BitAnd(x / 2, x / 2 - 1);
    }
  }

  lemma {:induction false} FloorLog2Shift(x: nat, s: nat)
    requires x >= Pow2(s)
    ensures x / Pow2(s) > 0 && FloorLog2(x) == FloorLog2(x / Pow2(s)) + s
  {
    if s > 0 {
      Pow2Monotone(0, s);
      FloorLog2Shift(x / 2, s - 1);
      assert x / 2 / Pow2(s - 1) == x / Pow2(s) by {
        DivDiv(x, Pow2(s - 1));
      }
    }
  }

  lemma DivDiv(x: nat, m: nat)
    requires m > 0
    ensures x / 2 / m == x / (2 * m)
  {
    var q, r := x / 2 / m, (x / 2) % m;
    assert x / 2 == m * q + r;
    assert x == 2 * (m * q) + (2 * r + x % 2);
    MulAssociative(m, q);
    DivisionUnique(x, 2 * m, q, 2 * r + x % 2);
  }

  /** The bucket is the smallest whose block holds `bytes`. */
  lemma BucketFits(bytes: nat)
    ensures bytes <= Pow2(BucketOf(bytes) + MINSHIFT)
    ensures BucketOf(bytes) > 0 ==> Pow2(BucketOf(bytes) + MINSHIFT - 1) < bytes
  {
    assert Pow2(5) == 32;
    if bytes >= 32 {
      FloorLog2Shift(bytes, 5);
      OneBitIsPow2(bytes);
    }
  }

  /** With the header in front, the padding of an aligned block is exactly `align` bytes. */
  lemma PadIsAlign(base: nat, s: nat, a: nat)
    requires Aligned(base, s) && a <= s && Pow2(a) >= MINALIGN
    ensures RoundUp(base + HDR_SIZE, Pow2(a)) == base + Pow2(a)
    ensures Aligned(base + Pow2(a), a)
  {
    AlignedWeaken(base, a, s);
    AlignedStep(base, a);
    RoundUpTo(base + HDR_SIZE, a, base + Pow2(a));
  }

  lemma RoundUpTo(x: nat, a: nat, y: nat)
    requires Aligned(y, a) && x <= y < x + Pow2(a)
    ensures RoundUp(x, Pow2(a)) == y
  {
    LogOfPow2(a);
    BaseUnique(x + Pow2(a) - 1, y, a);
  }

  lemma {:induction false} LogOfPow2(a: nat)
    ensures FloorLog2(Pow2(a)) == a
  {
    if a > 0 {
      LogOfPow2(a - 1);
    }
  }

  // ----- The heap: which blocks exist, which are listed, which are handed out

  /** A live allocation: its block, the padding in front, the bytes asked for, the owner. */
  datatype Region = Region(base: nat, bucket: nat, pad: nat, nbytes: nat, who: Who)

  /** `b` is a block of bucket `k` in a page cut into blocks of that bucket. */
  predicate Small(pages: map<nat, nat>, b: nat, k: nat) {
    k < LOCALBUCKETS && Aligned(b, k + MINSHIFT) && b / PAGE_SIZE in pages && pages[b / PAGE_SIZE] == k
  }

  /** Each small block is listed once or owned by a live region, and nothing else is listed. */
  ghost predicate Listed(pages: map<nat, nat>, lists: seq<seq<nat>>, owner: map<nat, nat>, pending: set<nat>) {
    && |lists| == LOCALBUCKETS
    && (forall k: nat :: k < LOCALBUCKETS ==> NoDup(lists[k]))
    && (forall k: nat, b: nat :: k < LOCALBUCKETS ==>
      (b in lists[k] <==> Small(pages, b, k) && b !in owner && b !in pending))
  }

  /** A page block handed out whole. */
  ghost predicate LargeAt(r: Region) {
    && LOCALBUCKETS <= r.bucket < LOCALBUCKETS + LEVELS
    && r.base % PAGE_SIZE == 0
    && Aligned(r.base / PAGE_SIZE, r.bucket - LOCALBUCKETS)
  }

  ghost function FramesOf(r: Region): set<nat>
    requires r.bucket >= LOCALBUCKETS
  {
    Block(r.base / PAGE_SIZE, r.bucket - LOCALBUCKETS)
  }

  /** The frames that go back to the page allocator with region `p`. */
  ghost function PagesOf(live: map<nat, Region>, p: nat): set<nat> {
    if p in live && live[p].bucket >= LOCALBUCKETS then FramesOf(live[p]) else {}
  }

  /** A large region lies in frames of its own. */
  ghost predicate LargeRegion(r: Region, pages: map<nat, nat>, taken: set<nat>) {
    r.bucket >= LOCALBUCKETS ==> LargeAt(r) && FramesOf(r) <= taken && FramesOf(r) !! pages.Keys
  }

  ghost predicate FramesDisjoint(r: Region, t: Region) {
    r.bucket >= LOCALBUCKETS && t.bucket >= LOCALBUCKETS ==> FramesOf(r) !! FramesOf(t)
  }

  /** The frames that carry this allocator's blocks are allocated and used once. */
  ghost predicate FramesApart(live: map<nat, Region>, pages: map<nat, nat>, taken: set<nat>) {
    && (forall f: nat :: f in pages ==> f in taken)
    && (forall p: nat {:trigger LargeRegion(live[p], pages, taken)} ::
      p in live ==> LargeRegion(live[p], pages, taken))
    && (forall p: nat, q: nat {:trigger FramesDisjoint(live[p], live[q])} ::
      p in live && q in live && p != q ==> FramesDisjoint(live[p], live[q]))
  }

  /** The pointer sits behind its padding, inside the smallest block that holds the request. */
  ghost predicate Fits(p: nat, r: Region) {
    && p == r.base + r.pad
    && (exists a: nat :: r.pad == Pow2(a) && Aligned(p, a))
    && r.pad >= MINALIGN
    && r.pad + r.nbytes <= Pow2(r.bucket + MINSHIFT)
    && (r.bucket > 0 ==> Pow2(r.bucket + MINSHIFT - 1) < r.pad + r.nbytes)
  }

  /** Live pointers and owned blocks correspond one to one. */
  ghost predicate Owned(live: map<nat, Region>, owner: map<nat, nat>) {
    && (forall p: nat :: p in live ==> live[p].base in owner && owner[live[p].base] == p)
    && (forall b: nat :: b in owner ==> owner[b] in live && live[owner[b]].base == b)
  }

  ghost predicate SmallRegions(live: map<nat, Region>, pages: map<nat, nat>) {
    forall p: nat :: p in live && live[p].bucket < LOCALBUCKETS ==> Small(pages, live[p].base, live[p].bucket)
  }

  /**
    The allocator's memory: live regions by pointer, the pointer owning each block, the pages
    cut into small blocks, the free lists, and the frames taken from the page allocator.
   */
  datatype Heap = Heap(
    live: map<nat, Region>,
    owner: map<nat, nat>,
    pages: map<nat, nat>,
    lists: seq<seq<nat>>,
    taken: set<nat>)
  {
    ghost predicate Valid() {
      ValidWith({})
    }

    /** Valid, with the blocks `pending` off the lists but not yet owned by a region. */
    ghost predicate ValidWith(pending: set<nat>) {
      && Listed(pages, lists, owner, pending)
      && (forall b: nat :: b in pending ==> b !in owner)
      && Owned(live, owner)
      && SmallRegions(live, pages)
      && FramesApart(live, pages, taken)
      && (forall p: nat {:trigger Fits(p, live[p])} :: p in live ==> Fits(p, live[p]))
    }
  }

  // ----- Separation of everything the heap hands out

  ghost predicate Apart(a: nat, n: nat, b: nat, m: nat) {
    a + n <= b || b + m <= a
  }

  lemma PageAddress(f: nat, k: nat)
    ensures Aligned(f * PAGE_SIZE, k + PAGE_SHIFT) <==> Aligned(f, k)
  {
    Pow2Table();
    AlignedScale(f, PAGE_SHIFT, k);
  }

  lemma SmallInPage(b: nat, k: nat)
    requires k < LOCALBUCKETS && Aligned(b, k + MINSHIFT)
    ensures b / PAGE_SIZE * PAGE_SIZE <= b && b + Pow2(k + MINSHIFT) <= b / PAGE_SIZE * PAGE_SIZE + PAGE_SIZE
  {
    var f := b / PAGE_SIZE;
    Pow2Table();
    PageAddress(f, 0);
    Laminar(b, k + MINSHIFT, f * PAGE_SIZE, PAGE_SHIFT, b);
  }

  lemma SmallsApart(pages: map<nat, nat>, b: nat, k: nat, c: nat, j: nat)
    requires Small(pages, b, k) && Small(pages, c, j) && b != c
    ensures Apart(b, Pow2(k + MINSHIFT), c, Pow2(j + MINSHIFT))
  {
    SmallInPage(b, k);
    SmallInPage(c, j);
    if b / PAGE_SIZE == c / PAGE_SIZE {
      if b < c {
        AlignedGap(b, c, k + MINSHIFT);
      } else {
        AlignedGap(c, b, k + MINSHIFT);
      }
    }
  }

  lemma LargeBytes(r: Region)
    requires LargeAt(r)
    ensures Pow2(r.bucket + MINSHIFT) == PAGE_SIZE * Pow2(r.bucket - LOCALBUCKETS)
    ensures r.base == r.base / PAGE_SIZE * PAGE_SIZE
  {
    Pow2Add(r.bucket - LOCALBUCKETS, PAGE_SHIFT);
    Pow2Table();
  }

  lemma SmallLargeApart(pages: map<nat, nat>, b: nat, k: nat, r: Region)
    requires Small(pages, b, k) && LargeAt(r) && FramesOf(r) !! pages.Keys
    ensures Apart(b, Pow2(k + MINSHIFT), r.base, Pow2(r.bucket + MINSHIFT))
  {
    SmallInPage(b, k);
    LargeBytes(r);
    assert b / PAGE_SIZE !in FramesOf(r);
  }

  lemma LargesApart(r: Region, t: Region)
    requires LargeAt(r) && LargeAt(t) && FramesOf(r) !! FramesOf(t)
    ensures Apart(r.base, Pow2(r.bucket + MINSHIFT), t.base, Pow2(t.bucket + MINSHIFT))
  {
    LargeBytes(r);
    LargeBytes(t);
    var f, g := r.base / PAGE_SIZE, t.base / PAGE_SIZE;
    if f <= g {
      assert g in FramesOf(t);
    } else {
      assert f in FramesOf(r);
    }
  }

  /** The blocks of two live regions never overlap. */
  lemma LiveApart(h: Heap, p: nat, q: nat)
    requires h.Valid() && p in h.live && q in h.live && p != q
    ensures Apart(h.live[p].base, Pow2(h.live[p].bucket + MINSHIFT), h.live[q].base, Pow2(h.live[q].bucket + MINSHIFT))
  {
    var r, t := h.live[p], h.live[q];
    assert LargeRegion(r, h.pages, h.taken) && LargeRegion(t, h.pages, h.taken) && FramesDisjoint(r, t);
    if r.bucket < LOCALBUCKETS && t.bucket < LOCALBUCKETS {
      SmallsApart(h.pages, r.base, r.bucket, t.base, t.bucket);
    } else if r.bucket < LOCALBUCKETS {
      SmallLargeApart(h.pages, r.base, r.bucket, t);
    } else if t.bucket < LOCALBUCKETS {
      SmallLargeApart(h.pages, t.base, t.bucket, r);
    } else {
      LargesApart(r, t);
    }
  }

  /** Nor does a live block overlap a block on a free list. */
  lemma LiveApartFromListed(h: Heap, p: nat, b: nat, k: nat)
    requires h.Valid() && p in h.live && k < LOCALBUCKETS && b in h.lists[k]
    ensures Apart(h.live[p].base, Pow2(h.live[p].bucket + MINSHIFT), b, Pow2(k + MINSHIFT))
  {
    var r := h.live[p];
    assert Small(h.pages, b, k) && b != r.base;
    assert LargeRegion(r, h.pages, h.taken);
    if r.bucket < LOCALBUCKETS {
      SmallsApart(h.pages, r.base, r.bucket, b, k);
    } else {
      SmallLargeApart(h.pages, b, k, r);
    }
  }

  /** Every byte of a live block lies in a frame the page allocator has given out. */
  lemma LiveInTakenFrames(h: Heap, p: nat, x: nat)
    requires h.Valid() && p in h.live
    requires h.live[p].base <= x < h.live[p].base + Pow2(h.live[p].bucket + MINSHIFT)
    ensures x / PAGE_SIZE in h.taken
  {
    var r := h.live[p];
    assert LargeRegion(r, h.pages, h.taken);
    if r.bucket < LOCALBUCKETS {
      SmallFrame(r.base, r.bucket, x);
    } else {
      LargeFrame(r, x);
    }
  }

  lemma SmallFrame(b: nat, k: nat, x: nat)
    requires k < LOCALBUCKETS && Aligned(b, k + MINSHIFT) && b <= x < b + Pow2(k + MINSHIFT)
    ensures x / PAGE_SIZE == b / PAGE_SIZE
  {
    SmallInPage(b, k);
  }

  lemma LargeFrame(r: Region, x: nat)
    requires LargeAt(r) && r.base <= x < r.base + Pow2(r.bucket + MINSHIFT)
    ensures x / PAGE_SIZE in FramesOf(r)
  {
    LargeBytes(r);
  }

  // ----- What each operation does to the heap

  function Push(lists: seq<seq<nat>>, k: nat, b: nat): seq<seq<nat>>
    requires k < |lists|
  {
    lists[k := [b] + lists[k]]
  }

  function Pop(lists: seq<seq<nat>>, k: nat): seq<seq<nat>>
    requires k < |lists| && lists[k] != []
  {
    lists[k := lists[k][1..]]
  }

  lemma PopListed(pages: map<nat, nat>, lists: seq<seq<nat>>, owner: map<nat, nat>, k: nat)
    requires Listed(pages, lists, owner, {}) && k < LOCALBUCKETS && lists[k] != []
    ensures Small(pages, lists[k][0], k) && lists[k][0] !in owner
    ensures Listed(pages, Pop(lists, k), owner, {lists[k][0]})
  {
    var b, l := lists[k][0], lists[k];
    assert b in l && l == [b] + l[1..];
    forall j: nat, c: nat | j < LOCALBUCKETS
      ensures c in Pop(lists, k)[j] <==> Small(pages, c, j) && c !in owner && c !in {b}
    {
    }
  }

  lemma PushListed(pages: map<nat, nat>, lists: seq<seq<nat>>, owner: map<nat, nat>, k: nat, b: nat)
    requires Listed(pages, lists, owner, {}) && Small(pages, b, k) && b in owner
    ensures Listed(pages, Push(lists, k, b), owner - {b}, {})
  {
    assert b !in lists[k];
    forall j: nat, c: nat | j < LOCALBUCKETS
      ensures c in Push(lists, k, b)[j] <==> Small(pages, c, j) && c !in owner - {b} && c !in {}
    {
    }
  }

  /** A fresh page cut into blocks: the first is taken, `lists'[k]` gains all the others. */
  lemma NewPageListed(pages: map<nat, nat>, lists: seq<seq<nat>>, lists': seq<seq<nat>>, owner: map<nat, nat>, k: nat,
                      f: nat)
    requires Listed(pages, lists, owner, {}) && k < LOCALBUCKETS && f !in pages
    requires forall b: nat :: b in owner ==> b / PAGE_SIZE != f
    requires |lists'| == LOCALBUCKETS && NoDup(lists'[k])
    requires forall j: nat :: j < LOCALBUCKETS && j != k ==> lists'[j] == lists[j]
    requires forall b: nat :: b in lists'[k] <==>
      b in lists[k] || (Aligned(b, k + MINSHIFT) && f * PAGE_SIZE < b < f * PAGE_SIZE + PAGE_SIZE)
    ensures Listed(pages[f := k], lists', owner, {f * PAGE_SIZE})
    ensures Small(pages[f := k], f * PAGE_SIZE, k)
  {
    PageAddress(f, 0);
    AlignedWeaken(f * PAGE_SIZE, k + MINSHIFT, PAGE_SHIFT);
    var pages', pending := pages[f := k], {f * PAGE_SIZE};
    forall j: nat, c: nat | j < LOCALBUCKETS
      ensures c in lists'[j] <==> Small(pages', c, j) && c !in owner && c !in pending
    {
      assert c / PAGE_SIZE == f <==> f * PAGE_SIZE <= c < f * PAGE_SIZE + PAGE_SIZE;
      assert c in lists[j] <==> Small(pages, c, j) && c !in owner;
      if c / PAGE_SIZE == f {
        assert !Small(pages, c, j);
      } else {
        assert Small(pages', c, j) <==> Small(pages, c, j);
      }
    }
    forall j: nat | j < LOCALBUCKETS
      ensures NoDup(lists'[j])
    {
      if j != k {
        assert NoDup(lists[j]);
      }
    }
    assert Listed(pages', lists', owner, pending);
  }

  ghost function RegionsIn(live: map<nat, Region>, k: nat): set<nat> {
    set p | p in live && live[p].bucket == k
  }

  lemma CountInsert(live: map<nat, Region>, p: nat, r: Region, k: nat)
    requires p !in live
    ensures |RegionsIn(live[p := r], k)| == |RegionsIn(live, k)| + if r.bucket == k then 1 else 0
  {
    assert RegionsIn(live[p := r], k) == RegionsIn(live, k) + if r.bucket == k then {p} else {};
  }

  lemma CountRemove(live: map<nat, Region>, p: nat, k: nat)
    requires p in live
    ensures |RegionsIn(live - {p}, k)| == |RegionsIn(live, k)| - if live[p].bucket == k then 1 else 0
  {
    assert RegionsIn(live - {p}, k) == RegionsIn(live, k) - if live[p].bucket == k then {p} else {};
  }

  /** A block that is apart from every live one cannot yield a pointer already in use. */
  lemma HeaderInside(p: nat, r: Region)
    requires Fits(p, r)
    ensures r.base <= p - HDR_SIZE < r.base + Pow2(r.bucket + MINSHIFT)
  {
  }

  lemma PendingApart(h: Heap, r: Region, q: nat)
    requires h.ValidWith({r.base}) && Small(h.pages, r.base, r.bucket) && q in h.live
    ensures Apart(r.base, Pow2(r.bucket + MINSHIFT), h.live[q].base, Pow2(h.live[q].bucket + MINSHIFT))
  {
    var t := h.live[q];
    assert LargeRegion(t, h.pages, h.taken);
    if t.bucket < LOCALBUCKETS {
      SmallsApart(h.pages, r.base, r.bucket, t.base, t.bucket);
    } else {
      SmallLargeApart(h.pages, r.base, r.bucket, t);
    }
  }

  /** One pointer cannot fit two blocks that are apart. */
  lemma OnePointer(p: nat, r: Region, t: Region)
    requires Fits(p, r) && Fits(p, t)
    ensures !Apart(r.base, Pow2(r.bucket + MINSHIFT), t.base, Pow2(t.bucket + MINSHIFT))
  {
    HeaderInside(p, r);
    HeaderInside(p, t);
  }

  lemma FreshSmall(h: Heap, p: nat, r: Region)
    requires h.ValidWith({r.base}) && Small(h.pages, r.base, r.bucket) && Fits(p, r)
    ensures p !in h.live
  {
    if p in h.live {
      PendingApart(h, r, p);
      OnePointer(p, r, h.live[p]);
      assert false;
    }
  }

  lemma RegisterSmall(h: Heap, p: nat, r: Region)
    requires h.ValidWith({r.base}) && Small(h.pages, r.base, r.bucket) && Fits(p, r)
    ensures p !in h.live
    ensures h.(live := h.live[p := r], owner := h.owner[r.base := p]).Valid()
  {
    FreshSmall(h, p, r);
    assert Listed(h.pages, h.lists, h.owner[r.base := p], {});
    RegisterRest(h, p, r);
  }

  /** The parts of the invariant that registering a region does not touch on the lists. */
  lemma RegisterRest(h: Heap, p: nat, r: Region)
    requires p !in h.live && r.base !in h.owner && Fits(p, r)
    requires Owned(h.live, h.owner) && SmallRegions(h.live, h.pages) && FramesApart(h.live, h.pages, h.taken)
    requires forall q: nat {:trigger Fits(q, h.live[q])} :: q in h.live ==> Fits(q, h.live[q])
    requires r.bucket < LOCALBUCKETS ==> Small(h.pages, r.base, r.bucket)
    requires LargeRegion(r, h.pages, h.taken)
    requires forall q: nat {:trigger FramesDisjoint(h.live[q], r)} :: q in h.live ==> FramesDisjoint(h.live[q], r)
    ensures var live', owner' := h.live[p := r], h.owner[r.base := p];
      && Owned(live', owner') && SmallRegions(live', h.pages) && FramesApart(live', h.pages, h.taken)
      && (forall q: nat {:trigger Fits(q, live'[q])} :: q in live' ==> Fits(q, live'[q]))
  {
    var live' := h.live[p := r];
    forall q: nat | q in live'
      ensures LargeRegion(live'[q], h.pages, h.taken) && Fits(q, live'[q])
    {
      if q != p {
        assert LargeRegion(h.live[q], h.pages, h.taken) && Fits(q, h.live[q]);
      }
    }
    forall q: nat, q': nat | q in live' && q' in live' && q != q'
      ensures FramesDisjoint(live'[q], live'[q'])
    {
      if q == p {
        assert FramesDisjoint(h.live[q'], r);
      } else if q' == p {
        assert FramesDisjoint(h.live[q], r);
      } else {
        assert FramesDisjoint(h.live[q], h.live[q']);
      }
    }
  }

  lemma RegisterLarge(h: Heap, p: nat, r: Region)
    requires h.Valid() && LargeAt(r) && Fits(p, r)
    requires FramesOf(r) !! h.taken
    ensures p !in h.live
    ensures h.(live := h.live[p := r], owner := h.owner[r.base := p], taken := h.taken + FramesOf(r)).Valid()
  {
    assert p !in h.live && r.base !in h.owner by {
      FreshLarge(h, p, r);
    }
    var h' := h.(taken := h.taken + FramesOf(r));
    assert FramesApart(h'.live, h'.pages, h'.taken) by {
      forall q: nat | q in h.live
        ensures LargeRegion(h.live[q], h.pages, h'.taken)
      {
        assert LargeRegion(h.live[q], h.pages, h.taken);
      }
    }
    forall q: nat | q in h.live
      ensures FramesDisjoint(h.live[q], r)
    {
      assert LargeRegion(h.live[q], h.pages, h.taken);
    }
    RegisterRest(h', p, r);
    LargeBaseNotSmall(h, p, r);
  }

  lemma LargeBaseNotSmall(h: Heap, p: nat, r: Region)
    requires h.Valid() && LargeAt(r) && FramesOf(r) !! h.taken
    ensures Listed(h.pages, h.lists, h.owner[r.base := p], {})
  {
    assert r.base / PAGE_SIZE in FramesOf(r);
    forall k: nat, b: nat | k < LOCALBUCKETS
      ensures b in h.lists[k] <==> Small(h.pages, b, k) && b !in h.owner[r.base := p] && b !in {}
    {
      assert !Small(h.pages, r.base, k);
    }
  }

  /** A block in frames that were free meets no live region. */
  lemma FreshLarge(h: Heap, p: nat, r: Region)
    requires h.Valid() && LargeAt(r) && Fits(p, r) && FramesOf(r) !! h.taken
    ensures p !in h.live && r.base !in h.owner
  {
    HeaderInside(p, r);
    LargeFrame(r, p - HDR_SIZE);
    LargeFrame(r, r.base);
    if p in h.live {
      assert Fits(p, h.live[p]);
      HeaderInside(p, h.live[p]);
      LiveInTakenFrames(h, p, p - HDR_SIZE);
      assert false;
    }
    if r.base in h.owner {
      LiveInTakenFrames(h, h.owner[r.base], r.base);
      assert false;
    }
  }

  lemma UnregisterRest(h: Heap, p: nat)
    requires h.Valid() && p in h.live
    ensures var live', owner' := h.live - {p}, h.owner - {h.live[p].base};
      && Owned(live', owner') && SmallRegions(live', h.pages) && FramesApart(live', h.pages, h.taken)
      && (forall q: nat {:trigger Fits(q, live'[q])} :: q in live' ==> Fits(q, live'[q]))
  {
    var live' := h.live - {p};
    forall q: nat | q in live'
      ensures LargeRegion(live'[q], h.pages, h.taken) && Fits(q, live'[q])
    {
      assert LargeRegion(h.live[q], h.pages, h.taken) && Fits(q, h.live[q]);
    }
    forall q: nat, q': nat | q in live' && q' in live' && q != q'
      ensures FramesDisjoint(live'[q], live'[q'])
    {
      assert FramesDisjoint(h.live[q], h.live[q']);
    }
  }

  lemma UnregisterSmall(h: Heap, p: nat)
    requires h.Valid() && p in h.live && h.live[p].bucket < LOCALBUCKETS
    ensures var r := h.live[p];
      h.(live := h.live - {p}, owner := h.owner - {r.base}, lists := Push(h.lists, r.bucket, r.base)).Valid()
  {
    var r := h.live[p];
    UnregisterRest(h, p);
    PushListed(h.pages, h.lists, h.owner, r.bucket, r.base);
  }

  lemma UnregisterLarge(h: Heap, p: nat)
    requires h.Valid() && p in h.live && h.live[p].bucket >= LOCALBUCKETS
    ensures var r := h.live[p];
      && LargeAt(r) && FramesOf(r) <= h.taken
      && h.(live := h.live - {p}, owner := h.owner - {r.base}, taken := h.taken - FramesOf(r)).Valid()
  {
    var r := h.live[p];
    assert LargeRegion(r, h.pages, h.taken);
    UnregisterRest(h, p);
    var live', owner', taken' := h.live - {p}, h.owner - {r.base}, h.taken - FramesOf(r);
    forall q: nat | q in live'
      ensures LargeRegion(live'[q], h.pages, taken')
    {
      assert LargeRegion(h.live[q], h.pages, h.taken) && FramesDisjoint(h.live[q], h.live[p]);
    }
    forall q: nat, q': nat | q in live' && q' in live' && q != q'
      ensures FramesDisjoint(live'[q], live'[q'])
    {
      assert FramesDisjoint(h.live[q], h.live[q']);
    }
    assert r.base / PAGE_SIZE in FramesOf(r);
    forall k: nat, b: nat | k < LOCALBUCKETS
      ensures b in h.lists[k] <==> Small(h.pages, b, k) && b !in owner' && b !in {}
    {
      assert !Small(h.pages, r.base, k);
    }
  }

  lemma NewPage(h: Heap, lists': seq<seq<nat>>, k: nat, f: nat)
    requires h.Valid() && k < LOCALBUCKETS && f !in h.taken
    requires |lists'| == LOCALBUCKETS && NoDup(lists'[k])
    requires forall j: nat :: j < LOCALBUCKETS && j != k ==> lists'[j] == h.lists[j]
    requires forall b: nat :: b in lists'[k] <==>
      b in h.lists[k] || (Aligned(b, k + MINSHIFT) && f * PAGE_SIZE < b < f * PAGE_SIZE + PAGE_SIZE)
    ensures h.(pages := h.pages[f := k], lists := lists', taken := h.taken + {f}).ValidWith({f * PAGE_SIZE})
    ensures Small(h.pages[f := k], f * PAGE_SIZE, k)
  {
    var base, pages', taken' := f * PAGE_SIZE, h.pages[f := k], h.taken + {f};
    forall b: nat | b in h.owner
      ensures b / PAGE_SIZE != f
    {
      LiveInTakenFrames(h, h.owner[b], b);
    }
    NewPageListed(h.pages, h.lists, lists', h.owner, k, f);
    assert base / PAGE_SIZE == f;
    assert base !in h.owner;
    forall q: nat | q in h.live
      ensures LargeRegion(h.live[q], pages', taken')
    {
      assert LargeRegion(h.live[q], h.pages, h.taken);
    }
    forall q: nat | q in h.live && h.live[q].bucket < LOCALBUCKETS
      ensures Small(pages', h.live[q].base, h.live[q].bucket)
    {
      assert Small(h.pages, h.live[q].base, h.live[q].bucket);
    }
  }

  /** `nmalloc[k]` is the number of live regions of bucket `k`. */
  ghost predicate Counted(live: map<nat, Region>, nmalloc: seq<nat>) {
    && |nmalloc| == LOCALBUCKETS
    && forall k: nat {:trigger nmalloc[k]} :: k < LOCALBUCKETS ==> nmalloc[k] == |RegionsIn(live, k)|
  }

  /** The header in front of each live pointer describes its region. */
  ghost predicate Headed(live: map<nat, Region>, header: map<nat, Header>) {
    forall p: nat :: p in live ==>
      p >= HDR_SIZE && p - HDR_SIZE in header
      && header[p - HDR_SIZE] == Header(live[p].pad, MAGIC, live[p].bucket, live[p].who)
  }

  class MemAllocator {
    const pg: PageAllocator
    var freebuckets: seq<seq<nat>>
    var nmalloc: seq<nat>
    /** The allocation headers in memory, by address. */
    var header: map<nat, Header>
    /** The bytes of the machine's memory, by address. */
    var mem: seq<int>
    ghost var heap: Heap

    /** The frames in use here come from the page allocator. */
    ghost predicate FramesTaken()
      reads `heap, pg
    {
      heap.taken !! pg.free && forall f: nat :: f in heap.taken ==> pg.Managed(f)
    }

    ghost predicate ValidWith(pending: set<nat>)
      reads `freebuckets, `heap, pg, pg.bitmap
    {
      pg.Valid() && heap.ValidWith(pending) && heap.lists == freebuckets && FramesTaken()
    }

    ghost predicate Valid()
      reads `freebuckets, `nmalloc, `header, `heap, `mem, pg, pg.bitmap
    {
      pg.Valid() && FramesTaken() && Booked() && Backed()
    }

    /** There is memory behind every managed page. */
    ghost predicate Backed()
      reads `mem, pg`maxPage
    {
      |mem| >= pg.maxPage * PAGE_SIZE
    }

    /** `bmk_memalloc_init` over a page allocator that is already loaded. */
    constructor (pg: PageAllocator, mem: seq<int>)
      requires pg.Valid() && |mem| >= pg.maxPage * PAGE_SIZE
      ensures this.pg == pg && this.mem == mem && Valid() && heap.live == map[]
    {
      this.pg := pg;
      freebuckets := seq(LOCALBUCKETS, _ => []);
      nmalloc := seq(LOCALBUCKETS, _ => 0);
      header := map[];
      this.mem := mem;
      heap := Heap(map[], map[], map[], seq(LOCALBUCKETS, _ => []), {});
      new;
      forall k: nat | k < LOCALBUCKETS
        ensures nmalloc[k] == |RegionsIn(heap.live, k)|
      {
        assert RegionsIn(heap.live, k) == {};
      }
    }

    /** `morecore`: cuts a fresh page into blocks and lists all but the first. */
    method MoreCore(bucket: nat) returns (r: Option<nat>)
      requires ValidWith({}) && bucket < LOCALBUCKETS
      modifies `freebuckets, `heap, pg, pg.bitmap
      ensures pg.bitmap == old(pg.bitmap) && pg.minPage == old(pg.minPage) && pg.maxPage == old(pg.maxPage)
      ensures heap.live == old(heap.live) && heap.owner == old(heap.owner)
      ensures r.None? <==> NoPages(old(pg.free), 0)
      ensures r.None? ==> ValidWith({})
      ensures r.Some? ==> ValidWith({r.value}) && Small(heap.pages, r.value, bucket)
      ensures Conserved(old(heap.taken), old(pg.free), heap.taken, pg.free)
    {
      var f := pg.PgAlloc(0);
      if f.None? {
        return None;
      }
      TakeFrame(heap.taken, old(pg.free), pg.free, f.value);
      CutFrame(f.value, bucket);
      return Some(f.value * PAGE_SIZE);
    }

    /** A frame just taken becomes blocks of the bucket, the first one pending. */
    method CutFrame(f: nat, bucket: nat)
      requires ValidWith({}) && bucket < LOCALBUCKETS && f !in heap.taken && f !in pg.free && pg.Managed(f)
      modifies `freebuckets, `heap
      ensures ValidWith({f * PAGE_SIZE}) && Small(heap.pages, f * PAGE_SIZE, bucket)
      ensures heap.live == old(heap.live) && heap.owner == old(heap.owner) && heap.taken == old(heap.taken) + {f}
    {
      ghost var pages' := heap.pages[f := bucket];
      freebuckets := CutPage(f, bucket, freebuckets, heap);
      heap := heap.(pages := pages', lists := freebuckets, taken := heap.taken + {f});
    }

    /** `bucketalloc`. */
    method BucketAlloc(bucket: nat) returns (r: Option<nat>)
      requires ValidWith({}) && bucket < LOCALBUCKETS && |nmalloc| == LOCALBUCKETS
      modifies `freebuckets, `heap, `nmalloc, pg, pg.bitmap
      ensures pg.bitmap == old(pg.bitmap) && pg.minPage == old(pg.minPage) && pg.maxPage == old(pg.maxPage)
      ensures heap.live == old(heap.live) && heap.owner == old(heap.owner)
      ensures r.None? <==> old(freebuckets[bucket]) == [] && NoPages(old(pg.free), 0)
      ensures r.None? ==> ValidWith({}) && nmalloc == old(nmalloc)
      ensures r.Some? ==> ValidWith({r.value}) && Small(heap.pages, r.value, bucket)
      ensures r.Some? ==> nmalloc == old(nmalloc)[bucket := old(nmalloc[bucket]) + 1]
      ensures Conserved(old(heap.taken), old(pg.free), heap.taken, pg.free)
    {
      if freebuckets[bucket] == [] {
        r := MoreCore(bucket);
        if r.None? {
          return;
        }
      } else {
        var b := TakeHead(bucket);
        r := Some(b);
      }
      nmalloc := nmalloc[bucket := nmalloc[bucket] + 1];
    }

    method TakeHead(bucket: nat) returns (b: nat)
      requires ValidWith({}) && bucket < LOCALBUCKETS && freebuckets[bucket] != []
      modifies `freebuckets, `heap
      ensures ValidWith({b}) && Small(heap.pages, b, bucket)
      ensures heap.live == old(heap.live) && heap.owner == old(heap.owner) && heap.taken == old(heap.taken)
      ensures b == old(freebuckets[bucket])[0] && freebuckets == Pop(old(freebuckets), bucket)
    {
      b := freebuckets[bucket][0];
      TakeListed(heap, bucket);
      freebuckets := Pop(freebuckets, bucket);
      heap := heap.(lists := freebuckets);
    }

    /** The part of the invariant that does not concern the page allocator. */
    ghost predicate Booked()
      reads `freebuckets, `nmalloc, `header, `heap
    {
      heap.Valid() && heap.lists == freebuckets && Counted(heap.live, nmalloc) && Headed(heap.live, header)
    }

    /** The end of `bmk_memalloc`: aligns past the header, fills it in, records the region. */
    method Install(hdr: nat, al: nat, bucket: nat, who: Who, ghost region: Region, ghost h: Heap, ghost a: nat)
        returns (rv: nat)
      requires Headed(heap.live, header) && h.lists == freebuckets
      requires region.base == hdr && region.bucket == bucket && region.pad == al && region.who == who
      requires Installable(heap.live, nmalloc, region, h, a)
      modifies `header, `heap
      ensures Booked() && rv == hdr + al && heap == h
      ensures Added(old(heap.live), heap.live, rv, al, region.nbytes, who)
    {
      NewRegion(heap.live, hdr + al, region);
      rv := PastHeader(hdr, al, bucket + MINSHIFT, a);
      HeadedInsert(heap.live, header, rv, region);
      header := header[rv - HDR_SIZE := Header(rv - hdr, MAGIC, bucket, who)];
      heap := h;
    }

    method InstallSmall(hdr: nat, al: nat, bucket: nat, nbytes: nat, who: Who, ghost nm: seq<nat>, ghost a: nat)
        returns (rv: nat)
      requires heap.ValidWith({hdr}) && heap.lists == freebuckets && Headed(heap.live, header)
      requires Small(heap.pages, hdr, bucket) && Fitting(nbytes, al, bucket, a)
      requires Counted(heap.live, nm) && nmalloc == nm[bucket := nm[bucket] + 1]
      modifies `header, `heap
      ensures Booked() && heap.taken == old(heap.taken)
      ensures Added(old(heap.live), heap.live, rv, al, nbytes, who)
    {
      ghost var region := Region(hdr, bucket, al, nbytes, who);
      ghost var h := SmallReady(heap, nm, nmalloc, region, a);
      rv := Install(hdr, al, bucket, who, region, h, a);
    }

    method InstallLarge(f: nat, al: nat, bucket: nat, nbytes: nat, who: Who, ghost C: set<nat>, ghost a: nat)
        returns (rv: nat)
      requires Booked()
      requires LOCALBUCKETS <= bucket < LOCALBUCKETS + LEVELS && Fitting(nbytes, al, bucket, a)
      requires Aligned(f, bucket - LOCALBUCKETS) && C == Block(f, bucket - LOCALBUCKETS) && C !! heap.taken
      modifies `header, `heap
      ensures Booked() && heap.taken == old(heap.taken) + C
      ensures Added(old(heap.live), heap.live, rv, al, nbytes, who) && PagesOf(heap.live, rv) == C
    {
      var hdr := f * PAGE_SIZE;
      ghost var region := Region(hdr, bucket, al, nbytes, who);
      ghost var p := hdr + al;
      ghost var h := heap.(live := heap.live[p := region], owner := heap.owner[hdr := p], taken := heap.taken + C);
      PlaceLarge(heap, h, p, region, f, C, a);
      CountedInsertLarge(heap.live, nmalloc, p, region);
      assert Installable(heap.live, nmalloc, region, h, a);
      rv := Install(hdr, al, bucket, who, region, h, a);
    }

    method AllocSmall(nbytes: nat, al: nat, bucket: nat, who: Who, ghost a: nat) returns (r: Option<nat>)
      requires Valid() && bucket < LOCALBUCKETS && Fitting(nbytes, al, bucket, a)
      modifies `freebuckets, `heap, `nmalloc, `header, pg, pg.bitmap
      ensures Valid() && pg.bitmap == old(pg.bitmap) && pg.minPage == old(pg.minPage) && pg.maxPage == old(pg.maxPage)
      ensures r.None? <==> old(freebuckets[bucket]) == [] && NoPages(old(pg.free), 0)
      ensures r.None? ==> heap.live == old(heap.live)
      ensures r.Some? ==> Added(old(heap.live), heap.live, r.value, al, nbytes, who)
      ensures Conserved(old(heap.taken), old(pg.free), heap.taken, pg.free)
    {
      r := BucketAlloc(bucket);
      if r.Some? {
        var rv := InstallSmall(r.value, al, bucket, nbytes, who, old(nmalloc), a);
        r := Some(rv);
      }
    }

    method GetPages(order: nat) returns (f: Option<nat>, ghost C: set<nat>)
      requires pg.Valid() && FramesTaken() && order < LEVELS
      modifies pg, pg.bitmap
      ensures pg.Valid() && FramesTaken() && pg.bitmap == old(pg.bitmap)
      ensures pg.minPage == old(pg.minPage) && pg.maxPage == old(pg.maxPage)
      ensures f.None? <==> NoPages(old(pg.free), order)
      ensures f.Some? ==> pg.free == old(pg.free) - C
      ensures f.Some? ==> Aligned(f.value, order) && C == Block(f.value, order) && C !! heap.taken
      ensures f.Some? ==> heap.taken + C !! pg.free && forall x: nat :: x in C ==> pg.Managed(x)
      ensures C <= old(pg.free) && (f.None? ==> pg.free == old(pg.free))
    {
      f := pg.PgAlloc(order);
      C := {};
      if f.Some? {
        C := Block(f.value, order);
        TakeFrames(heap.taken, old(pg.free), pg.free, f.value, order, C);
      }
    }

    method AllocLarge(nbytes: nat, al: nat, bucket: nat, who: Who, ghost a: nat) returns (r: Option<nat>)
      requires Valid() && LOCALBUCKETS <= bucket < LOCALBUCKETS + LEVELS && Fitting(nbytes, al, bucket, a)
      modifies `heap, `header, pg, pg.bitmap
      ensures Valid() && pg.bitmap == old(pg.bitmap) && pg.minPage == old(pg.minPage) && pg.maxPage == old(pg.maxPage)
      ensures r.None? <==> NoPages(old(pg.free), bucket - LOCALBUCKETS)
      ensures r.Some? ==> r.value in heap.live && pg.free == old(pg.free) - PagesOf(heap.live, r.value)
      ensures r.None? ==> heap.live == old(heap.live)
      ensures r.Some? ==> Added(old(heap.live), heap.live, r.value, al, nbytes, who)
      ensures Conserved(old(heap.taken), old(pg.free), heap.taken, pg.free)
    {
      var f;
      ghost var C;
      f, C := GetPages(bucket + MINSHIFT - PAGE_SHIFT);
      r := None;
      if f.Some? {
        var rv := UsePages(f.value, al, bucket, nbytes, who, C, a);
        r := Some(rv);
      }
    }

    /** A region in pages just taken from the page allocator. */
    method UsePages(f: nat, al: nat, bucket: nat, nbytes: nat, who: Who, ghost C: set<nat>, ghost a: nat)
        returns (rv: nat)
      requires pg.Valid() && Booked() && Backed()
      requires LOCALBUCKETS <= bucket < LOCALBUCKETS + LEVELS && Fitting(nbytes, al, bucket, a)
      requires Aligned(f, bucket - LOCALBUCKETS) && C == Block(f, bucket - LOCALBUCKETS) && C !! heap.taken
      requires heap.taken + C !! pg.free && forall x: nat :: x in heap.taken + C ==> pg.Managed(x)
      modifies `header, `heap
      ensures Valid() && Added(old(heap.live), heap.live, rv, al, nbytes, who) && PagesOf(heap.live, rv) == C
      ensures heap.taken == old(heap.taken) + C
    {
      rv := InstallLarge(f, al, bucket, nbytes, who, C, a);
    }

    /**
      `bmk_memalloc`. A request that is not refused for its alignment yields a pointer aligned
      as asked, behind its header, inside the smallest block that fits.
     */
    method MemAlloc(nbytes: nat, align: nat, who: Who) returns (r: Option<nat>)
      requires Valid()
      requires AtMostOneBit(align) ==> align <= MAX_ALIGN && nbytes + Effective(align) <= MAX_BLOCK
      modifies `freebuckets, `heap, `nmalloc, `header, pg, pg.bitmap
      ensures Valid() && pg.bitmap == old(pg.bitmap) && pg.minPage == old(pg.minPage) && pg.maxPage == old(pg.maxPage)
      ensures !AtMostOneBit(align) ==> r.None?
      ensures AtMostOneBit(align) ==>
        (r.None? <==> Exhausted(old(freebuckets), old(pg.free), BucketOf(nbytes + Effective(align))))
      ensures r.None? ==> heap.live == old(heap.live)
      ensures r.Some? ==> Added(old(heap.live), heap.live, r.value, Effective(align), nbytes, who)
      ensures r.Some? ==> r.value % 16 == 0 && (align > 0 ==> r.value % align == 0)
      ensures Conserved(old(heap.taken), old(pg.free), heap.taken, pg.free)
    {
      if !AtMostOneBit(align) {
        return None;
      }
      var al, bucket;
      ghost var a;
      al, bucket, a := ChooseBucket(nbytes, align);
      r := AllocBlock(nbytes, al, bucket, who, a);
      if r.Some? {
        PointerAligned(heap, r.value, align);
      }
    }

    /** A block of the bucket from its list or the page allocator, with the header filled in. */
    method AllocBlock(nbytes: nat, al: nat, bucket: nat, who: Who, ghost a: nat) returns (r: Option<nat>)
      requires Valid() && bucket < LOCALBUCKETS + LEVELS && Fitting(nbytes, al, bucket, a)
      modifies `freebuckets, `heap, `nmalloc, `header, pg, pg.bitmap
      ensures Valid() && pg.bitmap == old(pg.bitmap) && pg.minPage == old(pg.minPage) && pg.maxPage == old(pg.maxPage)
      ensures r.None? <==> Exhausted(old(freebuckets), old(pg.free), bucket)
      ensures r.None? ==> heap.live == old(heap.live)
      ensures r.Some? ==> Added(old(heap.live), heap.live, r.value, al, nbytes, who)
      ensures Conserved(old(heap.taken), old(pg.free), heap.taken, pg.free)
    {
      if bucket >= LOCALBUCKETS {
        r := AllocLarge(nbytes, al, bucket, who, a);
      } else {
        r := AllocSmall(nbytes, al, bucket, who, a);
      }
    }

    /** What `bmk_memfree` may be handed: nothing, a live pointer of the right owner, or junk it detects. */
    ghost predicate Freeable(cp: nat, who: Who)
      reads `header, `heap
    {
      || cp == 0
      || (cp in heap.live && heap.live[cp].who == who)
      || (cp >= HDR_SIZE && cp !in heap.live && cp - HDR_SIZE in header && header[cp - HDR_SIZE].magic != MAGIC)
    }

    /** `bmk_memfree`. */
    method MemFree(cp: nat, who: Who)
      requires Valid() && Freeable(cp, who)
      modifies `freebuckets, `heap, `nmalloc, pg, pg.bitmap
      ensures Valid() && pg.bitmap == old(pg.bitmap) && pg.minPage == old(pg.minPage) && pg.maxPage == old(pg.maxPage)
      ensures heap.live == old(heap.live) - {cp}
      ensures pg.free == old(pg.free) + PagesOf(old(heap.live), cp)
      ensures Conserved(old(heap.taken), old(pg.free), heap.taken, pg.free)
    {
      PointerLayout(heap, cp);
      if cp == 0 {
        return;
      }
      var hdr := header[cp - HDR_SIZE];
      if hdr.magic != MAGIC {
        return;
      }
      FreeBlock(cp - hdr.alignpad, hdr.index, cp);
    }

    /** The block goes back to the page allocator or to its bucket. */
    method FreeBlock(origp: nat, index: nat, ghost cp: nat)
      requires Valid() && cp in heap.live && heap.live[cp].base == origp && heap.live[cp].bucket == index
      modifies `freebuckets, `heap, `nmalloc, pg, pg.bitmap
      ensures Valid() && pg.bitmap == old(pg.bitmap) && pg.minPage == old(pg.minPage) && pg.maxPage == old(pg.maxPage)
      ensures heap.live == old(heap.live) - {cp} && pg.free == old(pg.free) + PagesOf(old(heap.live), cp)
      ensures Conserved(old(heap.taken), old(pg.free), heap.taken, pg.free)
    {
      if index >= LOCALBUCKETS {
        FreeLarge(origp, index, cp);
      } else {
        FreeSmall(origp, index, cp);
      }
    }

    method FreeSmall(origp: nat, index: nat, ghost cp: nat)
      requires Booked() && cp in heap.live
      requires heap.live[cp].base == origp && heap.live[cp].bucket == index < LOCALBUCKETS
      modifies `freebuckets, `heap, `nmalloc
      ensures Booked() && heap.live == old(heap.live) - {cp} && heap.taken == old(heap.taken)
    {
      UnregisterSmall(heap, cp);
      CountedRemove(heap.live, nmalloc, cp);
      freebuckets := Push(freebuckets, index, origp);
      nmalloc := nmalloc[index := nmalloc[index] - 1];
      heap := heap.(live := heap.live - {cp}, owner := heap.owner - {origp}, lists := freebuckets);
    }

    method FreeLarge(origp: nat, index: nat, ghost cp: nat)
      requires Valid() && cp in heap.live
      requires heap.live[cp].base == origp && heap.live[cp].bucket == index >= LOCALBUCKETS
      modifies `heap, pg, pg.bitmap
      ensures Valid() && pg.bitmap == old(pg.bitmap) && pg.minPage == old(pg.minPage) && pg.maxPage == old(pg.maxPage)
      ensures heap.live == old(heap.live) - {cp} && pg.free == old(pg.free) + FramesOf(old(heap.live)[cp])
      ensures Conserved(old(heap.taken), old(pg.free), heap.taken, pg.free)
    {
      ghost var C := FramesOf(heap.live[cp]);
      UnregisterLarge(heap, cp);
      CountedRemoveLarge(heap.live, nmalloc, cp);
      heap := heap.(live := heap.live - {cp}, owner := heap.owner - {origp}, taken := heap.taken - C);
      GivePages(origp / PAGE_SIZE, index + MINSHIFT - PAGE_SHIFT, C);
    }

    method GivePages(f: nat, order: nat, ghost C: set<nat>)
      requires pg.Valid() && FramesTaken() && order < LEVELS && Aligned(f, order)
      requires C == Block(f, order) && C !! pg.free && C !! heap.taken
      requires forall x: nat :: x in C ==> pg.Managed(x)
      modifies pg, pg.bitmap
      ensures pg.Valid() && FramesTaken() && pg.bitmap == old(pg.bitmap)
      ensures pg.minPage == old(pg.minPage) && pg.maxPage == old(pg.maxPage)
      ensures pg.free == old(pg.free) + C
    {
      assert f in C && f + Pow2(order) - 1 in C;
      pg.PgFree(f, order);
    }

    /**
      `bmk_memcalloc`: refuses a product that does not fit 64 bits, otherwise clears the
      memory it returns.
     */
    method MemCalloc(n: nat, size: nat, who: Who) returns (r: Option<nat>)
      requires Valid() && n < WORD_LIMIT && size < WORD_LIMIT
      requires n * size < WORD_LIMIT ==> n * size + MINALIGN <= MAX_BLOCK
      modifies `freebuckets, `heap, `nmalloc, `header, `mem, pg, pg.bitmap
      ensures Valid() && pg.bitmap == old(pg.bitmap) && pg.minPage == old(pg.minPage) && pg.maxPage == old(pg.maxPage)
      ensures n * size >= WORD_LIMIT ==> r.None?
      ensures n * size < WORD_LIMIT ==> (r.None? <==> NoRoom(old(freebuckets), old(pg.free), n * size))
      ensures r.None? ==> heap.live == old(heap.live) && mem == old(mem)
      ensures r.Some? ==>
        && Added(old(heap.live), heap.live, r.value, MINALIGN, n * size, who)
        && r.value + n * size <= |old(mem)| && mem == Clear(old(mem), r.value, n * size)
      ensures Conserved(old(heap.taken), old(pg.free), heap.taken, pg.free)
    {
      var tot, wraps := Product(n, size);
      if wraps {
        return None;
      }
      r := AllocCleared(tot, who);
    }

    method AllocCleared(tot: nat, who: Who) returns (r: Option<nat>)
      requires Valid() && tot + MINALIGN <= MAX_BLOCK
      modifies `freebuckets, `heap, `nmalloc, `header, `mem, pg, pg.bitmap
      ensures Valid() && pg.bitmap == old(pg.bitmap) && pg.minPage == old(pg.minPage) && pg.maxPage == old(pg.maxPage)
      ensures r.None? <==> NoRoom(old(freebuckets), old(pg.free), tot)
      ensures r.None? ==> heap.live == old(heap.live) && mem == old(mem)
      ensures r.Some? ==>
        && Added(old(heap.live), heap.live, r.value, MINALIGN, tot, who)
        && r.value + tot <= |old(mem)| && mem == Clear(old(mem), r.value, tot)
      ensures Conserved(old(heap.taken), old(pg.free), heap.taken, pg.free)
    {
      OneBitOf16();
      r := MemAlloc(tot, MINALIGN, who);
      if r.Some? {
        ClearRegion(r.value, tot);
      }
    }

    method ClearRegion(p: nat, tot: nat)
      requires Valid() && p in heap.live && heap.live[p].nbytes == tot
      modifies `mem
      ensures Valid() && p + tot <= |old(mem)| && mem == Clear(old(mem), p, tot)
    {
      RegionInMemory(p);
      mem := Clear(mem, p, tot);
    }

    /**
      `bmk_memrealloc_user` of a live user pointer, of null, or down to zero bytes. What was
      usable in the old block is kept; when memory runs out the old region stays.
     */
    method MemRealloc(cp: nat, nbytes: nat) returns (r: Option<nat>)
      requires Valid() && nbytes + MINALIGN <= MAX_BLOCK
      requires cp == 0 || (cp in heap.live && heap.live[cp].who == User && heap.live[cp].bucket + MINSHIFT < 31)
      modifies `freebuckets, `heap, `nmalloc, `header, `mem, pg, pg.bitmap
      ensures Valid() && pg.bitmap == old(pg.bitmap) && pg.minPage == old(pg.minPage) && pg.maxPage == old(pg.maxPage)
      ensures cp == 0 && r.Some? ==> Added(old(heap.live), heap.live, r.value, MINALIGN, nbytes, User)
      ensures cp == 0 || nbytes == 0 || r.None? ==> mem == old(mem)
      ensures r.None? ==> heap.live == if cp != 0 && nbytes == 0 then old(heap.live) - {cp} else old(heap.live)
      ensures cp == 0 ==> (r.None? <==> NoRoom(old(freebuckets), old(pg.free), nbytes))
      ensures cp != 0 && nbytes == 0 ==> r.None?
      ensures cp != 0 && nbytes > 0 ==>
        if nbytes <= Usable(old(heap.live[cp])) then r == Some(cp)
        else r.None? <==> NoRoom(old(freebuckets), old(pg.free), nbytes)
      ensures cp != 0 && r.Some? ==>
        && Resized(old(heap.live), heap.live, cp, r.value, nbytes)
        && (r.value != cp ==> Copied(old(mem), mem, r.value, cp, Usable(old(heap.live[cp]))))
        && (r.value == cp ==> mem == old(mem))
      ensures Conserved(old(heap.taken), old(pg.free), heap.taken, pg.free)
    {
      if cp == 0 {
        OneBitOf16();
        r := MemAlloc(nbytes, MINALIGN, User);
        return;
      }
      if nbytes == 0 {
        MemFree(cp, User);
        return None;
      }
      PointerLayout(heap, cp);
      var hdr := header[cp - HDR_SIZE];
      var usable: nat := Pow2(hdr.index + MINSHIFT) - hdr.alignpad;
      if usable >= nbytes {
        return Some(cp);
      }
      r := Move(cp, nbytes, usable);
    }

    /** A live region ends inside memory. */
    lemma RegionInMemory(p: nat)
      requires Valid() && p in heap.live
      ensures p + Usable(heap.live[p]) <= |mem| && heap.live[p].nbytes <= Usable(heap.live[p])
    {
      var r := heap.live[p];
      PointerLayout(heap, p);
      LiveInTakenFrames(heap, p, r.base + Pow2(r.bucket + MINSHIFT) - 1);
    }

    method CopyRegion(p: nat, src: nat, n: nat)
      requires Valid() && p in heap.live && src in heap.live
      requires n == Usable(heap.live[src]) && n < heap.live[p].nbytes
      modifies `mem
      ensures Valid() && Copied(old(mem), mem, p, src, n) && heap.live[p].nbytes <= Usable(heap.live[p])
    {
      RegionInMemory(p);
      RegionInMemory(src);
      mem := Copy(mem, p, src, n);
    }

    /** The copying half of `bmk_memrealloc_user`. */
    method Move(cp: nat, nbytes: nat, usable: nat) returns (r: Option<nat>)
      requires Valid() && nbytes + MINALIGN <= MAX_BLOCK
      requires cp > 0 && cp in heap.live && heap.live[cp].who == User
      requires usable == Usable(heap.live[cp]) && usable < nbytes
      modifies `freebuckets, `heap, `nmalloc, `header, `mem, pg, pg.bitmap
      ensures Valid() && pg.bitmap == old(pg.bitmap) && pg.minPage == old(pg.minPage) && pg.maxPage == old(pg.maxPage)
      ensures r.None? <==> NoRoom(old(freebuckets), old(pg.free), nbytes)
      ensures r.None? ==> heap.live == old(heap.live) && mem == old(mem)
      ensures r.Some? ==> r.value != cp && Resized(old(heap.live), heap.live, cp, r.value, nbytes)
      ensures r.Some? ==> Copied(old(mem), mem, r.value, cp, usable)
      ensures Conserved(old(heap.taken), old(pg.free), heap.taken, pg.free)
    {
      ghost var was := heap.live;
      OneBitOf16();
      r := MemAlloc(nbytes, 8, User);
      if r.Some? {
        Replace(cp, r.value, nbytes, usable, was);
      }
    }

    /** Copies the usable bytes to the new region and frees the old one. */
    method Replace(cp: nat, q: nat, nbytes: nat, usable: nat, ghost was: map<nat, Region>)
      requires Valid() && cp > 0 && cp in was && was[cp].who == User && usable == Usable(was[cp]) < nbytes
      requires Added(was, heap.live, q, MINALIGN, nbytes, User)
      modifies `freebuckets, `heap, `nmalloc, `mem, pg, pg.bitmap
      ensures Valid() && pg.bitmap == old(pg.bitmap) && pg.minPage == old(pg.minPage) && pg.maxPage == old(pg.maxPage)
      ensures q != cp && Resized(was, heap.live, cp, q, nbytes) && Copied(old(mem), mem, q, cp, usable)
      ensures Conserved(old(heap.taken), old(pg.free), heap.taken, pg.free)
    {
      ghost var live := heap.live;
      CopyRegion(q, cp, usable);
      MovedRegion(was, live, cp, q, nbytes);
      MemFree(cp, User);
    }
  }

  /** No free block of this order. */
  ghost predicate NoPages(F: set<nat>, order: nat) {
    !exists c: nat :: Aligned(c, order) && Covered(F, c, order)
  }

  /** Frames only move between the free ones and those in use here. */
  ghost predicate Conserved(taken: set<nat>, free: set<nat>, taken': set<nat>, free': set<nat>) {
    forall x: nat :: x in taken' || x in free' <==> x in taken || x in free
  }

  lemma TakeFrame(taken: set<nat>, free: set<nat>, free': set<nat>, f: nat)
    requires taken !! free && Covered(free, f, 0) && free' == free - Block(f, 0)
    ensures f in free && f !in taken && f !in free' && free' <= free
    ensures Conserved(taken, free, taken + {f}, free')
  {
    CoveredEnds(free, f, 0);
    assert Block(f, 0) == {f};
  }

  /** Neither a listed block nor the pages for bucket `k`. */
  ghost predicate Exhausted(lists: seq<seq<nat>>, F: set<nat>, k: nat) {
    if k < LOCALBUCKETS then k < |lists| && lists[k] == [] && NoPages(F, 0)
    else NoPages(F, k - LOCALBUCKETS)
  }

  /** ... for a request of `nbytes` at the least alignment. */
  ghost predicate NoRoom(lists: seq<seq<nat>>, F: set<nat>, nbytes: nat) {
    Exhausted(lists, F, BucketOf(nbytes + MINALIGN))
  }

  function Effective(align: nat): nat {
    if align < MINALIGN then MINALIGN else align
  }

  /** `p` is a new region and nothing else changed. */
  ghost predicate Added(was: map<nat, Region>, live: map<nat, Region>, p: nat, pad: nat, nbytes: nat, who: Who) {
    && p !in was && p in live
    && live == was[p := live[p]]
    && live[p].pad == pad && live[p].nbytes == nbytes && live[p].who == who
  }

  lemma NewRegion(live: map<nat, Region>, p: nat, r: Region)
    requires p !in live
    ensures Added(live, live[p := r], p, r.pad, r.nbytes, r.who)
  {}

  lemma TakeListed(h: Heap, k: nat)
    requires h.Valid() && k < LOCALBUCKETS && h.lists[k] != []
    ensures Small(h.pages, h.lists[k][0], k)
    ensures h.(lists := Pop(h.lists, k)).ValidWith({h.lists[k][0]})
  {
    PopListed(h.pages, h.lists, h.owner, k);
  }

  /** A fresh page becomes blocks of `bucket`, the first one pending. */
  method CutPage(f: nat, bucket: nat, lists: seq<seq<nat>>, ghost h: Heap) returns (lists': seq<seq<nat>>)
    requires bucket < LOCALBUCKETS && h.Valid() && h.lists == lists && f !in h.taken
    ensures h.(pages := h.pages[f := bucket], lists := lists', taken := h.taken + {f}).ValidWith({f * PAGE_SIZE})
    ensures Small(h.pages[f := bucket], f * PAGE_SIZE, bucket)
  {
    forall b: nat | b in lists[bucket]
      ensures b / PAGE_SIZE != f
    {
      assert Small(h.pages, b, bucket);
    }
    assert Aligned(f * PAGE_SIZE, bucket + MINSHIFT) by {
      PageAddress(f, 0);
      AlignedWeaken(f * PAGE_SIZE, bucket + MINSHIFT, PAGE_SHIFT);
    }
    PageIsWhole(bucket);
    var l := ListBlocks(f, bucket + MINSHIFT, lists[bucket]);
    lists' := lists[bucket := l];
    NewPage(h, lists', bucket, f);
  }

  /** The loop of `morecore`: every block of the page but the first goes to the list's head. */
  method ListBlocks(f: nat, s: nat, l0: seq<nat>) returns (l: seq<nat>)
    requires Aligned(f * PAGE_SIZE, s) && NoDup(l0) && forall b: nat :: b in l0 ==> b / PAGE_SIZE != f
    requires PAGE_SIZE / Pow2(s) > 1 && Pow2(s) * (PAGE_SIZE / Pow2(s)) == PAGE_SIZE
    ensures NoDup(l)
    ensures forall b: nat :: b in l <==>
      b in l0 || (Aligned(b, s) && f * PAGE_SIZE < b < f * PAGE_SIZE + PAGE_SIZE)
  {
    var base, sz := f * PAGE_SIZE, Pow2(s);
    var p: nat, n: nat := base, PAGE_SIZE / sz - 1;
    l := l0;
    MulPred(sz, PAGE_SIZE / sz);
    while n > 0
      invariant base <= p && Aligned(p, s)
      invariant p + sz + sz * n == base + PAGE_SIZE
      invariant NoDup(l)
      invariant forall b: nat :: b in l <==> b in l0 || (Aligned(b, s) && base < b <= p)
      decreases n
    {
      MulPred(sz, n);
      NextBlock(p, s);
      assert (p + sz) / PAGE_SIZE == f;
      p, n := p + sz, n - 1;
      l := [p] + l;
    }
    NextBlock(p, s);
  }

  lemma MulPred(m: nat, n: nat)
    requires n > 0
    ensures m * n == m * (n - 1) + m && m * (n - 1) >= 0
  {
  }

  lemma NextBlock(p: nat, s: nat)
    requires Aligned(p, s)
    ensures Aligned(p + Pow2(s), s)
    ensures forall b: nat :: Aligned(b, s) && p < b <= p + Pow2(s) ==> b == p + Pow2(s)
  {
    AlignedStep(p, s);
    forall b: nat | Aligned(b, s) && p < b <= p + Pow2(s)
      ensures b == p + Pow2(s)
    {
      AlignedGap(p, b, s);
    }
  }

  lemma PageIsWhole(bucket: nat)
    requires bucket < LOCALBUCKETS
    ensures var sz := Pow2(bucket + MINSHIFT); PAGE_SIZE / sz > 1 && sz * (PAGE_SIZE / sz) == PAGE_SIZE
  {
    var sz, q := Pow2(bucket + MINSHIFT), Pow2(LOCALBUCKETS - bucket);
    Pow2Table();
    Pow2Add(bucket + MINSHIFT, LOCALBUCKETS - bucket);
    Pow2Monotone(1, LOCALBUCKETS - bucket);
    DivisionUnique(PAGE_SIZE, sz, q, 0);
  }

  /** `bucket` is the smallest whose block holds the padding and the request. */
  ghost predicate Fitting(nbytes: nat, al: nat, bucket: nat, a: nat) {
    && al == Pow2(a) && al >= MINALIGN && a <= bucket + MINSHIFT
    && al + nbytes <= Pow2(bucket + MINSHIFT)
    && (bucket > 0 ==> Pow2(bucket + MINSHIFT - 1) < al + nbytes)
  }

  lemma AlignBits(align: nat, nbytes: nat) returns (a: nat)
    requires AtMostOneBit(align) && align <= MAX_ALIGN && nbytes + Effective(align) <= MAX_BLOCK
    ensures var al := if align < MINALIGN then MINALIGN else align;
      && RoundUp(HDR_SIZE, al) == al
      && BucketOf(nbytes + al) < LOCALBUCKETS + LEVELS
      && Fitting(nbytes, al, BucketOf(nbytes + al), a)
  {
    var al := if align < MINALIGN then MINALIGN else align;
    a := AlignExponent(al, align);
    ZeroAligned(a);
    PadIsAlign(0, a, a);
    BucketBound(nbytes + al);
    FittingBucket(nbytes, al, a);
  }

  lemma AlignExponent(al: nat, align: nat) returns (a: nat)
    requires AtMostOneBit(align) && al == if align < MINALIGN then MINALIGN else align
    ensures al == Pow2(a)
  {
    if align < MINALIGN {
      a := 4;
      assert Pow2(4) == 16;
    } else {
      a := FloorLog2(align);
      OneBitIsPow2(align);
    }
  }

  lemma FittingBucket(nbytes: nat, al: nat, a: nat)
    requires al == Pow2(a) && al >= MINALIGN
    ensures Fitting(nbytes, al, BucketOf(nbytes + al), a)
  {
    var k := BucketOf(nbytes + al);
    BucketFits(nbytes + al);
    if a > k + MINSHIFT {
      Pow2Monotone(k + MINSHIFT, a);
    }
  }

  /** The order asked of the page allocator is one it has exactly up to this size. */
  lemma BucketBound(bytes: nat)
    ensures BucketOf(bytes) < LOCALBUCKETS + LEVELS <==> bytes <= 0x8000_0000_0000_0000
  {
    var k := BucketOf(bytes);
    BucketFits(bytes);
    Pow2Table();
    assert Pow2(64) == 2 * Pow2(63);
    if k >= LOCALBUCKETS + LEVELS {
      Pow2Monotone(63, k + MINSHIFT - 1);
    } else {
      Pow2Monotone(k + MINSHIFT, 63);
    }
  }

  lemma HeadedInsert(live: map<nat, Region>, header: map<nat, Header>, p: nat, r: Region)
    requires Headed(live, header) && p >= HDR_SIZE && p !in live
    ensures Headed(live[p := r], header[p - HDR_SIZE := Header(r.pad, MAGIC, r.bucket, r.who)])
  {
  }

  lemma CountedInsert(live: map<nat, Region>, nm: seq<nat>, nm': seq<nat>, p: nat, r: Region)
    requires Counted(live, nm) && p !in live && r.bucket < LOCALBUCKETS && nm' == nm[r.bucket := nm[r.bucket] + 1]
    ensures Counted(live[p := r], nm')
  {
    forall k: nat | k < LOCALBUCKETS
      ensures nm'[k] == |RegionsIn(live[p := r], k)|
    {
      CountInsert(live, p, r, k);
    }
  }

  lemma CountedInsertLarge(live: map<nat, Region>, nm: seq<nat>, p: nat, r: Region)
    requires Counted(live, nm) && p !in live && r.bucket >= LOCALBUCKETS
    ensures Counted(live[p := r], nm)
  {
    forall k: nat | k < LOCALBUCKETS
      ensures nm[k] == |RegionsIn(live[p := r], k)|
    {
      CountInsert(live, p, r, k);
    }
  }

  /** Heap `h` is the one with `region` added behind its padding. */
  ghost predicate Installable(live: map<nat, Region>, nmalloc: seq<nat>, r: Region, h: Heap, a: nat) {
    && Aligned(r.base, r.bucket + MINSHIFT) && Fitting(r.nbytes, r.pad, r.bucket, a)
    && r.base + r.pad !in live && h.Valid() && h.live == live[r.base + r.pad := r] && Counted(h.live, nmalloc)
  }

  lemma SmallReady(heap: Heap, nm: seq<nat>, nmalloc: seq<nat>, r: Region, a: nat) returns (h: Heap)
    requires heap.ValidWith({r.base}) && Small(heap.pages, r.base, r.bucket) && Fitting(r.nbytes, r.pad, r.bucket, a)
    requires Counted(heap.live, nm) && nmalloc == nm[r.bucket := nm[r.bucket] + 1]
    ensures h.lists == heap.lists && h.taken == heap.taken && Installable(heap.live, nmalloc, r, h, a)
  {
    var p := r.base + r.pad;
    h := heap.(live := heap.live[p := r], owner := heap.owner[r.base := p]);
    PlaceSmall(heap, h, p, r, a);
    CountedInsert(heap.live, nm, nmalloc, p, r);
    PlacedInstallable(heap.live, nmalloc, r, h, a);
  }

  lemma PlacedInstallable(live: map<nat, Region>, nmalloc: seq<nat>, r: Region, h: Heap, a: nat)
    requires Aligned(r.base, r.bucket + MINSHIFT) && Fitting(r.nbytes, r.pad, r.bucket, a)
    requires r.base + r.pad !in live && h.Valid() && h.live == live[r.base + r.pad := r] && Counted(h.live, nmalloc)
    ensures Installable(live, nmalloc, r, h, a)
  {}

  lemma PlaceSmall(h: Heap, h': Heap, p: nat, r: Region, a: nat)
    requires h.ValidWith({r.base}) && Small(h.pages, r.base, r.bucket) && Fitting(r.nbytes, r.pad, r.bucket, a)
    requires p == r.base + r.pad && h' == h.(live := h.live[p := r], owner := h.owner[r.base := p])
    ensures p !in h.live && h'.Valid() && Aligned(r.base, r.bucket + MINSHIFT)
  {
    PointerFits(r, a);
    RegisterSmall(h, p, r);
  }

  lemma PlaceLarge(h: Heap, h': Heap, p: nat, r: Region, f: nat, C: set<nat>, a: nat)
    requires h.Valid() && LOCALBUCKETS <= r.bucket < LOCALBUCKETS + LEVELS && Fitting(r.nbytes, r.pad, r.bucket, a)
    requires r.base == f * PAGE_SIZE && Aligned(f, r.bucket - LOCALBUCKETS)
    requires C == Block(f, r.bucket - LOCALBUCKETS) && C !! h.taken && p == r.base + r.pad
    requires h' == h.(live := h.live[p := r], owner := h.owner[r.base := p], taken := h.taken + C)
    ensures Aligned(r.base, r.bucket + MINSHIFT) && p !in h.live && h'.Valid()
  {
    LargePlaced(r, f, a);
    RegisterLarge(h, p, r);
  }

  lemma LargePlaced(r: Region, f: nat, a: nat)
    requires LOCALBUCKETS <= r.bucket < LOCALBUCKETS + LEVELS && Fitting(r.nbytes, r.pad, r.bucket, a)
    requires r.base == f * PAGE_SIZE && Aligned(f, r.bucket - LOCALBUCKETS)
    ensures Aligned(r.base, r.bucket + MINSHIFT) && Fits(r.base + r.pad, r)
    ensures LargeAt(r) && FramesOf(r) == Block(f, r.bucket - LOCALBUCKETS)
  {
    PageAddress(f, r.bucket - LOCALBUCKETS);
    PointerFits(r, a);
  }

  lemma TakeFrames(taken: set<nat>, free: set<nat>, free': set<nat>, f: nat, k: nat, C: set<nat>)
    requires taken !! free && Covered(free, f, k) && C == Block(f, k) && free' == free - C
    ensures C <= free && C !! taken && taken + C !! free'
  {
    CoveredBlock(free, f, k);
  }

  lemma PointerFits(r: Region, a: nat)
    requires Aligned(r.base, r.bucket + MINSHIFT) && Fitting(r.nbytes, r.pad, r.bucket, a)
    ensures Fits(r.base + r.pad, r)
  {
    AlignedWeaken(r.base, a, r.bucket + MINSHIFT);
    AlignedStep(r.base, a);
  }

  /** The address returned for a block at `hdr`: aligned, with room for the header before it. */
  method PastHeader(hdr: nat, al: nat, ghost s: nat, ghost a: nat) returns (rv: nat)
    requires Aligned(hdr, s) && a <= s && al == Pow2(a) && al >= MINALIGN
    ensures rv == hdr + al
  {
    PadIsAlign(hdr, s, a);
    rv := RoundUp(hdr + HDR_SIZE, al);
  }

  /** The size computation of `bmk_memalloc`: effective alignment and bucket. */
  method ChooseBucket(nbytes: nat, align: nat) returns (al: nat, bucket: nat, ghost a: nat)
    requires AtMostOneBit(align) && align <= MAX_ALIGN && nbytes + Effective(align) <= MAX_BLOCK
    ensures al == Effective(align) && bucket == BucketOf(nbytes + al)
    ensures bucket < LOCALBUCKETS + LEVELS && Fitting(nbytes, al, bucket, a)
  {
    al := if align < MINALIGN then MINALIGN else align;
    var allocbytes := nbytes + RoundUp(HDR_SIZE, al);
    bucket := BucketOf(allocbytes);
    a := AlignBits(align, nbytes);
  }

  /** A region's pointer has the alignment asked for, and at least 16, and lies in its block. */
  lemma PointerAligned(h: Heap, p: nat, align: nat)
    requires h.Valid() && p in h.live && AtMostOneBit(align) && h.live[p].pad == Effective(align)
    ensures p % 16 == 0 && (align > 0 ==> p % align == 0) && h.live[p].base + 16 <= p
    ensures p + h.live[p].nbytes <= h.live[p].base + Pow2(h.live[p].bucket + MINSHIFT)
  {
    PointerLayout(h, p);
    assert Fits(p, h.live[p]);
    var a: nat :| Effective(align) == Pow2(a) && Aligned(p, a);
    AlignedIsMod(p, a);
    MultipleOf16(p, a);
    if 0 < align < 16 {
      SmallAlign(p, align);
    }
  }

  lemma MultipleOf16(p: nat, a: nat)
    requires Aligned(p, a) && Pow2(a) >= 16
    ensures p % 16 == 0
  {
    assert Pow2(4) == 16;
    if a < 4 {
      Pow2Monotone(a, 4);
    }
    AlignedWeaken(p, 4, a);
    AlignedIsMod(p, 4);
  }

  lemma SmallAlign(p: nat, align: nat)
    requires p % 16 == 0 && 0 < align < 16 && AtMostOneBit(align)
    ensures p % align == 0
  {
    var a := FloorLog2(align);
    assert Pow2(4) == 16;
    OneBitIsPow2(align);
    if a >= 4 {
      Pow2Monotone(4, a);
    }
    AlignedIsMod(p, 4);
    AlignedWeaken(p, a, 4);
    AlignedIsMod(p, a);
  }

  lemma PointerLayout(h: Heap, p: nat)
    requires h.Valid()
    ensures p in h.live ==>
      p == h.live[p].base + h.live[p].pad && h.live[p].pad >= MINALIGN &&
        h.live[p].pad + h.live[p].nbytes <= Pow2(h.live[p].bucket + MINSHIFT)
  {
    if p in h.live {
      assert Fits(p, h.live[p]);
    }
  }

  lemma CountedRemove(live: map<nat, Region>, nm: seq<nat>, p: nat)
    requires Counted(live, nm) && p in live && live[p].bucket < LOCALBUCKETS
    ensures nm[live[p].bucket] > 0
    ensures Counted(live - {p}, nm[live[p].bucket := nm[live[p].bucket] - 1])
  {
    assert p in RegionsIn(live, live[p].bucket);
    forall k: nat | k < LOCALBUCKETS
      ensures |RegionsIn(live - {p}, k)| == if k == live[p].bucket then nm[k] - 1 else nm[k]
    {
      CountRemove(live, p, k);
    }
  }

  lemma CountedRemoveLarge(live: map<nat, Region>, nm: seq<nat>, p: nat)
    requires Counted(live, nm) && p in live && live[p].bucket >= LOCALBUCKETS
    ensures Counted(live - {p}, nm)
  {
    forall k: nat | k < LOCALBUCKETS
      ensures |RegionsIn(live - {p}, k)| == nm[k]
    {
      CountRemove(live, p, k);
    }
  }

  /** Bytes from the pointer to the end of its block. */
  ghost function Usable(r: Region): int {
    Pow2(r.bucket + MINSHIFT) - r.pad
  }

  /** `bmk_memset(p, 0, n)`. */
  function Clear(m: seq<int>, p: nat, n: nat): seq<int>
    requires p + n <= |m|
  {
    m[..p] + seq(n, _ => 0) + m[p + n..]
  }

  /** `bmk_memcpy(p, src, n)`. */
  function Copy(m: seq<int>, p: nat, src: nat, n: nat): seq<int>
    requires p + n <= |m| && src + n <= |m|
  {
    m[..p] + m[src..src + n] + m[p + n..]
  }

  ghost predicate Copied(was: seq<int>, m: seq<int>, p: nat, src: nat, n: int) {
    0 <= n && p + n <= |was| && src + n <= |was| && m == Copy(was, p, src, n)
  }

  /** `q` holds `nbytes` and every region but `p` is as it was. */
  ghost predicate Resized(was: map<nat, Region>, live: map<nat, Region>, p: nat, q: nat, nbytes: nat) {
    && q in live && nbytes <= Usable(live[q])
    && (q == p ==> live == was)
    && (q != p ==>
          && q !in was && p in was && live == was[q := live[q]] - {p}
          && live[q].nbytes == nbytes && live[q].pad == MINALIGN && live[q].who == User)
  }

  lemma MovedRegion(was: map<nat, Region>, live: map<nat, Region>, p: nat, q: nat, nbytes: nat)
    requires p in was && Added(was, live, q, MINALIGN, nbytes, User) && nbytes <= Usable(live[q])
    ensures q != p && Resized(was, live - {p}, p, q, nbytes)
  {}

  /** The multiplication of `bmk_memcalloc`: the division test catches exactly a wrap. */
  method Product(n: nat, size: nat) returns (tot: nat, wraps: bool)
    requires n < WORD_LIMIT && size < WORD_LIMIT
    ensures wraps <==> n * size >= WORD_LIMIT
    ensures !wraps ==> tot == n * size
  {
    tot := (n * size) % WORD_LIMIT;
    wraps := size != 0 && tot / size != n;
    QuotientBack(tot, n, size);
  }

  lemma QuotientBack(tot: nat, n: nat, size: nat)
    ensures tot == n * size && size != 0 ==> tot / size == n
    ensures size != 0 && tot / size == n ==> tot >= n * size
  {
    if size != 0 {
      if tot == n * size {
        DivisionUnique(tot, size, n, 0);
      }
      if tot / size == n {
        assert tot == size * n + tot % size;
      }
    }
  }

  lemma OneBitOf16()
    ensures AtMostOneBit(16) && AtMostOneBit(8)
  {
    assert FloorLog2(16) == 4 && FloorLog2(8) == 3;
    OneBitIsPow2(16);
    OneBitIsPow2(8);
  }

  /** Copying into one region leaves the bytes of every other live block alone. */
  lemma CopyKeepsOthers(h: Heap, was: seq<int>, m: seq<int>, p: nat, src: nat, n: nat, q: nat, x: nat)
    requires h.Valid() && p in h.live && q in h.live && p != q
    requires n <= Usable(h.live[p]) && Copied(was, m, p, src, n)
    requires h.live[q].base <= x < h.live[q].base + Pow2(h.live[q].bucket + MINSHIFT) && x < |was|
    ensures |m| == |was| && m[x] == was[x]
  {
    PointerLayout(h, p);
    LiveApart(h, p, q);
  }
}
