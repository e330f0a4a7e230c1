/** The page-allocator side of `rumpuser_malloc` and `rumpuser_free`. */
module RumpuserMem {
  import opened Dyadic
  import opened FreeBlocks
  import opened Queues
  import opened Pgalloc
  import opened Memalloc

  /** `len2order`. */
  function Len2Order(len: nat): int
    requires len > 0
  {
    CeilLog2(len) - PAGE_SHIFT
  }

  /** The exponent of the smallest power of two not below `len`. */
  function CeilLog2(len: nat): nat
    requires len > 0
  {
    FloorLog2(len) + 1 - (if AtMostOneBit(len) then 1 else 0)
  }

  lemma CeilLog2Fits(len: nat, m: nat)
    requires len > 0
    ensures len <= Pow2(m) <==> CeilLog2(len) <= m
  {
    var f := FloorLog2(len);
    OneBitIsPow2(len);
    if f + 1 <= m {
      Pow2Monotone(f + 1, m);
    } else {
      Pow2Monotone(m, f);
    }
  }

  /** The order of the smallest block of whole pages that holds `len` bytes. */
  lemma OrderFits(len: nat)
    requires len >= PAGE_SIZE
    ensures Len2Order(len) >= 0
    ensures forall k: nat :: len <= PAGE_SIZE * Pow2(k) <==> Len2Order(len) <= k
  {
    assert Pow2(PAGE_SHIFT) == PAGE_SIZE by {
      Pow2Table();
    }
    AtLeastPage(len);
    forall k: nat ensures len <= PAGE_SIZE * Pow2(k) <==> Len2Order(len) <= k {
      Pow2Add(PAGE_SHIFT, k);
      CeilLog2Fits(len, PAGE_SHIFT + k);
    }
  }

  lemma AtLeastPage(len: nat)
    requires len >= PAGE_SIZE == Pow2(PAGE_SHIFT)
    ensures CeilLog2(len) >= PAGE_SHIFT
  {
    Pow2Monotone(PAGE_SHIFT - 1, PAGE_SHIFT);
    CeilLog2Fits(len, PAGE_SHIFT - 1);
  }

  /** `rumpuser_malloc` of a page or more; an alignment of more than one bit halts it. */
  method MallocPages(pg: PageAllocator, len: nat, alignment: nat) returns (r: Option<nat>)
    requires pg.Valid() && PAGE_SIZE <= len <= PAGE_SIZE * FRAME_LIMIT / 2 && AtMostOneBit(alignment)
    modifies pg, pg.bitmap
    ensures pg.Valid() && unchanged(pg`bitmap) && unchanged(pg`minPage) && unchanged(pg`maxPage)
    ensures 0 <= Len2Order(len) < LEVELS
    ensures
      var align := if alignment < PAGE_SIZE then PAGE_SIZE else alignment;
      && (r.None? <==> !exists c: nat :: Candidate(old(pg.free), c, Len2Order(len), align))
      && (r.None? ==> pg.free == old(pg.free))
      && (r.Some? ==>
            && Candidate(old(pg.free), r.value, Len2Order(len), align)
            && pg.free == old(pg.free) - Block(r.value, Len2Order(len)))
  {
    OrderFits(len);
    OrderBelow(len);
    PageIsPow2();
    if alignment >= PAGE_SIZE {
      OneBitIsPow2(alignment);
    }
    var align := if alignment < PAGE_SIZE then PAGE_SIZE else alignment;
    r := pg.PgAllocAlign(Len2Order(len), align);
  }

  lemma PageIsPow2()
    ensures IsPow2(PAGE_SIZE)
  {
    Pow2Table();
    assert PAGE_SIZE == Pow2(12);
  }

  lemma OrderBelow(len: nat)
    requires PAGE_SIZE <= len <= PAGE_SIZE * FRAME_LIMIT / 2
    ensures Len2Order(len) < LEVELS
  {
    OrderFits(len);
    Pow2Table();
    var k: nat := LEVELS - 1;
    assert 2 * Pow2(k) == Pow2(k + 1);
  }

  /** `rumpuser_free` with the same length gives back exactly the frames that were taken. */
  method FreePages(pg: PageAllocator, buf: nat, len: nat)
    requires pg.Valid() && PAGE_SIZE <= len <= PAGE_SIZE * FRAME_LIMIT / 2
    requires 0 <= Len2Order(len) && Aligned(buf, Len2Order(len)) && pg.minPage <= buf
    requires buf + Pow2(Len2Order(len)) <= pg.maxPage && Block(buf, Len2Order(len)) !! pg.free
    modifies pg, pg.bitmap
    ensures pg.Valid() && unchanged(pg`bitmap) && unchanged(pg`minPage) && unchanged(pg`maxPage)
    ensures pg.free == old(pg.free) + Block(buf, Len2Order(len))
  {
    OrderBelow(len);
    pg.PgFree(buf, Len2Order(len));
  }
}
