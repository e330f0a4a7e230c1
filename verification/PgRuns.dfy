/** Whole runs of the page allocator: any allocations, and frees of what they returned. */
module PgRuns {
  import opened Dyadic
  import opened FreeBlocks
  import opened Queues
  import opened Pgalloc

  /** A call: `bmk_pgalloc_align`, or `bmk_pgfree` of the outstanding block number `i`. */
  datatype Request = Alloc(order: nat, align: nat) | Free(i: nat)

  /** An allocated block of `Pow2(order)` frames. */
  datatype Held = Held(base: nat, order: nat)

  predicate Holds(h: Held, f: nat) {
    h.base <= f < h.base + Pow2(h.order)
  }

  ghost predicate Taken(out: seq<Held>, f: nat) {
    exists i :: 0 <= i < |out| && Holds(out[i], f)
  }

  ghost predicate BlocksOk(out: seq<Held>, lo: nat, hi: nat) {
    forall i {:trigger out[i]} :: 0 <= i < |out| ==>
      && out[i].order < LEVELS && Aligned(out[i].base, out[i].order)
      && lo <= out[i].base && out[i].base + Pow2(out[i].order) <= hi
  }

  ghost predicate Disjoint(out: seq<Held>) {
    forall i, j, f :: 0 <= i < j < |out| && Holds(out[i], f) ==> !Holds(out[j], f)
  }

  /** The outstanding blocks are disjoint, and a managed frame is free exactly when in none. */
  ghost predicate Accounts(out: seq<Held>, lo: nat, hi: nat, free: set<nat>) {
    && BlocksOk(out, lo, hi) && Disjoint(out)
    && forall f: nat :: f in free <==> lo <= f < hi && !Taken(out, f)
  }

  lemma Allocates(out: seq<Held>, lo: nat, hi: nat, free: set<nat>, h: Held)
    requires Accounts(out, lo, hi, free) && h.order < LEVELS
    requires Aligned(h.base, h.order) && Covered(free, h.base, h.order)
    ensures Accounts(out + [h], lo, hi, free - Block(h.base, h.order))
  {
    CoveredEnds(free, h.base, h.order);
    var out' := out + [h];
    forall f: nat ensures Taken(out', f) <==> Taken(out, f) || Holds(h, f) {
      if Taken(out, f) {
        var i :| 0 <= i < |out| && Holds(out[i], f);
        assert Holds(out'[i], f);
      }
      assert Holds(h, f) ==> Holds(out'[|out|], f);
    }
    forall i, f | 0 <= i < |out| && Holds(out[i], f) ensures !Holds(h, f) {
      assert Taken(out, f);
    }
  }

  function Drop(out: seq<Held>, i: nat): seq<Held>
    requires i < |out|
  {
    out[..i] + out[i + 1..]
  }

  lemma DropTaken(out: seq<Held>, i: nat, f: nat)
    requires i < |out| && Disjoint(out)
    ensures Taken(Drop(out, i), f) <==> Taken(out, f) && !Holds(out[i], f)
  {
    var out' := Drop(out, i);
    if Taken(out', f) {
      var j :| 0 <= j < |out'| && Holds(out'[j], f);
      assert Holds(out[if j < i then j else j + 1], f);
    }
    if Taken(out, f) && !Holds(out[i], f) {
      var j :| 0 <= j < |out| && Holds(out[j], f);
      assert Holds(out'[if j < i then j else j - 1], f);
    }
  }

  lemma Frees(out: seq<Held>, lo: nat, hi: nat, free: set<nat>, i: nat)
    requires Accounts(out, lo, hi, free) && i < |out|
    ensures Accounts(Drop(out, i), lo, hi, free + Block(out[i].base, out[i].order))
    ensures Block(out[i].base, out[i].order) !! free
  {
    var out', h := Drop(out, i), out[i];
    forall f: nat ensures Taken(out', f) <==> Taken(out, f) && !Holds(h, f) {
      DropTaken(out, i, f);
    }
    forall f: nat | Holds(h, f) ensures Taken(out, f) {}
    assert forall j :: 0 <= j < |out'| ==> out'[j] == out[if j < i then j else j + 1];
  }

  /** Serves a run of requests on a freshly loaded allocator. */
  method Serve(a: PageAllocator, requests: seq<Request>) returns (out: seq<Held>)
    requires a.Valid() && a.free == Interval(a.minPage, a.maxPage)
    requires forall k :: 0 <= k < |requests| && requests[k].Alloc? ==>
      requests[k].order < LEVELS && IsPow2(requests[k].align) && requests[k].align >= PAGE_SIZE
    modifies a, a.bitmap
    ensures a.Valid() && a.minPage == old(a.minPage) && a.maxPage == old(a.maxPage)
    ensures Accounts(out, a.minPage, a.maxPage, a.free)
  {
    out := [];
    for k := 0 to |requests|
      invariant a.Valid() && a.bitmap == old(a.bitmap)
      invariant a.minPage == old(a.minPage) && a.maxPage == old(a.maxPage)
      invariant Accounts(out, a.minPage, a.maxPage, a.free)
    {
      match requests[k] {
        case Alloc(order, align) =>
          ghost var free := a.free;
          var r := a.PgAllocAlign(order, align);
          if r.Some? {
            Allocates(out, a.minPage, a.maxPage, free, Held(r.value, order));
            out := out + [Held(r.value, order)];
          }
        case Free(i) =>
          if i < |out| {
            Frees(out, a.minPage, a.maxPage, a.free, i);
            a.PgFree(out[i].base, out[i].order);
            out := Drop(out, i);
          }
      }
    }
  }

  /** Same blocks outstanding, in whatever order they were allocated: same free frames. */
  lemma SameFree(out1: seq<Held>, out2: seq<Held>, lo: nat, hi: nat, free1: set<nat>, free2: set<nat>)
    requires Accounts(out1, lo, hi, free1) && Accounts(out2, lo, hi, free2)
    requires forall h :: h in out1 <==> h in out2
    ensures free1 == free2
  {
    forall f: nat ensures Taken(out1, f) <==> Taken(out2, f) {
      if Taken(out1, f) {
        var i :| 0 <= i < |out1| && Holds(out1[i], f);
        assert out1[i] in out2;
        var j :| 0 <= j < |out2| && out2[j] == out1[i];
        assert Holds(out2[j], f);
      }
      if Taken(out2, f) {
        var i :| 0 <= i < |out2| && Holds(out2[i], f);
        assert out2[i] in out1;
        var j :| 0 <= j < |out1| && out1[j] == out2[i];
        assert Holds(out1[j], f);
      }
    }
    assert forall f: nat :: f in free1 <==> f in free2;
  }

  /** The state of the allocator depends only on which blocks are outstanding. */
  lemma RunIndependent(a: PageAllocator, b: PageAllocator, out1: seq<Held>, out2: seq<Held>)
    requires a.Valid() && b.Valid() && a.minPage == b.minPage && a.maxPage == b.maxPage
    requires Accounts(out1, a.minPage, a.maxPage, a.free) && Accounts(out2, b.minPage, b.maxPage, b.free)
    requires forall h :: h in out1 <==> h in out2
    ensures forall k: nat :: k < LEVELS ==> multiset(a.freelist[k]) == multiset(b.freelist[k])
    ensures a.usedKb == b.usedKb && forall f: nat :: a.Managed(f) ==> (a.Allocated(f) <==> b.Allocated(f))
  {
    SameFree(out1, out2, a.minPage, a.maxPage, a.free, b.free);
    HistoryIndependent(a, b);
  }

  /** Freeing a block just allocated restores lists, free frames and counter. */
  method AllocThenFree(a: PageAllocator, order: nat, align: nat) returns (ok: bool)
    requires a.Valid() && order < LEVELS && IsPow2(align) && align >= PAGE_SIZE
    modifies a, a.bitmap
    ensures a.Valid() && a.free == old(a.free) && a.usedKb == old(a.usedKb)
    ensures forall k: nat :: k < LEVELS ==> multiset(a.freelist[k]) == multiset(old(a.freelist)[k])
    ensures ok <==> exists c: nat :: Candidate(old(a.free), c, order, align)
  {
    ghost var free, lists := a.free, a.freelist;
    var r := a.PgAllocAlign(order, align);
    ok := r.Some?;
    if ok {
      CoveredEnds(free, r.value, order);
      CoveredBlock(free, r.value, order);
      a.PgFree(r.value, order);
      assert a.free == free;
    }
    forall k: nat | k < LEVELS ensures multiset(a.freelist[k]) == multiset(lists[k]) {
      CanonicalUnique(a.freelist, lists, free, k);
    }
  }
}
