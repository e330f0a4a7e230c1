/**
  The canonical form of a set of free page frames: its maximal naturally aligned
  power-of-two blocks. The theory rests on one fact, that two aligned blocks are nested or
  disjoint, and on one notion, that of two frame sets no aligned block straddles.
 */
module FreeBlocks {
  import opened Dyadic

  /** Orders `0 .. LEVELS - 1` have a free list (64-bit addresses, 4 kB pages). */
  const LEVELS: nat := 52
  /** Frame numbers of 64-bit addresses are below this. */
  const FRAME_LIMIT: nat := 0x10_0000_0000_0000

  lemma FrameLimit()
    ensures FRAME_LIMIT == Pow2(LEVELS)
  {
    Pow2Table();
  }

  ghost predicate Within(x: nat, lo: nat, hi: nat) {
    lo <= x < hi
  }

  ghost function Interval(lo: nat, hi: nat): set<nat> {
    set x: nat | lo <= x < hi && Within(x, lo, hi)
  }

  lemma {:induction false} IntervalSize(lo: nat, hi: nat)
    requires lo <= hi
    ensures |Interval(lo, hi)| == hi - lo
    decreases hi
  {
    if lo < hi {
      IntervalSize(lo, hi - 1);
      assert Interval(lo, hi) == Interval(lo, hi - 1) + {hi - 1};
    } else {
      assert Interval(lo, hi) == {};
    }
  }

  ghost function Block(b: nat, k: nat): set<nat> {
    Interval(b, b + Pow2(k))
  }

  ghost predicate Covered(F: set<nat>, b: nat, k: nat) {
    forall x: nat :: b <= x < b + Pow2(k) ==> x in F
  }

  /** `(b, k)` is an aligned block inside `F` and the next larger block around it is not. */
  ghost predicate Maximal(F: set<nat>, b: nat, k: nat) {
    Aligned(b, k) && Covered(F, b, k) && !Covered(F, Base(b, k + 1), k + 1)
  }

  /** The first and the last frame of a covered block. */
  lemma CoveredEnds(F: set<nat>, b: nat, k: nat)
    ensures Covered(F, b, k) ==> b in F && b + Pow2(k) - 1 in F
  {
  }

  lemma Laminar(a: nat, j: nat, b: nat, k: nat, x: nat)
    requires Aligned(a, j) && Aligned(b, k) && j <= k
    requires a <= x < a + Pow2(j) && b <= x < b + Pow2(k)
    ensures b <= a && a + Pow2(j) <= b + Pow2(k)
  {
    AlignedWeaken(b, j, k);
    AlignedStep(b, k);
    AlignedWeaken(b + Pow2(k), j, k);
    if a < b {
      AlignedGap(a, b, j);
    }
    AlignedGap(a, b + Pow2(k), j);
  }

  /** A maximal block contains every aligned block of free frames that it meets. */
  lemma MaximalDominates(F: set<nat>, c: nat, j: nat, b: nat, k: nat, x: nat)
    requires Aligned(c, j) && Covered(F, c, j) && Maximal(F, b, k)
    requires c <= x < c + Pow2(j) && b <= x < b + Pow2(k)
    ensures j <= k && b <= c && c + Pow2(j) <= b + Pow2(k)
  {
    if j > k {
      var p := Base(b, k + 1);
      BaseProperties(b, k + 1);
      Laminar(b, k, p, k + 1, b);
      Laminar(p, k + 1, c, j, x);
    } else {
      Laminar(c, j, b, k, x);
    }
  }

  /** Maximality in the usual sense: no larger aligned block around `(b, k)` is free. */
  lemma MaximalIsLargest(F: set<nat>, b: nat, k: nat)
    requires Aligned(b, k) && Covered(F, b, k)
    ensures Maximal(F, b, k) <==>
      forall c: nat, j: nat :: Aligned(c, j) && c <= b < c + Pow2(j) && Covered(F, c, j) ==> j <= k
  {
    if Maximal(F, b, k) {
      forall c: nat, j: nat | Aligned(c, j) && c <= b < c + Pow2(j) && Covered(F, c, j)
        ensures j <= k
      {
        MaximalDominates(F, c, j, b, k, b);
      }
    } else {
      BaseProperties(b, k + 1);
      assert Aligned(Base(b, k + 1), k + 1) && Covered(F, Base(b, k + 1), k + 1);
    }
  }

  lemma MaximalDisjoint(F: set<nat>, b: nat, k: nat, c: nat, j: nat)
    requires Maximal(F, b, k) && Maximal(F, c, j) && (b, k) != (c, j)
    ensures Block(b, k) !! Block(c, j)
  {
    if x :| x in Block(b, k) && x in Block(c, j) {
      MaximalDominates(F, b, k, c, j, x);
      MaximalDominates(F, c, j, b, k, x);
    }
  }

  /** Every free frame lies in a maximal block, and its order has a free list. */
  lemma MaximalExists(F: set<nat>, x: nat) returns (k: nat)
    requires x in F && 0 !in F && x < FRAME_LIMIT
    ensures k < LEVELS && Maximal(F, Base(x, k), k)
    ensures Base(x, k) <= x < Base(x, k) + Pow2(k)
  {
    k := MaximalFrom(F, x, 0);
  }

  lemma MaximalFrom(F: set<nat>, x: nat, i: nat) returns (k: nat)
    requires 0 !in F && x < FRAME_LIMIT && i <= LEVELS
    requires Covered(F, Base(x, i), i)
    ensures i <= k < LEVELS && Maximal(F, Base(x, k), k)
    ensures Base(x, k) <= x < Base(x, k) + Pow2(k)
    decreases LEVELS - i
  {
    BaseProperties(x, i);
    if i == LEVELS {
      FrameLimit();
      ZeroAligned(LEVELS);
      BaseUnique(x, 0, LEVELS);
      assert false;
    } else {
      BaseProperties(x, i + 1);
      Laminar(Base(x, i), i, Base(x, i + 1), i + 1, x);
      BaseUnique(Base(x, i), Base(x, i + 1), i + 1);
      if Covered(F, Base(x, i + 1), i + 1) {
        k := MaximalFrom(F, x, i + 1);
      } else {
        k := i;
      }
    }
  }

  lemma {:induction false} ZeroAligned(k: nat)
    ensures Aligned(0, k)
  {
    if k > 0 {
      ZeroAligned(k - 1);
    }
  }

  /** A block of frames above zero and below 2^52 has an order with a free list. */
  lemma OrderBounded(F: set<nat>, b: nat, k: nat)
    requires Aligned(b, k) && Covered(F, b, k) && 0 !in F
    requires forall x :: x in F ==> x < FRAME_LIMIT
    ensures k < LEVELS
  {
    CoveredEnds(F, b, k);
    if k >= LEVELS {
      FrameLimit();
      Pow2Monotone(LEVELS, k);
      assert false;
    }
  }

  // ----- Two frame sets that no aligned block straddles

  ghost predicate Separated(G: set<nat>, I: set<nat>) {
    && G !! I
    && forall c: nat, j: nat {:trigger Covered(G + I, c, j)} :: Aligned(c, j) && Covered(G + I, c, j) ==>
        Covered(G, c, j) || Covered(I, c, j)
  }

  lemma CoveredUnion(G: set<nat>, I: set<nat>, c: nat, j: nat)
    requires Separated(G, I) && Aligned(c, j)
    ensures Covered(G + I, c, j) <==> Covered(G, c, j) || Covered(I, c, j)
    ensures !(Covered(G, c, j) && Covered(I, c, j))
  {
    CoveredEnds(G, c, j);
    CoveredEnds(I, c, j);
  }

  /** The canonical form of a separated union is the union of the canonical forms. */
  lemma MaximalUnion(G: set<nat>, I: set<nat>, b: nat, k: nat)
    requires Separated(G, I)
    ensures Maximal(G + I, b, k) <==> Maximal(G, b, k) || Maximal(I, b, k)
    ensures !(Maximal(G, b, k) && Maximal(I, b, k))
  {
    if Aligned(b, k) {
      var p := Base(b, k + 1);
      BaseProperties(b, k + 1);
      CoveredUnion(G, I, b, k);
      CoveredUnion(G, I, p, k + 1);
      CoveredEnds(G, b, k);
      CoveredEnds(I, b, k);
    }
  }

  /** Splitting the second part of a separated pair keeps everything separated. */
  lemma SeparatedSplit(G: set<nat>, I: set<nat>, J: set<nat>)
    requires Separated(G, I + J) && Separated(I, J)
    ensures Separated(G, I) && Separated(G + I, J)
  {
    forall c: nat, j: nat | Aligned(c, j) && Covered(G + I, c, j)
      ensures Covered(G, c, j) || Covered(I, c, j)
    {
      assert Covered(G + (I + J), c, j);
      if Covered(I + J, c, j) {
        assert Covered(I, c, j);
      }
    }
    assert (G + I) + J == G + (I + J);
    forall c: nat, j: nat | Aligned(c, j) && Covered(G + I + J, c, j)
      ensures Covered(G + I, c, j) || Covered(J, c, j)
    {
      assert Covered(G + (I + J), c, j);
    }
  }

  /** A maximal block is separated from the rest of its set. */
  lemma SplitMaximal(F: set<nat>, b: nat, k: nat)
    requires Maximal(F, b, k)
    ensures Separated(F - Block(b, k), Block(b, k))
    ensures F - Block(b, k) + Block(b, k) == F
  {
    var C := Block(b, k);
    var G := F - C;
    assert G + C == F;
    forall c: nat, j: nat | Aligned(c, j) && Covered(G + C, c, j)
      ensures Covered(G, c, j) || Covered(C, c, j)
    {
      if !Covered(G, c, j) {
        var x: nat :| c <= x < c + Pow2(j) && x !in G;
        assert x in C;
        MaximalDominates(F, c, j, b, k, x);
      }
    }
  }

  /** The only maximal block of a block is the block itself. */
  lemma BlockCanonical(b: nat, k: nat, c: nat, j: nat)
    requires Aligned(b, k)
    ensures Maximal(Block(b, k), c, j) <==> c == b && j == k
  {
    var p := Base(b, k + 1);
    BaseProperties(b, k + 1);
    CoveredEnds(Block(b, k), p, k + 1);
    assert Maximal(Block(b, k), b, k);
    if Maximal(Block(b, k), c, j) {
      assert c in Block(b, k);
      MaximalDominates(Block(b, k), b, k, c, j, c);
      MaximalDominates(Block(b, k), c, j, b, k, c);
    }
  }

  // ----- Greedy carving of an interval

  /** The order `carverange` picks: limited by the alignment of `a` and by the length. */
  function CarveOrder(a: nat, n: nat): (i: nat)
    requires a > 0 && n > 0
  {
    if Ctz(a) > FloorLog2(n) then FloorLog2(n) else Ctz(a)
  }

  lemma CarveOrderFits(a: nat, n: nat)
    requires a > 0 && n > 0
    ensures Aligned(a, CarveOrder(a, n)) && Pow2(CarveOrder(a, n)) <= n
  {
    AlignedWeaken(a, CarveOrder(a, n), Ctz(a));
    Pow2Monotone(CarveOrder(a, n), FloorLog2(n));
  }

  /** The chunk carved first is a maximal block of the interval. */
  lemma CarveMaximal(a: nat, n: nat)
    requires a > 0 && n > 0
    ensures Maximal(Interval(a, a + n), a, CarveOrder(a, n))
  {
    var i := CarveOrder(a, n);
    CarveOrderFits(a, n);
    var p := Base(a, i + 1);
    BaseProperties(a, i + 1);
    CoveredEnds(Interval(a, a + n), p, i + 1);
    assert i == Ctz(a) || i == FloorLog2(n);
  }

  /** So the rest of the interval can be carved on its own. */
  lemma CarveStep(a: nat, n: nat)
    requires a > 0 && n > 0
    ensures var i := CarveOrder(a, n);
      && Aligned(a, i) && Pow2(i) <= n
      && Interval(a, a + n) == Block(a, i) + Interval(a + Pow2(i), a + n)
      && Separated(Block(a, i), Interval(a + Pow2(i), a + n))
  {
    var i := CarveOrder(a, n);
    CarveOrderFits(a, n);
    CarveMaximal(a, n);
    SplitMaximal(Interval(a, a + n), a, i);
    var C, R := Block(a, i), Interval(a + Pow2(i), a + n);
    assert Interval(a, a + n) - C == R;
    assert R + C == C + R;
    assert Separated(R, C) ==> Separated(C, R);
  }

  /** What a split leaves over: one chunk of each order from `o` up to, not including, `k`. */
  lemma LeftoverCanonical(b: nat, o: nat, k: nat, c: nat, j: nat)
    requires Aligned(b, k) && o <= k
    ensures Maximal(Interval(b + Pow2(o), b + Pow2(k)), c, j) <==> o <= j < k && c == b + Pow2(j)
  {
    if o <= j < k && c == b + Pow2(j) {
      LeftoverChunk(b, o, k, c, j);
    }
    if Maximal(Interval(b + Pow2(o), b + Pow2(k)), c, j) {
      LeftoverOnly(b, o, k, c, j);
    }
  }

  lemma LeftoverOnly(b: nat, o: nat, k: nat, c: nat, j: nat)
    requires Aligned(b, k) && o <= k
    requires Maximal(Interval(b + Pow2(o), b + Pow2(k)), c, j)
    ensures o <= j < k && c == b + Pow2(j)
  {
    var I := Interval(b + Pow2(o), b + Pow2(k));
    CoveredEnds(I, c, j);
    var i := LeftoverOrder(b, o, k, c);
    var d := b + Pow2(i);
    LeftoverChunk(b, o, k, d, i);
    MaximalDominates(I, d, i, c, j, c);
    MaximalDominates(I, c, j, d, i, c);
  }

  lemma LeftoverChunk(b: nat, o: nat, k: nat, c: nat, j: nat)
    requires Aligned(b, k) && o <= j < k && c == b + Pow2(j)
    ensures Maximal(Interval(b + Pow2(o), b + Pow2(k)), c, j)
  {
    LeftoverBounds(b, o, k, j);
    UpperInside(b, k, b + Pow2(o), b + Pow2(k), c, j);
  }

  lemma UpperInside(b: nat, k: nat, lo: nat, hi: nat, c: nat, j: nat)
    requires Aligned(b, k) && j < k && c == b + Pow2(j) && b < lo <= c && c + Pow2(j) <= hi
    ensures Maximal(Interval(lo, hi), c, j)
  {
    UpperHalf(b, k, c, j);
    MaximalInside(lo, hi, c, j);
  }

  lemma LeftoverBounds(b: nat, o: nat, k: nat, j: nat)
    requires o <= j < k
    ensures b < b + Pow2(o) <= b + Pow2(j) && b + Pow2(j) + Pow2(j) <= b + Pow2(k)
  {
    Pow2Monotone(o, j);
    Pow2Monotone(j, k);
  }

  /** A block inside an interval is maximal there when its parent starts outside. */
  lemma MaximalInside(lo: nat, hi: nat, c: nat, j: nat)
    requires Aligned(c, j) && lo <= c && c + Pow2(j) <= hi && Base(c, j + 1) < lo
    ensures Maximal(Interval(lo, hi), c, j)
  {
    CoveredEnds(Interval(lo, hi), Base(c, j + 1), j + 1);
  }

  lemma UpperHalf(b: nat, k: nat, c: nat, j: nat)
    requires Aligned(b, k) && j < k && c == b + Pow2(j)
    ensures Aligned(c, j) && Base(c, j + 1) == b
  {
    AlignedWeaken(b, j + 1, k);
    AlignedWeaken(b, j, k);
    AlignedStep(b, j);
    BaseUnique(c, b, j + 1);
  }

  /** The order whose leftover chunk contains frame `c`. */
  lemma LeftoverOrder(b: nat, o: nat, k: nat, c: nat) returns (i: nat)
    requires o <= k && b + Pow2(o) <= c < b + Pow2(k)
    ensures o <= i < k && b + Pow2(i) <= c < b + Pow2(i + 1)
    decreases k
  {
    if o + 1 >= k || b + Pow2(k - 1) <= c {
      i := k - 1;
    } else {
      i := LeftoverOrder(b, o, k - 1, c);
    }
  }
}
