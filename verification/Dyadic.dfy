/**
  Powers of two, natural alignment and bit positions of page frame numbers.

  Alignment is defined by recursion on the order, so that the solver only ever divides by
  two; `AlignedIsMod` ties it back to the remainder test a reader would expect.
 */
module Dyadic {

  function Pow2(k: nat): (p: nat)
    ensures p > 0
  {
    if k == 0 then 1 else 2 * Pow2(k - 1)
  }

  /** The low `k` bits of `b` are zero, that is, `b` is a multiple of `Pow2(k)`. */
  predicate Aligned(b: nat, k: nat) {
    k == 0 || (b % 2 == 0 && Aligned(b / 2, k - 1))
  }

  /** Bit `k` of `b`: the test `b & (1 << k)` of the source. */
  predicate Bit(b: nat, k: nat) {
    if k == 0 then b % 2 == 1 else Bit(b / 2, k - 1)
  }

  /** The multiple of `Pow2(k)` at or below `x`. */
  function Base(x: nat, k: nat): nat {
    if k == 0 then x else 2 * Base(x / 2, k - 1)
  }

  /** `__builtin_ctzl`: the number of trailing zero bits. */
  function Ctz(x: nat): (i: nat)
    requires x > 0
    ensures Aligned(x, i) && !Aligned(x, i + 1)
  {
    if x % 2 == 1 then 0 else 1 + Ctz(x / 2)
  }

  /** The index of the highest set bit: `8*sizeof(x) - (__builtin_clzl(x) + 1)`. */
  function FloorLog2(x: nat): (r: nat)
    requires x > 0
    ensures Pow2(r) <= x < Pow2(r + 1)
  {
    if x == 1 then 0 else 1 + FloorLog2(x / 2)
  }

  lemma {:induction false} Pow2Monotone(j: nat, k: nat)
    requires j <= k
    ensures Pow2(j) <= Pow2(k)
    ensures j < k ==> 2 * Pow2(j) <= Pow2(k)
  {
    if j < k {
      Pow2Monotone(j, k - 1);
    }
  }

  lemma {:induction false} Pow2Add(j: nat, k: nat)
    ensures Pow2(j + k) == Pow2(j) * Pow2(k)
  {
    if k > 0 {
      Pow2Add(j, k - 1);
    }
  }

  lemma Pow2Plus4(k: nat)
    ensures Pow2(k + 4) == 16 * Pow2(k)
  {
    assert Pow2(k + 2) == 4 * Pow2(k);
    assert Pow2(k + 4) == 4 * Pow2(k + 2);
  }

  lemma Pow2Table()
    ensures Pow2(12) == 4096
    ensures Pow2(52) == 0x10_0000_0000_0000
    ensures Pow2(64) == 0x1_0000_0000_0000_0000
  {
    var k := 0;
    Pow2Plus4(k);
    Pow2Plus4(k + 4);
    Pow2Plus4(k + 8);
    Pow2Plus4(k + 12);
    Pow2Plus4(k + 16);
    Pow2Plus4(k + 20);
    Pow2Plus4(k + 24);
    Pow2Plus4(k + 28);
    Pow2Plus4(k + 32);
    Pow2Plus4(k + 36);
    Pow2Plus4(k + 40);
    Pow2Plus4(k + 44);
    Pow2Plus4(k + 48);
    Pow2Plus4(k + 52);
    Pow2Plus4(k + 56);
    Pow2Plus4(k + 60);
  }

  lemma {:induction false} AlignedWeaken(b: nat, j: nat, k: nat)
    requires j <= k && Aligned(b, k)
    ensures Aligned(b, j)
  {
    if j > 0 {
      AlignedWeaken(b / 2, j - 1, k - 1);
    }
  }

  /** Two multiples of the same power of two are equal or at least that far apart. */
  lemma {:induction false} AlignedGap(a: nat, b: nat, k: nat)
    requires Aligned(a, k) && Aligned(b, k) && a < b
    ensures a + Pow2(k) <= b
  {
    if k > 0 {
      AlignedGap(a / 2, b / 2, k - 1);
    }
  }

  lemma {:induction false} AlignedStep(a: nat, k: nat)
    requires Aligned(a, k)
    ensures Aligned(a + Pow2(k), k)
    ensures a >= Pow2(k) ==> Aligned(a - Pow2(k), k)
  {
    if k > 0 {
      AlignedStep(a / 2, k - 1);
      assert (a + Pow2(k)) / 2 == a / 2 + Pow2(k - 1);
      if a >= Pow2(k) {
        assert (a - Pow2(k)) / 2 == a / 2 - Pow2(k - 1);
      }
    }
  }

  lemma {:induction false} BaseProperties(x: nat, k: nat)
    ensures Aligned(Base(x, k), k)
    ensures Base(x, k) <= x < Base(x, k) + Pow2(k)
  {
    if k > 0 {
      BaseProperties(x / 2, k - 1);
    }
  }

  /** There is only one aligned block of a given order around a frame. */
  lemma BaseUnique(x: nat, b: nat, k: nat)
    requires Aligned(b, k) && b <= x < b + Pow2(k)
    ensures Base(x, k) == b
  {
    BaseProperties(x, k);
    if Base(x, k) < b {
      AlignedGap(Base(x, k), b, k);
    } else if b < Base(x, k) {
      AlignedGap(b, Base(x, k), k);
    }
  }

  /** An aligned block is the lower or the upper half of its parent, as bit `k` says. */
  lemma {:induction false} ParentHalves(b: nat, k: nat)
    requires Aligned(b, k)
    ensures Bit(b, k) <==> !Aligned(b, k + 1)
    ensures Bit(b, k) ==> b >= Pow2(k) && Base(b, k + 1) == b - Pow2(k)
    ensures !Bit(b, k) ==> Base(b, k + 1) == b
  {
    if k == 0 {
      assert Aligned(b, 1) <==> b % 2 == 0 by {
        assert Aligned(b / 2, 0);
      }
      assert Base(b, 1) == 2 * Base(b / 2, 0);
    } else {
      ParentHalves(b / 2, k - 1);
    }
  }

  lemma {:induction false} AlignedScale(c: nat, s: nat, k: nat)
    ensures Aligned(c * Pow2(s), k + s) <==> Aligned(c, k)
  {
    if s > 0 {
      AlignedScale(c, s - 1, k);
      assert c * Pow2(s) == 2 * (c * Pow2(s - 1));
    }
  }

  lemma {:induction false} AlignedIsMod(b: nat, k: nat)
    ensures Aligned(b, k) <==> b % Pow2(k) == 0
  {
    if k > 0 {
      AlignedIsMod(b / 2, k - 1);
      ModDouble(b, Pow2(k - 1));
    }
  }

  lemma ModDouble(b: nat, m: nat)
    requires m > 0
    ensures b % (2 * m) == 0 <==> b % 2 == 0 && (b / 2) % m == 0
  {
    var q, r := b / 2 / m, (b / 2) % m;
    assert b / 2 == m * q + r;
    var r' := 2 * r + b % 2;
    assert b == 2 * (m * q) + r' == (2 * m) * q + r' by {
      MulAssociative(m, q);
    }
    DivisionUnique(b, 2 * m, q, r');
  }

  lemma MulAssociative(m: nat, q: nat)
    ensures 2 * (m * q) == (2 * m) * q
  {
  }

  lemma DivisionUnique(x: nat, m: nat, q: nat, r: nat)
    requires m > 0 && x == m * q + r && r < m
    ensures x / m == q && x % m == r
  {
    var q', r' := x / m, x % m;
    assert x == m * q' + r';
    if q < q' {
      MulStep(m, q, q');
    } else if q' < q {
      MulStep(m, q', q);
    }
  }

  lemma {:induction false} MulStep(m: nat, p: nat, q: nat)
    requires p < q
    ensures m * p + m <= m * q
    decreases q
  {
    assert m * q == m * (q - 1) + m;
    if p < q - 1 {
      MulStep(m, p, q - 1);
    }
  }
}
