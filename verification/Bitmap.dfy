/**
  The allocation bitmap of the page allocator: one bit per page, packed into 64-bit words,
  updated with word masks. A set bit means that the page is allocated.

  A word is a natural number below 2^64; negation wraps around as the C type does, and the
  bitwise operators are given by recursion on the bits.
 */
module Bitmap {
  import opened Dyadic

  const WORD_BITS: nat := 64
  const WORD_LIMIT: nat := 0x1_0000_0000_0000_0000

  type Word = w: nat | w < WORD_LIMIT witness 0

  lemma WordLimit()
    ensures WORD_LIMIT == Pow2(WORD_BITS)
  {
    Pow2Table();
  }

  function BitOr(a: nat, b: nat): nat {
    if a == 0 && b == 0 then 0
    else (if a % 2 == 1 || b % 2 == 1 then 1 else 0) + 2 * BitOr(a / 2, b / 2)
  }

  function BitAnd(a: nat, b: nat): nat {
    if a == 0 && b == 0 then 0
    else (if a % 2 == 1 && b % 2 == 1 then 1 else 0) + 2 * BitAnd(a / 2, b / 2)
  }

  /** `1UL << i`. */
  function One(i: nat): Word
    requires i < WORD_BITS
  {
    WordLimit();
    Pow2Monotone(i, WORD_BITS);
    Pow2(i)
  }

  /** `(1UL << i) - 1`: the bits below `i`. */
  function Below(i: nat): Word
    requires i < WORD_BITS
  {
    One(i) - 1
  }

  /** `-(1UL << i)`: the bits from `i` up. */
  function From(i: nat): Word
    requires i < WORD_BITS
  {
    WORD_LIMIT - One(i)
  }

  /** `~0UL`. */
  function AllOnes(): Word {
    WORD_LIMIT - 1
  }

  function Or(a: Word, b: Word): Word {
    WordLimit();
    BitOrBound(a, b, WORD_BITS);
    BitOr(a, b)
  }

  function And(a: Word, b: Word): Word {
    WordLimit();
    BitAndBound(a, b, WORD_BITS);
    BitAnd(a, b)
  }

  /** Bit `page` of the packed words: `allocated_in_map` without the address arithmetic. */
  predicate InMap(words: seq<Word>, page: nat)
    requires page / WORD_BITS < |words|
  {
    Bit(words[page / WORD_BITS], page % WORD_BITS)
  }

  lemma {:induction false} BitOrBound(a: nat, b: nat, n: nat)
    requires a < Pow2(n) && b < Pow2(n)
    ensures BitOr(a, b) < Pow2(n)
  {
    if n > 0 {
      BitOrBound(a / 2, b / 2, n - 1);
    }
  }

  lemma {:induction false} BitAndBound(a: nat, b: nat, n: nat)
    requires a < Pow2(n) && b < Pow2(n)
    ensures BitAnd(a, b) < Pow2(n)
  {
    if n > 0 {
      BitAndBound(a / 2, b / 2, n - 1);
    }
  }

  lemma {:induction false} BitOfZero(i: nat)
    ensures !Bit(0, i)
  {
    if i > 0 {
      BitOfZero(i - 1);
    }
  }

  lemma {:induction false} BitOfOr(a: nat, b: nat, i: nat)
    ensures Bit(BitOr(a, b), i) <==> Bit(a, i) || Bit(b, i)
  {
    if a == 0 && b == 0 {
      BitOfZero(i);
    } else if i > 0 {
      BitOfOr(a / 2, b / 2, i - 1);
    }
  }

  lemma {:induction false} BitOfAnd(a: nat, b: nat, i: nat)
    ensures Bit(BitAnd(a, b), i) <==> Bit(a, i) && Bit(b, i)
  {
    if a == 0 && b == 0 {
      BitOfZero(i);
    } else if i > 0 {
      BitOfAnd(a / 2, b / 2, i - 1);
    }
  }

  /** A difference of two powers of two is a run of set bits. */
  lemma {:induction false} BitOfRun(s: nat, n: nat, i: nat)
    requires s <= n
    ensures Pow2(s) <= Pow2(n)
    ensures Bit(Pow2(n) - Pow2(s), i) <==> s <= i < n
    decreases n
  {
    Pow2Monotone(s, n);
    if s == n {
      BitOfZero(i);
    } else if s > 0 {
      assert (Pow2(n) - Pow2(s)) / 2 == Pow2(n - 1) - Pow2(s - 1);
      if i > 0 {
        BitOfRun(s - 1, n - 1, i - 1);
      }
    } else {
      assert (Pow2(n) - 1) / 2 == Pow2(n - 1) - Pow2(0);
      if i > 0 {
        BitOfRun(0, n - 1, i - 1);
      }
    }
  }

  lemma BelowBits(e: nat, i: nat)
    requires e < WORD_BITS
    ensures Bit(Below(e), i) <==> i < e
  {
    BitOfRun(0, e, i);
  }

  lemma FromBits(s: nat, i: nat)
    requires s < WORD_BITS
    ensures Bit(From(s), i) <==> s <= i < WORD_BITS
  {
    WordLimit();
    BitOfRun(s, WORD_BITS, i);
  }

  lemma AllOnesBits(i: nat)
    ensures Bit(AllOnes(), i) <==> i < WORD_BITS
  {
    WordLimit();
    BitOfRun(0, WORD_BITS, i);
  }

  /** `map_alloc`: sets the bits of pages `[first, first + count)` and no other. */
  method MapAlloc(words: array<Word>, first: nat, count: nat)
    requires (first + count) / WORD_BITS < words.Length
    modifies words
    ensures forall page: nat :: page / WORD_BITS < words.Length ==>
      (InMap(words[..], page) <==> InMap(old(words[..]), page) || first <= page < first + count)
  {
    ghost var was := words[..];
    var start, end := first % WORD_BITS, (first + count) % WORD_BITS;
    var curr, endIdx := first / WORD_BITS, (first + count) / WORD_BITS;
    if curr == endIdx {
      words[curr] := Or(words[curr], And(Below(end), From(start)));
      forall i: nat | i < WORD_BITS
        ensures Bit(words[curr], i) <==> Bit(was[curr], i) || start <= i < end
      {
        BelowBits(end, i);
        FromBits(start, i);
        BitOfAnd(Below(end), From(start), i);
        BitOfOr(was[curr], And(Below(end), From(start)), i);
      }
    } else {
      ghost var head := curr;
      words[curr] := Or(words[curr], From(start));
      forall i: nat | i < WORD_BITS
        ensures Bit(words[head], i) <==> Bit(was[head], i) || start <= i
      {
        FromBits(start, i);
        BitOfOr(was[head], From(start), i);
      }
      curr := curr + 1;
      while curr < endIdx
        invariant head < curr <= endIdx
        invariant forall i: nat :: i < WORD_BITS ==> (Bit(words[head], i) <==> Bit(was[head], i) || start <= i)
        invariant forall j :: head < j < curr ==> words[j] == AllOnes()
        invariant forall j :: 0 <= j < words.Length && (j < head || curr <= j) ==> words[j] == was[j]
      {
        words[curr] := AllOnes();
        curr := curr + 1;
      }
      words[curr] := Or(words[curr], Below(end));
      forall i: nat | i < WORD_BITS
        ensures Bit(words[endIdx], i) <==> Bit(was[endIdx], i) || i < end
        ensures Bit(AllOnes(), i)
      {
        BelowBits(end, i);
        BitOfOr(was[endIdx], Below(end), i);
        AllOnesBits(i);
      }
    }
  }

  /** `map_free`: clears the bits of pages `[first, first + count)` and no other. */
  method MapFree(words: array<Word>, first: nat, count: nat)
    requires (first + count) / WORD_BITS < words.Length
    modifies words
    ensures forall page: nat :: page / WORD_BITS < words.Length ==>
      (InMap(words[..], page) <==> InMap(old(words[..]), page) && !(first <= page < first + count))
  {
    ghost var was := words[..];
    var start, end := first % WORD_BITS, (first + count) % WORD_BITS;
    var curr, endIdx := first / WORD_BITS, (first + count) / WORD_BITS;
    if curr == endIdx {
      words[curr] := And(words[curr], Or(From(end), Below(start)));
      forall i: nat | i < WORD_BITS
        ensures Bit(words[curr], i) <==> Bit(was[curr], i) && !(start <= i < end)
      {
        FromBits(end, i);
        BelowBits(start, i);
        BitOfOr(From(end), Below(start), i);
        BitOfAnd(was[curr], Or(From(end), Below(start)), i);
      }
    } else {
      ghost var head := curr;
      words[curr] := And(words[curr], Below(start));
      forall i: nat | i < WORD_BITS
        ensures Bit(words[head], i) <==> Bit(was[head], i) && i < start
      {
        BelowBits(start, i);
        BitOfAnd(was[head], Below(start), i);
      }
      curr := curr + 1;
      while curr != endIdx
        invariant head < curr <= endIdx
        invariant forall i: nat :: i < WORD_BITS ==> (Bit(words[head], i) <==> Bit(was[head], i) && i < start)
        invariant forall j :: head < j < curr ==> words[j] == 0
        invariant forall j :: 0 <= j < words.Length && (j < head || curr <= j) ==> words[j] == was[j]
      {
        words[curr] := 0;
        curr := curr + 1;
      }
      words[curr] := And(words[curr], From(end));
      forall i: nat | i < WORD_BITS
        ensures Bit(words[endIdx], i) <==> Bit(was[endIdx], i) && end <= i
        ensures !Bit(0, i)
      {
        FromBits(end, i);
        BitOfAnd(was[endIdx], From(end), i);
        BitOfZero(i);
      }
    }
  }
}
