/**
  Whole runs of the block allocator: malloc, calloc, realloc, free and the writes of the
  application, in any order. The heap behaves as a collection of separate buffers.
 */
module HeapRuns {
  import opened Bitmap
  import opened Dyadic
  import opened Queues
  import opened Pgalloc
  import opened Memalloc

  /** A call, or a byte written by the application; regions are named by their number. */
  datatype Call =
    | Malloc(nbytes: nat, align: nat, who: Who)
    | Calloc(n: nat, size: nat, who: Who)
    | Realloc(i: nat, nbytes: nat)
    | Free(i: nat)
    | Write(i: nat, at: nat, value: int)

  /** A region handed out: its pointer, what is known of its bytes, how many were first asked for. */
  datatype Grant = Grant(p: nat, data: seq<Option<int>>, first: nat, align: nat, who: Who)

  /** Sizes up to which realloc computes the size of a block without overflow. */
  const REALLOC_MAX: nat := 0x4000_0000

  predicate CallOk(c: Call) {
    match c
    case Malloc(nbytes, align, _) => AtMostOneBit(align) ==>
      align <= MAX_ALIGN && nbytes + Effective(align) <= MAX_BLOCK
    case Calloc(n, size, _) =>
      n < WORD_LIMIT && size < WORD_LIMIT && (n * size < WORD_LIMIT ==> n * size + MINALIGN <= MAX_BLOCK)
    case Realloc(_, nbytes) => nbytes + MINALIGN <= MAX_BLOCK
    case Free(_) => true
    case Write(_, _, _) => true
  }

  ghost predicate GrantOk(live: map<nat, Region>, g: Grant) {
    && g.p in live
    && var r := live[g.p];
       && r.pad == Effective(g.align) && r.who == g.who && r.nbytes == g.first && |g.data| <= Usable(r)
  }

  ghost predicate AllOk(live: map<nat, Region>, out: seq<Grant>) {
    forall i {:trigger out[i]} :: 0 <= i < |out| ==> GrantOk(live, out[i])
  }

  /** The regions granted are exactly the live ones, each once. */
  ghost predicate Granted(live: map<nat, Region>, out: seq<Grant>) {
    && AllOk(live, out)
    && (forall i, j {:trigger out[i], out[j]} :: 0 <= i < j < |out| ==> out[i].p != out[j].p)
    && (forall p: nat {:trigger p in live} :: p in live ==> exists i :: 0 <= i < |out| && out[i].p == p)
  }

  function Drop(out: seq<Grant>, i: nat): seq<Grant>
    requires i < |out|
  {
    out[..i] + out[i + 1..]
  }

  lemma GrantMore(was: map<nat, Region>, live: map<nat, Region>, out: seq<Grant>, g: Grant)
    requires Granted(was, out) && Added(was, live, g.p, Effective(g.align), g.first, g.who)
    requires |g.data| <= Usable(live[g.p])
    ensures Granted(live, out + [g])
  {
    var out' := out + [g];
    forall i | 0 <= i < |out'| ensures GrantOk(live, out'[i]) {
      assert i < |out| ==> GrantOk(was, out[i]) && out[i].p in was;
    }
    forall i, j | 0 <= i < j < |out'| ensures out'[i].p != out'[j].p {
      assert GrantOk(was, out[i]);
    }
    forall p: nat | p in live ensures exists i :: 0 <= i < |out'| && out'[i].p == p {
      if p in was {
        var i :| 0 <= i < |out| && out[i].p == p;
        assert out'[i].p == p;
      } else {
        assert out'[|out|].p == p;
      }
    }
  }

  lemma DropAt(out: seq<Grant>, i: nat, j: nat)
    requires i < |out|
    ensures |Drop(out, i)| == |out| - 1
    ensures j < |out| && j != i ==> Drop(out, i)[if j < i then j else j - 1] == out[j]
    ensures j < |out| - 1 ==> Drop(out, i)[j] == out[if j < i then j else j + 1]
  {}

  lemma GrantLess(was: map<nat, Region>, out: seq<Grant>, i: nat)
    requires Granted(was, out) && i < |out|
    ensures Granted(was - {out[i].p}, Drop(out, i))
  {
    var live, out' := was - {out[i].p}, Drop(out, i);
    DropAt(out, i, 0);
    forall j | 0 <= j < |out'| ensures GrantOk(live, out'[j]) {
      DropAt(out, i, j);
      assert GrantOk(was, out[if j < i then j else j + 1]);
    }
    forall j, k | 0 <= j < k < |out'| ensures out'[j].p != out'[k].p {
      DropAt(out, i, j);
      DropAt(out, i, k);
    }
    forall p: nat | p in live ensures exists j :: 0 <= j < |out'| && out'[j].p == p {
      var j :| 0 <= j < |out| && out[j].p == p;
      DropAt(out, i, j);
      assert out'[if j < i then j else j - 1].p == p;
    }
  }

  lemma GrantStays(live: map<nat, Region>, out: seq<Grant>, i: nat, data: seq<Option<int>>)
    requires Granted(live, out) && i < |out| && out[i].p in live && |data| <= Usable(live[out[i].p])
    ensures Granted(live, out[i := out[i].(data := data)])
  {
    var out' := out[i := out[i].(data := data)];
    forall j | 0 <= j < |out'| ensures GrantOk(live, out'[j]) {
      assert GrantOk(live, out[j]);
    }
    assert forall j :: 0 <= j < |out| ==> out'[j].p == out[j].p;
    forall p: nat | p in live ensures exists j :: 0 <= j < |out'| && out'[j].p == p {
      var j :| 0 <= j < |out| && out[j].p == p;
      assert out'[j].p == p;
    }
  }

  /** Up to the limit the size of a region's block fits a plain int. */
  lemma BlockFitsInt(p: nat, r: Region)
    requires Fits(p, r) && r.pad + r.nbytes <= REALLOC_MAX
    ensures r.bucket + MINSHIFT < 31
  {
    IntLimit(2);
    if r.bucket + MINSHIFT >= 31 {
      Pow2Monotone(30, r.bucket + MINSHIFT - 1);
    }
  }

  lemma IntLimit(k: nat)
    requires k == 2
    ensures Pow2(k + 28) == REALLOC_MAX
  {
    assert Pow2(k) == 4;
    Pow2Plus4(k);
    Pow2Plus4(k + 4);
    Pow2Plus4(k + 8);
    Pow2Plus4(k + 12);
    Pow2Plus4(k + 16);
    Pow2Plus4(k + 20);
    Pow2Plus4(k + 24);
  }

  // ----- Separate buffers

  function Unknown(n: nat): seq<Option<int>> {
    seq(n, _ => None)
  }

  function Zeros(n: nat): seq<Option<int>> {
    seq(n, _ => Some(0))
  }

  /** The first `n` bytes; those past the end are unknown. */
  function Fit(data: seq<Option<int>>, n: nat): seq<Option<int>> {
    seq(n, k requires 0 <= k => if k < |data| then data[k] else None)
  }

  /** Regions whose size realloc can compute. */
  predicate Resizable(out: seq<Grant>, i: nat) {
    i < |out| && out[i].who == User && Effective(out[i].align) + out[i].first <= REALLOC_MAX
  }

  /** The buffers after a call that returned `r`, each a thing of its own. */
  function Next(out: seq<Grant>, c: Call, r: Option<nat>): seq<Grant> {
    match c
    case Malloc(nbytes, align, who) =>
      if r.None? then out else out + [Grant(r.value, Unknown(nbytes), nbytes, align, who)]
    case Calloc(n, size, who) =>
      if r.None? then out else out + [Grant(r.value, Zeros(n * size), n * size, MINALIGN, who)]
    case Realloc(i, nbytes) =>
      if !Resizable(out, i) then out
      else if r.None? then if nbytes == 0 then Drop(out, i) else out
      else if r.value == out[i].p then out[i := out[i].(data := Fit(out[i].data, nbytes))]
      else Drop(out, i) + [Grant(r.value, Fit(out[i].data, nbytes), nbytes, MINALIGN, User)]
    case Free(i) => if i < |out| then Drop(out, i) else out
    case Write(i, at, value) =>
      if i < |out| && at < |out[i].data| then out[i := out[i].(data := out[i].data[at := Some(value)])] else out
  }

  /** ... and after a whole run. */
  function Replay(calls: seq<Call>, results: seq<Option<nat>>): seq<Grant>
    requires |calls| == |results|
  {
    if calls == [] then []
    else
      var n := |calls| - 1;
      Next(Replay(calls[..n], results[..n]), calls[n], results[n])
  }

  /** Memory holds what is known of the buffer. */
  ghost predicate Holds(mem: seq<int>, g: Grant) {
    forall k {:trigger g.data[k]} :: 0 <= k < |g.data| && g.data[k].Some? ==>
      g.p + k < |mem| && mem[g.p + k] == g.data[k].value
  }

  ghost predicate AllHold(mem: seq<int>, out: seq<Grant>) {
    forall i {:trigger out[i]} :: 0 <= i < |out| ==> Holds(mem, out[i])
  }

  /** The grants are the live regions, and memory holds what is known of them. */
  ghost predicate Served(live: map<nat, Region>, mem: seq<int>, out: seq<Grant>) {
    Granted(live, out) && AllHold(mem, out)
  }

  /** Only `n` bytes at `q` may differ. */
  ghost predicate SameOutside(was: seq<int>, mem: seq<int>, q: nat, n: nat) {
    |mem| == |was| && forall x {:trigger mem[x]} :: 0 <= x < |was| && !(q <= x < q + n) ==> mem[x] == was[x]
  }

  /** What happens in one region does not touch the bytes of another. */
  lemma OtherHolds(h: Heap, was: seq<int>, mem: seq<int>, g: Grant, q: nat, n: nat)
    requires h.Valid() && GrantOk(h.live, g) && q in h.live && g.p != q
    requires n <= Usable(h.live[q]) && SameOutside(was, mem, q, n) && Holds(was, g)
    ensures Holds(mem, g)
  {
    PointerLayout(h, g.p);
    PointerLayout(h, q);
    LiveApart(h, g.p, q);
  }

  lemma OthersHold(h: Heap, was: seq<int>, mem: seq<int>, out: seq<Grant>, q: nat, n: nat)
    requires h.Valid() && q in h.live && n <= Usable(h.live[q]) && SameOutside(was, mem, q, n)
    requires AllHold(was, out) && AllOk(h.live, out) && forall i {:trigger out[i]} :: 0 <= i < |out| ==> out[i].p != q
    ensures AllHold(mem, out)
  {
    forall i | 0 <= i < |out| ensures Holds(mem, out[i]) {
      OtherHolds(h, was, mem, out[i], q, n);
    }
  }

  lemma DropHolds(mem: seq<int>, out: seq<Grant>, i: nat)
    requires AllHold(mem, out) && i < |out|
    ensures AllHold(mem, Drop(out, i))
  {
    forall j | 0 <= j < |Drop(out, i)| ensures Holds(mem, Drop(out, i)[j]) {
      DropAt(out, i, j);
    }
  }

  lemma ClearHolds(was: seq<int>, q: nat, n: nat, g: Grant)
    requires q + n <= |was| && g.p == q && g.data == Zeros(n)
    ensures SameOutside(was, Clear(was, q, n), q, n) && Holds(Clear(was, q, n), g)
  {}

  lemma CopyHolds(was: seq<int>, mem: seq<int>, q: nat, g: Grant, n: nat, g': Grant, nbytes: nat)
    requires Copied(was, mem, q, g.p, n) && |g.data| <= n && Holds(was, g)
    requires g'.p == q && g'.data == Fit(g.data, nbytes)
    ensures n < nbytes ==> SameOutside(was, mem, q, nbytes) && Holds(mem, g')
  {
    forall k | 0 <= k < |g'.data| && g'.data[k].Some? ensures mem[q + k] == g'.data[k].value {
      assert k < |g.data| && g.data[k].Some? && was[g.p..g.p + n][k] == was[g.p + k];
    }
  }

  /** A byte written into one region. */
  lemma WriteServed(h: Heap, mem: seq<int>, out: seq<Grant>, i: nat, at: nat, value: int)
    requires h.Valid() && Served(h.live, mem, out)
    requires i < |out| && at < |out[i].data| && out[i].p + at < |mem|
    ensures Served(h.live, mem[out[i].p + at := value], Next(out, Write(i, at, value), None))
  {
    GrantStays(h.live, out, i, out[i].data[at := Some(value)]);
    WriteHolds(h, mem, out, i, at, value, out[i].(data := out[i].data[at := Some(value)]));
  }

  lemma WriteHolds(h: Heap, mem: seq<int>, out: seq<Grant>, i: nat, at: nat, value: int, g: Grant)
    requires h.Valid() && Granted(h.live, out) && AllHold(mem, out)
    requires i < |out| && at < |out[i].data| && out[i].p + at < |mem|
    requires g == out[i].(data := out[i].data[at := Some(value)])
    ensures AllHold(mem[out[i].p + at := value], out[i := g])
  {
    var mem', out' := mem[out[i].p + at := value], out[i := g];
    assert GrantOk(h.live, out[i]) && Holds(mem, out[i]);
    forall j | 0 <= j < |out'| ensures Holds(mem', out'[j]) {
      if j != i {
        assert GrantOk(h.live, out[j]);
        OtherHolds(h, mem, mem', out[j], out[i].p, Usable(h.live[out[i].p]));
      }
    }
  }

  /**
    Serves a run of calls on a heap with nothing handed out. Whatever pointers come back, the
    live regions are those of a run over separate buffers, and memory holds their bytes.
   */
  method Serve(m: MemAllocator, calls: seq<Call>) returns (out: seq<Grant>, results: seq<Option<nat>>)
    requires m.Valid() && m.heap.live == map[]
    requires forall k :: 0 <= k < |calls| ==> CallOk(calls[k])
    modifies m, m.pg, m.pg.bitmap
    ensures |results| == |calls| && out == Replay(calls, results)
    ensures m.Valid() && Served(m.heap.live, m.mem, out)
  {
    out, results := [], [];
    for k := 0 to |calls|
      invariant |results| == k && out == Replay(calls[..k], results)
      invariant m.Valid() && m.pg.bitmap == old(m.pg.bitmap) && Served(m.heap.live, m.mem, out)
    {
      var r;
      ghost var before := results;
      out, r := ServeOne(m, calls[k], out);
      results := results + [r];
      assert calls[..k + 1][..k] == calls[..k] && results[..k] == before;
    }
    assert calls[..|calls|] == calls;
  }

  method ServeOne(m: MemAllocator, c: Call, out: seq<Grant>) returns (out': seq<Grant>, r: Option<nat>)
    requires m.Valid() && CallOk(c) && Served(m.heap.live, m.mem, out)
    modifies m, m.pg, m.pg.bitmap
    ensures m.Valid() && m.pg.bitmap == old(m.pg.bitmap)
    ensures out' == Next(out, c, r) && Served(m.heap.live, m.mem, out')
  {
    r := None;
    match c {
      case Malloc(nbytes, align, who) =>
        r := ServeMalloc(m, nbytes, align, who, out);
      case Calloc(n, size, who) =>
        r := ServeCalloc(m, n, size, who, out);
      case Realloc(i, nbytes) =>
        r := ServeRealloc(m, i, nbytes, out);
      case Free(i) =>
        ServeFree(m, i, out);
      case Write(i, at, value) =>
        ServeWrite(m, i, at, value, out);
    }
    out' := Next(out, c, r);
  }

  lemma BytesUsable(h: Heap, p: nat)
    requires h.Valid() && p in h.live
    ensures h.live[p].nbytes <= Usable(h.live[p])
  {
    PointerLayout(h, p);
  }

  method ServeMalloc(m: MemAllocator, nbytes: nat, align: nat, who: Who, out: seq<Grant>) returns (r: Option<nat>)
    requires m.Valid() && CallOk(Malloc(nbytes, align, who)) && Served(m.heap.live, m.mem, out)
    modifies m, m.pg, m.pg.bitmap
    ensures m.Valid() && m.pg.bitmap == old(m.pg.bitmap)
    ensures Served(m.heap.live, m.mem, Next(out, Malloc(nbytes, align, who), r))
  {
    ghost var was := m.heap.live;
    r := m.MemAlloc(nbytes, align, who);
    MallocServed(m.heap, was, m.mem, out, nbytes, align, who, r);
  }

  lemma MallocServed(h: Heap, was: map<nat, Region>, mem: seq<int>, out: seq<Grant>, nbytes: nat, align: nat, who: Who,
                     r: Option<nat>)
    requires h.Valid() && Served(was, mem, out)
    requires if r.None? then h.live == was else Added(was, h.live, r.value, Effective(align), nbytes, who)
    ensures Served(h.live, mem, Next(out, Malloc(nbytes, align, who), r))
  {
    if r.Some? {
      MoreServed(h, was, mem, mem, out, Grant(r.value, Unknown(nbytes), nbytes, align, who));
    }
  }

  method ServeCalloc(m: MemAllocator, n: nat, size: nat, who: Who, out: seq<Grant>) returns (r: Option<nat>)
    requires m.Valid() && CallOk(Calloc(n, size, who)) && Served(m.heap.live, m.mem, out)
    modifies m, m.pg, m.pg.bitmap
    ensures m.Valid() && m.pg.bitmap == old(m.pg.bitmap)
    ensures Served(m.heap.live, m.mem, Next(out, Calloc(n, size, who), r))
  {
    ghost var was, mem := m.heap.live, m.mem;
    r := m.MemCalloc(n, size, who);
    if r.Some? {
      var g := Grant(r.value, Zeros(n * size), n * size, MINALIGN, who);
      ClearHolds(mem, r.value, n * size, g);
      MoreServed(m.heap, was, mem, m.mem, out, g);
    }
  }

  /** A new region, of which memory holds what is known; only its bytes may have changed. */
  lemma MoreServed(h: Heap, live: map<nat, Region>, was: seq<int>, mem: seq<int>, out: seq<Grant>, g: Grant)
    requires h.Valid() && Served(live, was, out) && Added(live, h.live, g.p, Effective(g.align), g.first, g.who)
    requires |g.data| == g.first && SameOutside(was, mem, g.p, |g.data|) && Holds(mem, g)
    ensures Served(h.live, mem, out + [g])
  {
    BytesUsable(h, g.p);
    GrantMore(live, h.live, out, g);
    StillGranted(live, h.live, out, g.p);
    OthersHold(h, was, mem, out, g.p, |g.data|);
  }

  lemma StillGranted(was: map<nat, Region>, live: map<nat, Region>, out: seq<Grant>, q: nat)
    requires AllOk(was, out) && q in live && q !in was && live == was[q := live[q]]
    ensures AllOk(live, out) && forall i {:trigger out[i]} :: 0 <= i < |out| ==> out[i].p != q
  {
    forall i | 0 <= i < |out| ensures GrantOk(live, out[i]) && out[i].p != q {
      assert GrantOk(was, out[i]);
    }
  }

  method ServeFree(m: MemAllocator, i: nat, out: seq<Grant>)
    requires m.Valid() && Served(m.heap.live, m.mem, out)
    modifies m, m.pg, m.pg.bitmap
    ensures m.Valid() && m.pg.bitmap == old(m.pg.bitmap)
    ensures Served(m.heap.live, m.mem, Next(out, Free(i), None))
  {
    if i < |out| {
      FreeServed(m.heap.live, m.mem, out, i);
      m.MemFree(out[i].p, out[i].who);
    }
  }

  lemma FreeServed(live: map<nat, Region>, mem: seq<int>, out: seq<Grant>, i: nat)
    requires Served(live, mem, out) && i < |out|
    ensures out[i].p in live && live[out[i].p].who == out[i].who
    ensures Served(live - {out[i].p}, mem, Next(out, Free(i), None))
  {
    assert GrantOk(live, out[i]);
    GrantLess(live, out, i);
    DropHolds(mem, out, i);
  }

  /** A byte written by the application. */
  method ServeWrite(m: MemAllocator, i: nat, at: nat, value: int, out: seq<Grant>)
    requires m.Valid() && Served(m.heap.live, m.mem, out)
    modifies m`mem
    ensures m.Valid() && Served(m.heap.live, m.mem, Next(out, Write(i, at, value), None))
  {
    if i < |out| && at < |out[i].data| {
      GrantInMemory(m, out, i);
      WriteServed(m.heap, m.mem, out, i, at, value);
      WriteByte(m, out[i].p + at, value);
    }
  }

  lemma GrantInMemory(m: MemAllocator, out: seq<Grant>, i: nat)
    requires m.Valid() && Granted(m.heap.live, out) && i < |out|
    ensures m.heap.Valid() && out[i].p + |out[i].data| <= |m.mem|
  {
    assert GrantOk(m.heap.live, out[i]);
    m.RegionInMemory(out[i].p);
  }

  method WriteByte(m: MemAllocator, a: nat, value: int)
    requires m.Valid() && a < |m.mem|
    modifies m`mem
    ensures m.Valid() && m.mem == old(m.mem)[a := value]
  {
    m.mem := m.mem[a := value];
  }

  method ServeRealloc(m: MemAllocator, i: nat, nbytes: nat, out: seq<Grant>) returns (r: Option<nat>)
    requires m.Valid() && CallOk(Realloc(i, nbytes)) && Served(m.heap.live, m.mem, out)
    modifies m, m.pg, m.pg.bitmap
    ensures m.Valid() && m.pg.bitmap == old(m.pg.bitmap)
    ensures Served(m.heap.live, m.mem, Next(out, Realloc(i, nbytes), r))
  {
    r := None;
    if Resizable(out, i) {
      ghost var was, mem, p := m.heap.live, m.mem, out[i].p;
      assert GrantOk(was, out[i]) && Fits(p, was[p]);
      BlockFitsInt(p, was[p]);
      r := m.MemRealloc(out[i].p, nbytes);
      ReallocServed(m.heap, was, mem, m.mem, out, i, nbytes, r);
    }
  }

  /** What `MemRealloc` promises, for the region of a grant. */
  ghost predicate Reallocated(was: map<nat, Region>, live: map<nat, Region>, m: seq<int>, m': seq<int>, p: nat,
                              nbytes: nat, r: Option<nat>) {
    p in was &&
    match r
    case None => m' == m && live == if nbytes == 0 then was - {p} else was
    case Some(q) =>
      && Resized(was, live, p, q, nbytes) && nbytes > 0 && (nbytes <= Usable(was[p]) <==> q == p)
      && if q == p then m' == m else Copied(m, m', q, p, Usable(was[p]))
  }

  lemma ReallocServed(h: Heap, live: map<nat, Region>, was: seq<int>, mem: seq<int>, out: seq<Grant>, i: nat,
                      nbytes: nat, r: Option<nat>)
    requires h.Valid() && Served(live, was, out) && Resizable(out, i)
    requires Reallocated(live, h.live, was, mem, out[i].p, nbytes, r)
    ensures Served(h.live, mem, Next(out, Realloc(i, nbytes), r))
  {
    if r.None? {
      if nbytes == 0 {
        GrantLess(live, out, i);
        DropHolds(mem, out, i);
      }
    } else if r.value == out[i].p {
      GrantStays(live, out, i, Fit(out[i].data, nbytes));
      FitHolds(mem, out, i, nbytes);
    } else {
      MovedServed(h, live, was, mem, out, i, r.value, nbytes);
    }
  }

  lemma FitHolds(mem: seq<int>, out: seq<Grant>, i: nat, nbytes: nat)
    requires AllHold(mem, out) && i < |out|
    ensures AllHold(mem, out[i := out[i].(data := Fit(out[i].data, nbytes))])
  {
    var out' := out[i := out[i].(data := Fit(out[i].data, nbytes))];
    forall j | 0 <= j < |out'| ensures Holds(mem, out'[j]) {
      assert Holds(mem, out[j]);
    }
  }

  /** A region moved by realloc keeps its bytes, and so do the others. */
  lemma MovedServed(h: Heap, live: map<nat, Region>, was: seq<int>, mem: seq<int>, out: seq<Grant>, i: nat, q: nat,
                    nbytes: nat)
    requires h.Valid() && Served(live, was, out) && i < |out| && q != out[i].p && out[i].p in live
    requires Resized(live, h.live, out[i].p, q, nbytes) && Copied(was, mem, q, out[i].p, Usable(live[out[i].p]))
    requires Usable(live[out[i].p]) < nbytes
    ensures Served(h.live, mem, Drop(out, i) + [Grant(q, Fit(out[i].data, nbytes), nbytes, MINALIGN, User)])
  {
    var n, g := Usable(live[out[i].p]), Grant(q, Fit(out[i].data, nbytes), nbytes, MINALIGN, User);
    assert GrantOk(live, out[i]);
    CopyHolds(was, mem, q, out[i], n, g, nbytes);
    GrantLess(live, out, i);
    DropHolds(was, out, i);
    MoreServed(h, live - {out[i].p}, was, mem, Drop(out, i), g);
  }

  /**
    What every run leaves outstanding: each region aligned as asked and large enough, the
    blocks of any two, headers and padding included, apart from each other.
   */
  lemma RegionsApart(h: Heap, out: seq<Grant>, i: nat, j: nat)
    requires h.Valid() && Granted(h.live, out) && i < j < |out|
    ensures
      var p, q := out[i].p, out[j].p;
      && p in h.live && q in h.live
      && Apart(h.live[p].base, Pow2(h.live[p].bucket + MINSHIFT), h.live[q].base, Pow2(h.live[q].bucket + MINSHIFT))
      && h.live[p].base + HDR_SIZE <= p && p + |out[i].data| <= h.live[p].base + Pow2(h.live[p].bucket + MINSHIFT)
      && exists a: nat :: Effective(out[i].align) == Pow2(a) && Aligned(p, a)
  {
    assert GrantOk(h.live, out[i]) && GrantOk(h.live, out[j]);
    LiveApart(h, out[i].p, out[j].p);
    assert Fits(out[i].p, h.live[out[i].p]);
  }
}
