/**
  Batch send: the protected machine's `send()` cuts a buffer into chunks, the network stack
  sends each chunk, and the driver adds up the counts it reports.
 */
module BatchSend {
  import opened Queues

  type Byte = n: int | 0 <= n < 256

  /** `mt_size_t`, the type of the count in a response, has 16 bits. */
  const COUNT_LIMIT: nat := 0x1_0000

  /** A send request: its batch flags, whether the caller waits for the response, the payload. */
  datatype Request = Request(init: bool, fini: bool, waits: bool, payload: seq<Byte>)

  // ----- Chunking

  function ChunkSize(len: nat, limit: nat, at: nat): nat
    requires at <= len
  {
    if limit < len - at then limit else len - at
  }

  /** The requests for `buf[at..]` when every one is written at the first attempt. */
  function Chunks(buf: seq<Byte>, limit: nat, at: nat): seq<Request>
    requires 1 <= limit && at <= |buf|
    decreases |buf| - at
  {
    if at == |buf| then []
    else
      var n := ChunkSize(|buf|, limit, at);
      [Request(at == 0, at + n == |buf|, at + n == |buf|, buf[at..at + n])] + Chunks(buf, limit, at + n)
  }

  function Payloads(rs: seq<Request>): seq<Byte> {
    if rs == [] then [] else rs[0].payload + Payloads(rs[1..])
  }

  /** The chunks carry the buffer, INIT on exactly the first, FINI on exactly the last. */
  lemma {:induction false} ChunksCorrect(buf: seq<Byte>, limit: nat, at: nat)
    requires 1 <= limit && at <= |buf|
    ensures
      var rs := Chunks(buf, limit, at);
      && Payloads(rs) == buf[at..] && (rs == [] <==> at == |buf|)
      && forall k :: 0 <= k < |rs| ==>
           && 1 <= |rs[k].payload| <= limit && (k < |rs| - 1 ==> |rs[k].payload| == limit)
           && (rs[k].init <==> at == 0 && k == 0)
           && (rs[k].fini <==> k == |rs| - 1) && rs[k].waits == rs[k].fini
    decreases |buf| - at
  {
    if at < |buf| {
      var n := ChunkSize(|buf|, limit, at);
      ChunksCorrect(buf, limit, at + n);
      var rs, rest := Chunks(buf, limit, at), Chunks(buf, limit, at + n);
      assert rs[1..] == rest;
      assert buf[at..] == buf[at..at + n] + buf[at + n..];
      forall k | 0 <= k < |rs|
        ensures 1 <= |rs[k].payload| <= limit && (rs[k].init <==> at == 0 && k == 0)
        ensures (rs[k].fini <==> k == |rs| - 1) && rs[k].waits == rs[k].fini
      {
        if k > 0 {
          assert rs[k] == rest[k - 1];
        }
      }
    }
  }

  /** The same chunk, whether or not the caller waits for the response. */
  predicate Alike(r: Request, q: Request) {
    r.init == q.init && r.fini == q.fini && r.payload == q.payload
  }

  ghost predicate SameButWaits(a: seq<Request>, b: seq<Request>) {
    |a| == |b| && forall k :: 0 <= k < |a| ==> Alike(a[k], b[k])
  }

  lemma {:induction false} SamePayloads(a: seq<Request>, b: seq<Request>)
    requires SameButWaits(a, b)
    ensures Payloads(a) == Payloads(b)
  {
    if a != [] {
      SamePayloads(a[1..], b[1..]);
    }
  }

  /** What has been written of the buffer: an initial part of its chunks, up to `tot`. */
  ghost predicate WrittenBy(rs: seq<Request>, buf: seq<Byte>, limit: nat, tot: nat) {
    && 1 <= limit && tot <= |buf|
    && var all := Chunks(buf, limit, 0);
       && |rs| <= |all| && all[|rs|..] == Chunks(buf, limit, tot)
       && forall k {:trigger Alike(rs[k], all[k])} :: 0 <= k < |rs| ==> Alike(rs[k], all[k])
  }

  lemma OneMore(buf: seq<Byte>, limit: nat, written: seq<Request>, tot: nat, n: nat, r: Request)
    requires tot < |buf| && WrittenBy(written, buf, limit, tot) && n == ChunkSize(|buf|, limit, tot)
    requires r == Request(tot == 0, tot + n == |buf|, r.waits, buf[tot..tot + n])
    ensures WrittenBy(written + [r], buf, limit, tot + n)
  {
    var all, w := Chunks(buf, limit, 0), |written|;
    var rest := Chunks(buf, limit, tot);
    assert all[w + 1..] == all[w..][1..] == rest[1..] && rest[1..] == Chunks(buf, limit, tot + n);
    assert all[w] == rest[0];
    forall k | 0 <= k < w + 1 ensures Alike((written + [r])[k], all[k]) {
      assert k < w ==> Alike(written[k], all[k]);
    }
  }

  /** All of it written: the chunks of the buffer. */
  lemma WrittenAll(rs: seq<Request>, buf: seq<Byte>, limit: nat)
    requires WrittenBy(rs, buf, limit, |buf|)
    ensures SameButWaits(rs, Chunks(buf, limit, 0))
  {
    var all := Chunks(buf, limit, 0);
    assert |all[|rs|..]| == 0;
    forall k | 0 <= k < |rs| ensures Alike(rs[k], all[k]) {}
  }

  // ----- Writing the requests

  /**
    An attempt to write a request: it is not written; it is written, and answered well if the
    shim waits for the response; or it is written, and the response the shim waits for is an
    error or cannot be read.
   */
  datatype Attempt = NotWritten | Written | Refused

  /** The first attempt from `from` on that does not write; at or past the end when all do. */
  function FirstMissing(tries: seq<Attempt>, from: nat): (f: nat)
    ensures from <= f && (f < |tries| ==> tries[f].NotWritten?)
    ensures forall k :: from <= k < f && k < |tries| ==> !tries[k].NotWritten?
    decreases |tries| - from
  {
    if from >= |tries| || tries[from].NotWritten? then from else FirstMissing(tries, from + 1)
  }

  /** The first attempt from `from` on that fails in either way. */
  function FirstBad(tries: seq<Attempt>, from: nat): (g: nat)
    ensures from <= g && (g < |tries| ==> !tries[g].Written?)
    ensures forall k :: from <= k < g && k < |tries| ==> tries[k].Written?
    decreases |tries| - from
  {
    if from >= |tries| || !tries[from].Written? then from else FirstBad(tries, from + 1)
  }

  /** A failure in front of the last of `n` chunks: it is forgiven, and from then on the shim
      waits for every response. */
  predicate Forgiven(tries: seq<Attempt>, n: nat) {
    FirstMissing(tries, 0) < |tries| && FirstMissing(tries, 0) + 1 < n
  }

  /** The attempt that ends the loop for `n` chunks, when one does. */
  function Fatal(tries: seq<Attempt>, n: nat): Option<nat>
    requires n > 0
  {
    if Forgiven(tries, n) then
      var g := FirstBad(tries, FirstMissing(tries, 0) + 1);
      if g < |tries| && g <= n then Some(g) else None
    else if n - 1 < |tries| && !tries[n - 1].Written? then Some(n - 1)
    else None
  }

  /** How many of `n` chunks are written. */
  function WrittenCount(tries: seq<Attempt>, n: nat): nat {
    if n == 0 || Fatal(tries, n).None? then n
    else
      var g := Fatal(tries, n).value;
      (if Forgiven(tries, n) then g - 1 else g) + if tries[g].Refused? then 1 else 0
  }

  /** The loop ended with an error response to a request that was written. */
  predicate WasRefused(tries: seq<Attempt>, n: nat) {
    n > 0 && Fatal(tries, n).Some? && tries[Fatal(tries, n).value].Refused?
  }

  /** Chunk `k` is written at or after the first failure. */
  predicate Retried(tries: seq<Attempt>, k: nat) {
    FirstMissing(tries, 0) < |tries| && FirstMissing(tries, 0) <= k
  }

  /** The loop before an attempt: no failure yet, or one that was forgiven. */
  ghost predicate Attempting(tries: seq<Attempt>, n: nat, w: nat, attempt: nat, final: bool) {
    var f := FirstMissing(tries, 0);
    if attempt == w then
      && (forall k :: 0 <= k < w && k < |tries| ==> !tries[k].NotWritten?)
      && (final ==> w == n) && (w == n && n - 1 < |tries| ==> n == 0 || tries[n - 1].Written?)
    else
      && attempt == w + 1 && final && f < |tries| && f <= w && f + 1 < n
      && forall k :: f < k < attempt && k < |tries| ==> tries[k].Written?
  }

  /** The shim waits for the response to the last chunk and, after a failure, to all. */
  ghost predicate WaitsAsTold(written: seq<Request>, tries: seq<Attempt>) {
    forall k :: 0 <= k < |written| ==> (written[k].waits <==> written[k].fini || Retried(tries, k))
  }

  /** Where the written chunks end, when `tot` bytes were written without failure. */
  function Reached(len: nat, limit: nat, tot: nat, refused: bool): nat
    requires tot <= len
  {
    if refused then tot + ChunkSize(len, limit, tot) else tot
  }

  /** What the loop has done when it ends. */
  ghost predicate Ended(buf: seq<Byte>, limit: nat, tries: seq<Attempt>, written: seq<Request>, tot: nat,
                        refused: bool) {
    1 <= limit && tot <= |buf| &&
    var n := |Chunks(buf, limit, 0)|;
    && (refused ==> tot < |buf|)
    && WrittenBy(written, buf, limit, Reached(|buf|, limit, tot, refused))
    && |written| == WrittenCount(tries, n) && refused == WasRefused(tries, n) && WaitsAsTold(written, tries)
  }

  /**
    The loop of the shim's `send()` over arbitrary attempts; those past the end write. What is
    written is an initial part of the chunks of the buffer, of the length `WrittenCount` says:
    a request that is not written is tried once more, waiting for the response but without
    FINI unless the chunk is the last; a later failure of either kind ends the batch. FINI is
    written exactly when all chunks are, and all bytes count as sent exactly when moreover the
    last response is no error.
   */
  method Send(buf: seq<Byte>, limit: nat, tries: seq<Attempt>) returns (written: seq<Request>, tot: nat, refused: bool)
    requires 1 <= limit
    ensures Ended(buf, limit, tries, written, tot, refused)
    ensures (exists k :: 0 <= k < |written| && written[k].fini) <==> |written| == |Chunks(buf, limit, 0)| > 0
    ensures tot == |buf| <==> |written| == |Chunks(buf, limit, 0)| && !refused
    ensures (forall k :: 0 <= k < |tries| ==> tries[k].Written?) ==> tot == |buf| && written == Chunks(buf, limit, 0)
  {
    written, tot, refused := WriteChunks(buf, limit, tries);
    EndedFini(buf, limit, tries, written, tot, refused);
  }

  method WriteChunks(buf: seq<Byte>, limit: nat, tries: seq<Attempt>)
      returns (written: seq<Request>, tot: nat, refused: bool)
    requires 1 <= limit
    ensures Ended(buf, limit, tries, written, tot, refused)
  {
    written, tot, refused := [], 0, false;
    var final, init, fini, attempt := false, true, false, 0;
    while tot < |buf|
      invariant Writing(buf, limit, tries, written, tot, attempt, final)
      invariant (init || tot > 0) && (fini ==> tot == |buf|) && !refused
      decreases |buf| - tot, if final then 0 else 1
    {
      var n := ChunkSize(|buf|, limit, tot);
      ghost var waiting := final;
      if tot > 0 {
        init := false;
      }
      if |buf| == tot + n {
        final, fini := true, true;
      }
      var r := Request(init, fini, final, buf[tot..tot + n]);
      var a := Made(tries, attempt);
      ChunkTried(buf, limit, tries, written, tot, attempt, waiting, n, r);
      attempt := attempt + 1;
      if a.NotWritten? {
        if final {
          return;
        }
        final := true;
      } else {
        written := written + [r];
        if a.Refused? && final {
          refused := true;
          return;
        }
        tot := tot + n;
      }
    }
    AllTried(buf, limit, tries, written, attempt, final);
  }

  /** The loop between two attempts. */
  ghost predicate Writing(buf: seq<Byte>, limit: nat, tries: seq<Attempt>, written: seq<Request>, tot: nat,
                          attempt: nat, final: bool) {
    && WrittenBy(written, buf, limit, tot) && WaitsAsTold(written, tries)
    && Attempting(tries, |Chunks(buf, limit, 0)|, |written|, attempt, final)
  }

  /** The attempt of that number; those past the end write. */
  function Made(tries: seq<Attempt>, attempt: nat): Attempt {
    if attempt < |tries| then tries[attempt] else Written
  }

  /** An attempt to write chunk `r` goes on, is forgiven, or ends the loop. */
  lemma ChunkTried(buf: seq<Byte>, limit: nat, tries: seq<Attempt>, written: seq<Request>, tot: nat, attempt: nat,
                   waiting: bool, n: nat, r: Request)
    requires Writing(buf, limit, tries, written, tot, attempt, waiting) && tot < |buf|
    requires n == ChunkSize(|buf|, limit, tot)
    requires r == Request(tot == 0, tot + n == |buf|, waiting || tot + n == |buf|, buf[tot..tot + n])
    ensures
      var a := Made(tries, attempt);
      if a.NotWritten? then
        if r.waits then Ended(buf, limit, tries, written, tot, false)
        else Writing(buf, limit, tries, written, tot, attempt + 1, true)
      else if a.Refused? && r.waits then Ended(buf, limit, tries, written + [r], tot, true)
      else Writing(buf, limit, tries, written + [r], tot + n, attempt + 1, r.waits)
  {
    ChunkPlace(buf, limit, written, tot, n);
    AttemptMade(tries, |Chunks(buf, limit, 0)|, |written|, attempt, waiting, r.fini);
    if !Made(tries, attempt).NotWritten? {
      ChunkWritten(buf, limit, tries, written, tot, n, r, waiting);
    }
  }

  lemma ChunkPlace(buf: seq<Byte>, limit: nat, written: seq<Request>, tot: nat, n: nat)
    requires WrittenBy(written, buf, limit, tot) && tot < |buf| && n == ChunkSize(|buf|, limit, tot)
    ensures |written| < |Chunks(buf, limit, 0)|
    ensures tot + n == |buf| <==> |written| == |Chunks(buf, limit, 0)| - 1
  {
    LastChunk(buf, limit, tot);
    var all := Chunks(buf, limit, 0);
    assert |all[|written|..]| == |all| - |written|;
  }

  lemma ChunkWritten(buf: seq<Byte>, limit: nat, tries: seq<Attempt>, written: seq<Request>, tot: nat, n: nat,
                     r: Request, waiting: bool)
    requires WrittenBy(written, buf, limit, tot) && WaitsAsTold(written, tries) && tot < |buf|
    requires n == ChunkSize(|buf|, limit, tot) && (Retried(tries, |written|) <==> waiting)
    requires r == Request(tot == 0, tot + n == |buf|, waiting || tot + n == |buf|, buf[tot..tot + n])
    ensures WrittenBy(written + [r], buf, limit, tot + n) && WaitsAsTold(written + [r], tries)
  {
    OneMore(buf, limit, written, tot, n, r);
    WaitsToo(written, tries, r);
  }

  lemma AllTried(buf: seq<Byte>, limit: nat, tries: seq<Attempt>, written: seq<Request>, attempt: nat, final: bool)
    requires Writing(buf, limit, tries, written, |buf|, attempt, final)
    ensures Ended(buf, limit, tries, written, |buf|, false)
  {
    var all := Chunks(buf, limit, 0);
    assert |all[|written|..]| == |all| - |written|;
    CountAll(tries, |all|, attempt, final);
  }

  lemma CountAll(tries: seq<Attempt>, n: nat, attempt: nat, final: bool)
    requires Attempting(tries, n, n, attempt, final)
    ensures WrittenCount(tries, n) == n && !WasRefused(tries, n)
  {}

  /** One attempt at chunk `w`: it writes, is forgiven, or ends the loop with the count told. */
  lemma AttemptMade(tries: seq<Attempt>, n: nat, w: nat, attempt: nat, waiting: bool, last: bool)
    requires w < n && (last <==> w == n - 1) && Attempting(tries, n, w, attempt, waiting)
    ensures
      var a := Made(tries, attempt);
      var waits := waiting || last;
      if a.NotWritten? && !waits then Attempting(tries, n, w, attempt + 1, true)
      else if a.NotWritten? then WrittenCount(tries, n) == w && !WasRefused(tries, n)
      else if a.Refused? && waits then WrittenCount(tries, n) == w + 1 && WasRefused(tries, n)
      else Attempting(tries, n, w + 1, attempt + 1, waits)
    ensures !Made(tries, attempt).NotWritten? ==> (Retried(tries, w) <==> waiting)
  {}

  lemma WaitsToo(written: seq<Request>, tries: seq<Attempt>, r: Request)
    requires WaitsAsTold(written, tries) && (r.waits <==> r.fini || Retried(tries, |written|))
    ensures WaitsAsTold(written + [r], tries)
  {}

  lemma EndedFini(buf: seq<Byte>, limit: nat, tries: seq<Attempt>, written: seq<Request>, tot: nat, refused: bool)
    requires Ended(buf, limit, tries, written, tot, refused)
    ensures (exists k :: 0 <= k < |written| && written[k].fini) <==> |written| == |Chunks(buf, limit, 0)| > 0
    ensures tot == |buf| <==> |written| == |Chunks(buf, limit, 0)| && !refused
    ensures (forall k :: 0 <= k < |tries| ==> tries[k].Written?) ==> tot == |buf| && written == Chunks(buf, limit, 0)
  {
    var end := Reached(|buf|, limit, tot, refused);
    WrittenFini(written, buf, limit, end);
    WrittenTo(written, buf, limit, end);
    if forall k :: 0 <= k < |tries| ==> tries[k].Written? {
      AllWritten(buf, limit, written, end);
    }
  }

  /** All chunks are written exactly when they reach the end of the buffer. */
  lemma WrittenTo(rs: seq<Request>, buf: seq<Byte>, limit: nat, end: nat)
    requires WrittenBy(rs, buf, limit, end)
    ensures end == |buf| <==> |rs| == |Chunks(buf, limit, 0)|
  {
    var all := Chunks(buf, limit, 0);
    ChunksCorrect(buf, limit, end);
    assert |all[|rs|..]| == |all| - |rs|;
  }

  /**
    When `send()` leaves its batch open, that is, has written some request but not the last:
    the write of the last of several chunks fails; or a failure is forgiven and then a write
    fails, other than at once at the first chunk, or a chunk before the last is answered with
    an error.
   */
  predicate LeavesOpen(tries: seq<Attempt>, n: nat) {
    if n == 0 || Fatal(tries, n).None? then false
    else
      var g := Fatal(tries, n).value;
      if Forgiven(tries, n) then (if tries[g].NotWritten? then g >= 2 else g < n)
      else n >= 2 && tries[g].NotWritten?
  }

  lemma LeftOpen(tries: seq<Attempt>, n: nat)
    ensures 0 < WrittenCount(tries, n) < n <==> LeavesOpen(tries, n)
  {}

  lemma AllWritten(buf: seq<Byte>, limit: nat, written: seq<Request>, tot: nat)
    requires WrittenBy(written, buf, limit, tot)
    requires |written| == |Chunks(buf, limit, 0)|
    requires forall k :: 0 <= k < |written| ==> written[k].waits == written[k].fini
    ensures tot == |buf| && written == Chunks(buf, limit, 0)
  {
    ChunksCorrect(buf, limit, 0);
    ChunksCorrect(buf, limit, tot);
    var all := Chunks(buf, limit, 0);
    assert all[|written|..] == [];
    forall k | 0 <= k < |written| ensures written[k] == all[k] {
      assert Alike(written[k], all[k]);
    }
  }

  lemma LastChunk(buf: seq<Byte>, limit: nat, at: nat)
    requires 1 <= limit && at < |buf|
    ensures |Chunks(buf, limit, at)| >= 1
    ensures |Chunks(buf, limit, at)| == 1 <==> at + ChunkSize(|buf|, limit, at) == |buf|
  {
    var next := at + ChunkSize(|buf|, limit, at);
    ChunksCorrect(buf, limit, next);
  }

  lemma WrittenFini(rs: seq<Request>, buf: seq<Byte>, limit: nat, tot: nat)
    requires WrittenBy(rs, buf, limit, tot)
    ensures OneBatch(rs) && (rs != [] ==> (rs[|rs| - 1].fini <==> tot == |buf|))
    ensures tot == |buf| > 0 ==> rs != []
    ensures (exists k :: 0 <= k < |rs| && rs[k].fini) <==> tot == |buf| > 0
  {
    ChunksCorrect(buf, limit, 0);
    ChunksCorrect(buf, limit, tot);
    var all := Chunks(buf, limit, 0);
    assert |all[|rs|..]| == |all| - |rs|;
    forall k | 0 <= k < |rs| ensures rs[k].fini <==> k == |all| - 1 {
      assert Alike(rs[k], all[k]);
    }
    if tot == |buf| > 0 {
      assert rs[|rs| - 1].fini;
    }
  }

  /** FINI is on no request but possibly the last: what one `send()`, or several of which only
      the last ended its batch, have written. */
  ghost predicate OneBatch(rs: seq<Request>) {
    forall k :: 0 <= k < |rs| - 1 ==> !rs[k].fini
  }

  // ----- The network stack

  /** Outcomes of `send()` on the local socket. */
  datatype Outcome = Sent(n: nat) | Again | Failed(errno: int)

  const EPIPE: int := 32

  /** The outcomes of the calls for `left` bytes, until these are sent or a call fails. */
  predicate Possible(left: nat, outcomes: seq<Outcome>)
    decreases |outcomes|
  {
    left == 0 || outcomes == [] ||
    match outcomes[0]
    case Sent(n) => 0 < n <= left && Possible(left - n, outcomes[1..])
    case Again => Possible(left, outcomes[1..])
    case Failed(errno) => errno > 0
  }

  /** ... and that point is reached: the call for this request returns. */
  predicate Settles(left: nat, outcomes: seq<Outcome>)
    decreases |outcomes|
  {
    left == 0 ||
    (outcomes != [] &&
     match outcomes[0]
     case Sent(n) => 0 < n <= left && Settles(left - n, outcomes[1..])
     case Again => Settles(left, outcomes[1..])
     case Failed(errno) => errno > 0)
  }

  lemma {:induction false} SettlesPossible(left: nat, outcomes: seq<Outcome>)
    requires Settles(left, outcomes)
    ensures Possible(left, outcomes)
    decreases |outcomes|
  {
    if left > 0 {
      match outcomes[0]
      case Sent(n) => SettlesPossible(left - n, outcomes[1..]);
      case Again => SettlesPossible(left, outcomes[1..]);
      case Failed(_) =>
    }
  }

  datatype Reply = Reply(count: nat, status: int, remoteClosed: bool)

  /** The bytes sent of `left`, and the status: zero or the negative `errno` of a failed call. */
  function Sending(left: nat, outcomes: seq<Outcome>): (r: (nat, int))
    requires Possible(left, outcomes)
    ensures r.0 <= left
    decreases |outcomes|
  {
    if left == 0 || outcomes == [] then (0, 0)
    else
      match outcomes[0]
      case Sent(n) => var (c, s) := Sending(left - n, outcomes[1..]); (n + c, s)
      case Again => Sending(left, outcomes[1..])
      case Failed(errno) => (0, -errno)
  }

  /**
    The loop of `xe_net_send_socket` over the outcomes of its calls, each of which sends some
    bytes, but not more than were passed, or sets a positive `errno`. `out` is what went to the
    local socket. The loop ends when the payload is sent or a call fails for good; it is not
    finished when the outcomes run out.
   */
  method SendSocket(payload: seq<Byte>, outcomes: seq<Outcome>)
      returns (reply: Reply, out: seq<Byte>, finished: bool)
    requires |payload| < COUNT_LIMIT
    requires Possible(|payload|, outcomes)
    ensures reply.count <= |payload| && out == payload[..reply.count]
    ensures (reply.count, reply.status) == Sending(|payload|, outcomes)
    ensures finished <==> reply.count == |payload| || reply.status != 0
    ensures reply.status != 0 ==> reply.count < |payload| && (reply.remoteClosed <==> reply.status == -32)
    ensures (forall k :: 0 <= k < |outcomes| ==> !outcomes[k].Failed?) ==> reply.status == 0
    ensures Settles(|payload|, outcomes) ==> finished
  {
    var count, status, closed, k := 0, 0, false, 0;
    out := [];
    while count < |payload| && k < |outcomes| && status == 0
      invariant 0 <= count <= |payload| && 0 <= k <= |outcomes| && out == payload[..count]
      invariant status != 0 ==> count < |payload| && (closed <==> status == -EPIPE)
      invariant status == 0 ==> Possible(|payload| - count, outcomes[k..])
      invariant status == 0 && Settles(|payload|, outcomes) ==> Settles(|payload| - count, outcomes[k..])
      invariant if status != 0 then (count, status) == Sending(|payload|, outcomes)
                else Sending(|payload|, outcomes)
                     == (count + Sending(|payload| - count, outcomes[k..]).0,
                       Sending(|payload| - count, outcomes[k..]).1)
      invariant (forall j :: 0 <= j < |outcomes| ==> !outcomes[j].Failed?) ==> status == 0
      decreases |outcomes| - k
    {
      match outcomes[k] {
        case Again =>
        case Failed(errno) =>
          status := -errno;
          closed := errno == EPIPE;
        case Sent(n) =>
          out := out + payload[count..count + n];
          count := count + n;
      }
      k := k + 1;
    }
    reply := Reply(count, status, closed);
    finished := count == |payload| || status != 0;
  }

  // ----- The driver's tally

  /** `u_flags` (its batch bit) and `send_tally` of a socket instance. */
  datatype Tally = Tally(batch: bool, sum: nat)

  function Starts(t: Tally): Tally {
    if t.batch then t else Tally(true, 0)
  }

  /** The tally after a response, and the count handed on. */
  function Answered(t: Tally, fini: bool, count: nat): (Tally, nat) {
    if fini then (Tally(false, t.sum), (count + t.sum) % COUNT_LIMIT)
    else (t.(sum := t.sum + count), count)
  }

  class SocketInstance {
    var batch: bool
    var sum: nat

    ghost function View(): Tally
      reads this
    {
      Tally(batch, sum)
    }

    constructor ()
      ensures View() == Tally(false, 0)
    {
      batch, sum := false, 0;
    }

    /** The send case of `mwsocket_pre_process_request`, for a request with the batch flag. */
    method PreProcess()
      modifies this
      ensures View() == Starts(old(View()))
    {
      if !batch {
        batch, sum := true, 0;
      }
    }

    /** The send case of `mwsocket_postproc_no_context`. */
    method PostProcess(fini: bool, count: nat) returns (total: nat)
      requires count < COUNT_LIMIT
      modifies this
      ensures (View(), total) == Answered(old(View()), fini, count)
    {
      total := count;
      if fini {
        batch := false;
        total := (total + sum) % COUNT_LIMIT;
      } else if count > 0 {
        sum := sum + count;
      }
    }
  }

  // ----- Whole batches

  /** Requests are written and responses arrive each in order, a response after its request. */
  datatype Event = Write | Response

  function Sum(counts: seq<nat>): nat {
    if counts == [] then 0 else Sum(counts[..|counts| - 1]) + counts[|counts| - 1]
  }

  /** A schedule of the remaining events of `n` requests, `i` written and `j` answered. */
  predicate Schedule(events: seq<Event>, n: nat, i: nat, j: nat) {
    if events == [] then i == n && j == n
    else if events[0].Write? then i < n && Schedule(events[1..], n, i + 1, j)
    else j < i && Schedule(events[1..], n, i, j + 1)
  }

  /**
    The driver's tally after the events, and the count of the last response. Request `k` is
    answered with its own flags and with the bytes `counts[k]` sent for it.
   */
  function Drive(t: Tally, rs: seq<Request>, counts: seq<nat>, events: seq<Event>, i: nat, j: nat, last: nat)
      : (Tally, nat)
    requires |rs| == |counts| && Schedule(events, |rs|, i, j)
    decreases |events|
  {
    if events == [] then (t, last)
    else if events[0].Write? then Drive(Starts(t), rs, counts, events[1..], i + 1, j, last)
    else
      assert j < |rs| by { ScheduleBound(events, |rs|, i, j); }
      var (t', c) := Answered(t, rs[j].fini, counts[j]);
      Drive(t', rs, counts, events[1..], i, j + 1, c)
  }

  lemma {:induction false} ScheduleBound(events: seq<Event>, n: nat, i: nat, j: nat)
    requires Schedule(events, n, i, j)
    ensures i <= n && j <= n
    decreases |events|
  {
    if events != [] {
      if events[0].Write? {
        ScheduleBound(events[1..], n, i + 1, j);
      } else {
        ScheduleBound(events[1..], n, i, j + 1);
      }
    }
  }

  /** Counts left over in the driver from a batch that never ended. */
  function Stale(t: Tally): nat {
    if t.batch then t.sum else 0
  }

  /** The end of a batch with that sum, or the tally of one that has not ended. */
  ghost predicate Ends(rs: seq<Request>, counts: seq<nat>, stale: nat, t: Tally, c: nat)
    requires |rs| == |counts| > 0
  {
    if rs[|rs| - 1].fini then !t.batch && c == (stale + Sum(counts)) % COUNT_LIMIT
    else t == Tally(true, stale + Sum(counts)) && c == counts[|counts| - 1]
  }

  lemma {:induction false} DriveTotal(t: Tally, rs: seq<Request>, counts: seq<nat>, events: seq<Event>, i: nat, j: nat,
                                      last: nat, stale: nat)
    requires |rs| == |counts| && Schedule(events, |rs|, i, j) && j <= i && j < |rs| && OneBatch(rs)
    requires if i == 0 then stale == Stale(t) else t == Tally(true, stale + Sum(counts[..j]))
    ensures
      var (t', c) := Drive(t, rs, counts, events, i, j, last);
      Ends(rs, counts, stale, t', c)
    decreases |events|
  {
    if events[0].Write? {
      assert counts[..0] == [];
      DriveTotal(Starts(t), rs, counts, events[1..], i + 1, j, last, stale);
    } else {
      assert counts[..j + 1][..j] == counts[..j];
      var (t', c) := Answered(t, rs[j].fini, counts[j]);
      if j < |counts| - 1 {
        DriveTotal(t', rs, counts, events[1..], i, j + 1, c, stale);
      } else {
        assert counts[..j + 1] == counts;
        ScheduleBound(events, |counts|, i, j);
        Finished(t', rs, counts, events[1..], i, j + 1, c);
      }
    }
  }

  lemma Finished(t: Tally, rs: seq<Request>, counts: seq<nat>, events: seq<Event>, i: nat, j: nat, last: nat)
    requires |rs| == |counts| && Schedule(events, |rs|, i, j) && i == j == |rs|
    ensures Drive(t, rs, counts, events, i, j, last) == (t, last)
  {}

  /**
    However writes and responses interleave: when the last request carries FINI, its response
    carries the sum of all counts and of what an unfinished batch left behind, in 16 bits, and
    ends the batch; when it does not, the tally keeps that sum and the driver stays in batch
    mode.
   */
  lemma BatchTotal(t: Tally, rs: seq<Request>, counts: seq<nat>, events: seq<Event>)
    requires |rs| == |counts| > 0 && OneBatch(rs) && Schedule(events, |rs|, 0, 0)
    ensures
      var (t', c) := Drive(t, rs, counts, events, 0, 0, 0);
      Ends(rs, counts, Stale(t), t', c)
  {
    assert counts[..0] == [];
    DriveTotal(t, rs, counts, events, 0, 0, 0, Stale(t));
  }

  // ----- What `send()` leaves behind

  /** A batch that `send()` gave up leaves its counts in the tally. */
  lemma UnfinishedBatch(t: Tally, rs: seq<Request>, buf: seq<Byte>, limit: nat, tot: nat, counts: seq<nat>,
                        events: seq<Event>)
    requires WrittenBy(rs, buf, limit, tot) && tot < |buf| && rs != []
    requires |rs| == |counts| && Schedule(events, |rs|, 0, 0)
    ensures Drive(t, rs, counts, events, 0, 0, 0).0 == Tally(true, Stale(t) + Sum(counts))
  {
    WrittenFini(rs, buf, limit, tot);
    BatchTotal(t, rs, counts, events);
  }

  /** The result of the next batch is its own sum exactly when that sum fits 16 bits and what
      was left behind is a multiple of 65536. */
  lemma StaleTallyCounts(sum: nat, rs: seq<Request>, counts: seq<nat>, events: seq<Event>)
    requires |rs| == |counts| > 0 && OneBatch(rs) && rs[|rs| - 1].fini && Schedule(events, |rs|, 0, 0)
    ensures Drive(Tally(true, sum), rs, counts, events, 0, 0, 0).1 == Sum(counts)
       <==> Sum(counts) < 65536 && sum % 65536 == 0
  {
    BatchTotal(Tally(true, sum), rs, counts, events);
  }

  lemma {:induction false} SumAppend(a: seq<nat>, b: seq<nat>)
    ensures Sum(a + b) == Sum(a) + Sum(b)
  {
    if b == [] {
      assert a + b == a;
    } else {
      var n := |b| - 1;
      assert (a + b)[..|a + b| - 1] == a + b[..n];
      SumAppend(a, b[..n]);
    }
  }

  /**
    A batch that ended early and the next one, in any interleaving of both: the last response
    carries the sum of both, and so is right if and only if the sum of the second fits 16 bits
    and that of the first is a multiple of 65536.
   */
  lemma NextBatch(t: Tally, rs1: seq<Request>, counts1: seq<nat>, rs2: seq<Request>, counts2: seq<nat>,
                  events: seq<Event>)
    requires |rs1| == |counts1| && |rs2| == |counts2| > 0 && !t.batch
    requires (forall k :: 0 <= k < |rs1| ==> !rs1[k].fini) && OneBatch(rs2) && rs2[|rs2| - 1].fini
    requires Schedule(events, |rs1 + rs2|, 0, 0)
    ensures
      var c := Drive(t, rs1 + rs2, counts1 + counts2, events, 0, 0, 0).1;
      && c == (Sum(counts1) + Sum(counts2)) % 65536
      && (c == Sum(counts2) <==> Sum(counts2) < 65536 && Sum(counts1) % 65536 == 0)
  {
    SumAppend(counts1, counts2);
    BatchTotal(t, rs1 + rs2, counts1 + counts2, events);
  }

  /**
    It happens: of three chunks the first is written, the second fails and, tried again without
    FINI, fails again. The next `send()`, of one byte, then reports two.
   */
  lemma StaleWitness()
    ensures WrittenCount([Written, NotWritten, NotWritten], 3) == 1
    ensures
      var all, rs2 := Chunks([1, 2, 3], 1, 0), Chunks([4], 1, 0);
      && |all| == 3 && !all[0].fini && |rs2| == 1
      && (forall events :: Schedule(events, 2, 0, 0) ==>
            Drive(Tally(false, 0), all[..1] + rs2, [1, 1], events, 0, 0, 0).1 == 2)
  {
    assert FirstMissing([Written, NotWritten, NotWritten], 0) == 1;
    assert FirstBad([Written, NotWritten, NotWritten], 2) == 2;
    WitnessChunks();
    var all, rs2 := Chunks([1, 2, 3], 1, 0), Chunks([4], 1, 0);
    forall events | Schedule(events, 2, 0, 0)
      ensures Drive(Tally(false, 0), all[..1] + rs2, [1, 1], events, 0, 0, 0).1 == 2
    {
      assert [1] + [1] == [1, 1] && Sum([1]) == 1;
      NextBatch(Tally(false, 0), all[..1], [1], rs2, [1], events);
    }
  }

  lemma WitnessChunks()
    ensures
      var all, rs2 := Chunks([1, 2, 3], 1, 0), Chunks([4], 1, 0);
      |all| == 3 && !all[0].fini && |rs2| == 1 && rs2[0].fini
  {
    var buf, next := [1, 2, 3], [4];
    var all := Chunks(buf, 1, 0);
    assert all == [all[0]] + ([Chunks(buf, 1, 1)[0]] + Chunks(buf, 1, 2)) && |Chunks(buf, 1, 2)| == 1;
    ChunksCorrect(buf, 1, 0);
    ChunksCorrect(next, 1, 0);
  }

  // ----- The bytes on the local socket

  /** At most the payload is sent for each request. */
  ghost predicate CountsOk(rs: seq<Request>, counts: seq<nat>) {
    |rs| == |counts| && forall k :: 0 <= k < |rs| ==> counts[k] <= |rs[k].payload|
  }

  /** What the stack has put on the local socket, request after request. */
  function Delivered(rs: seq<Request>, counts: seq<nat>): seq<Byte>
    requires CountsOk(rs, counts)
  {
    if rs == [] then [] else rs[0].payload[..counts[0]] + Delivered(rs[1..], counts[1..])
  }

  /** The places in the buffer these bytes come from. */
  function Places(rs: seq<Request>, counts: seq<nat>, at: nat): seq<nat>
    requires |rs| == |counts|
  {
    if rs == [] then []
    else seq(counts[0], k requires 0 <= k < counts[0] => at + k) + Places(rs[1..], counts[1..], at + |rs[0].payload|)
  }

  /** After a request that was sent in part, nothing is sent. */
  ghost predicate NoGap(rs: seq<Request>, counts: seq<nat>)
    requires |rs| == |counts|
  {
    forall i, j :: 0 <= i < j < |rs| && counts[i] < |rs[i].payload| ==> counts[j] == 0
  }

  lemma {:induction false} PlacesSize(rs: seq<Request>, counts: seq<nat>, at: nat)
    requires CountsOk(rs, counts)
    ensures |Places(rs, counts, at)| == Sum(counts) == |Delivered(rs, counts)|
    ensures forall k :: 0 <= k < |Places(rs, counts, at)| ==> at <= Places(rs, counts, at)[k]
  {
    if rs != [] {
      PlacesSize(rs[1..], counts[1..], at + |rs[0].payload|);
      assert counts == [counts[0]] + counts[1..];
      SumAppend([counts[0]], counts[1..]);
      assert [counts[0]][..0] == [];
    }
  }

  /** Byte for byte they are the bytes of the buffer at those places. */
  lemma {:induction false} DeliveredBytes(buf: seq<Byte>, limit: nat, at: nat, rs: seq<Request>, counts: seq<nat>)
    requires 1 <= limit && at <= |buf| && SameButWaits(rs, Chunks(buf, limit, at)) && CountsOk(rs, counts)
    ensures
      var d, p := Delivered(rs, counts), Places(rs, counts, at);
      |d| == |p| && forall k :: 0 <= k < |d| ==> p[k] < |buf| && d[k] == buf[p[k]]
    decreases |buf| - at
  {
    if at < |buf| {
      var n := ChunkSize(|buf|, limit, at);
      assert rs[0].payload == buf[at..at + n];
      assert SameButWaits(rs[1..], Chunks(buf, limit, at + n));
      DeliveredBytes(buf, limit, at + n, rs[1..], counts[1..]);
      forall k | 0 <= k < counts[0] ensures rs[0].payload[..counts[0]][k] == buf[at + k] {}
    }
  }

  ghost predicate Increasing(p: seq<nat>) {
    forall i, j :: 0 <= i < j < |p| ==> p[i] < p[j]
  }

  lemma {:induction false} PlacesIncrease(rs: seq<Request>, counts: seq<nat>, at: nat)
    requires CountsOk(rs, counts)
    ensures Increasing(Places(rs, counts, at))
  {
    if rs != [] {
      var next := at + |rs[0].payload|;
      PlacesIncrease(rs[1..], counts[1..], next);
      MoreIncrease(rs, counts, at, next);
    }
  }

  lemma MoreIncrease(rs: seq<Request>, counts: seq<nat>, at: nat, next: nat)
    requires CountsOk(rs, counts) && rs != [] && next == at + |rs[0].payload|
    requires Increasing(Places(rs[1..], counts[1..], next))
    ensures Increasing(Places(rs, counts, at))
  {
    PlacesJoin(rs, counts, at);
    BothIncrease(Places(rs, counts, at), Places(rs[1..], counts[1..], next), at, counts[0]);
  }

  /** `c` places from `at` on, and behind them `rest`, which lies behind them in the buffer. */
  ghost predicate Joined(p: seq<nat>, rest: seq<nat>, at: nat, c: nat) {
    && |p| == c + |rest| && (forall k :: 0 <= k < c ==> p[k] == at + k)
    && forall k :: 0 <= k < |rest| ==> p[c + k] == rest[k] && at + c <= rest[k]
  }

  lemma PlacesJoin(rs: seq<Request>, counts: seq<nat>, at: nat)
    requires CountsOk(rs, counts) && rs != []
    ensures Joined(Places(rs, counts, at), Places(rs[1..], counts[1..], at + |rs[0].payload|), at, counts[0])
  {
    FirstPlaces(rs, counts, at);
    RestEmpty(rs, counts, at);
  }

  lemma BothIncrease(p: seq<nat>, rest: seq<nat>, at: nat, c: nat)
    requires Joined(p, rest, at, c) && Increasing(rest)
    ensures Increasing(p)
  {
    forall i, j | 0 <= i < j < |p| ensures p[i] < p[j] {
      assert j >= c ==> p[c + (j - c)] == rest[j - c];
      assert i >= c ==> p[c + (i - c)] == rest[i - c];
    }
  }

  ghost predicate Consecutive(p: seq<nat>, at: nat) {
    forall k :: 0 <= k < |p| ==> p[k] == at + k
  }

  lemma ConsecutiveFits(p: seq<nat>, n: nat)
    requires Consecutive(p, 0) && forall k :: 0 <= k < |p| ==> p[k] < n
    ensures |p| <= n
  {
    if p != [] {
      assert p[|p| - 1] == 0 + (|p| - 1);
    }
  }

  /** All counts but the first are zero. */
  predicate LaterZero(counts: seq<nat>) {
    forall j :: 1 <= j < |counts| ==> counts[j] == 0
  }

  lemma {:induction false} GapFree(rs: seq<Request>, counts: seq<nat>, at: nat)
    requires CountsOk(rs, counts)
    ensures Consecutive(Places(rs, counts, at), at) <==> NoGap(rs, counts)
  {
    if rs != [] {
      GapFree(rs[1..], counts[1..], at + |rs[0].payload|);
      NoGapStep(rs, counts);
      if counts[0] == |rs[0].payload| {
        WholeChunk(rs, counts, at);
      } else {
        NothingAfter(rs, counts, at);
      }
    }
  }

  lemma WholeChunk(rs: seq<Request>, counts: seq<nat>, at: nat)
    requires |rs| == |counts| > 0 && counts[0] == |rs[0].payload|
    ensures Consecutive(Places(rs, counts, at), at)
       <==> Consecutive(Places(rs[1..], counts[1..], at + |rs[0].payload|), at + |rs[0].payload|)
  {
    FirstPlaces(rs, counts, at);
    SameRest(Places(rs, counts, at), Places(rs[1..], counts[1..], at + |rs[0].payload|), at, counts[0]);
  }

  lemma FirstPlaces(rs: seq<Request>, counts: seq<nat>, at: nat)
    requires |rs| == |counts| > 0
    ensures
      var c, p, rest := counts[0], Places(rs, counts, at), Places(rs[1..], counts[1..], at + |rs[0].payload|);
      && |p| == c + |rest| && (forall k :: 0 <= k < c ==> p[k] == at + k)
      && forall k :: 0 <= k < |rest| ==> p[c + k] == rest[k]
  {}

  /** Behind a chunk sent in part the places go on only if nothing more was sent. */
  lemma NothingAfter(rs: seq<Request>, counts: seq<nat>, at: nat)
    requires CountsOk(rs, counts) && rs != [] && counts[0] < |rs[0].payload|
    ensures Consecutive(Places(rs, counts, at), at) <==> LaterZero(counts)
  {
    var rest := Places(rs[1..], counts[1..], at + |rs[0].payload|);
    FirstPlaces(rs, counts, at);
    RestEmpty(rs, counts, at);
    JumpBreaks(Places(rs, counts, at), rest, at, counts[0]);
  }

  lemma RestEmpty(rs: seq<Request>, counts: seq<nat>, at: nat)
    requires CountsOk(rs, counts) && rs != []
    ensures
      var rest := Places(rs[1..], counts[1..], at + |rs[0].payload|);
      && (rest == [] <==> LaterZero(counts))
      && forall k :: 0 <= k < |rest| ==> at + |rs[0].payload| <= rest[k]
  {
    PlacesSize(rs[1..], counts[1..], at + |rs[0].payload|);
    ZeroSum(counts[1..]);
    TailZero(counts);
  }

  lemma JumpBreaks(p: seq<nat>, rest: seq<nat>, at: nat, c: nat)
    requires |p| == c + |rest| && (forall k :: 0 <= k < c ==> p[k] == at + k)
    requires forall k :: 0 <= k < |rest| ==> p[c + k] == rest[k] && rest[k] > at + c
    ensures Consecutive(p, at) <==> rest == []
  {
    if rest != [] {
      assert p[c + 0] == rest[0];
    }
  }

  lemma TailZero(counts: seq<nat>)
    requires counts != []
    ensures LaterZero(counts) <==> (forall k :: 0 <= k < |counts[1..]| ==> counts[1..][k] == 0)
  {
    assert forall j :: 1 <= j < |counts| ==> counts[j] == counts[1..][j - 1];
  }

  lemma SameRest(p: seq<nat>, rest: seq<nat>, at: nat, c: nat)
    requires |p| == c + |rest| && (forall k :: 0 <= k < c ==> p[k] == at + k)
    requires forall k :: 0 <= k < |rest| ==> p[c + k] == rest[k]
    ensures Consecutive(p, at) <==> Consecutive(rest, at + c)
  {
    if Consecutive(rest, at + c) {
      forall k | 0 <= k < |p| ensures p[k] == at + k {
        if k >= c {
          assert p[c + (k - c)] == rest[k - c];
        }
      }
    }
  }

  lemma NoGapStep(rs: seq<Request>, counts: seq<nat>)
    requires |rs| == |counts| > 0
    ensures NoGap(rs, counts) <==>
      if counts[0] < |rs[0].payload| then LaterZero(counts) else NoGap(rs[1..], counts[1..])
  {
    if NoGap(rs, counts) {
      forall i, j | 0 <= i < j < |rs[1..]| && counts[1..][i] < |rs[1..][i].payload| ensures counts[1..][j] == 0 {
        assert counts[i + 1] < |rs[i + 1].payload|;
      }
    }
    if counts[0] >= |rs[0].payload| && NoGap(rs[1..], counts[1..]) {
      forall i, j | 0 <= i < j < |rs| && counts[i] < |rs[i].payload| ensures counts[j] == 0 {
        assert counts[1..][i - 1] < |rs[1..][i - 1].payload|;
      }
    }
  }

  lemma {:induction false} ZeroSum(counts: seq<nat>)
    ensures Sum(counts) == 0 <==> forall k :: 0 <= k < |counts| ==> counts[k] == 0
  {
    if counts != [] {
      ZeroSum(counts[..|counts| - 1]);
    }
  }

  // ----- End to end

  /** What the shim returns: the count of the last response it waited for, when positive. */
  function Returned(count: nat): int {
    if count > 0 then count else -1
  }

  /** The last response carries the number of bytes sent, in 16 bits. */
  lemma TotalSent(t: Tally, buf: seq<Byte>, limit: nat, rs: seq<Request>, counts: seq<nat>, events: seq<Event>)
    requires !t.batch && |buf| > 0 && WrittenBy(rs, buf, limit, |buf|)
    requires CountsOk(rs, counts) && Schedule(events, |rs|, 0, 0)
    ensures
      var (t', c) := Drive(t, rs, counts, events, 0, 0, 0);
      !t'.batch && c == |Delivered(rs, counts)| % COUNT_LIMIT
  {
    WrittenFini(rs, buf, limit, |buf|);
    BatchTotal(t, rs, counts, events);
    PlacesSize(rs, counts, 0);
  }

  /**
    From the buffer to the result, for every chunk size, all counts of the network stack and
    every interleaving, when the driver is between batches: the result is the number of bytes
    put on the local socket, in 16 bits. These are an initial part of the buffer if and only if
    nothing was sent after a chunk that was sent in part.
   */
  lemma EndToEnd(t: Tally, buf: seq<Byte>, limit: nat, rs: seq<Request>, counts: seq<nat>, events: seq<Event>)
    requires !t.batch && |buf| > 0 && WrittenBy(rs, buf, limit, |buf|)
    requires CountsOk(rs, counts) && Schedule(events, |rs|, 0, 0)
    ensures
      var (t', c), out, places := Drive(t, rs, counts, events, 0, 0, 0), Delivered(rs, counts), Places(rs, counts, 0);
      && !t'.batch && c == |out| % 65536
      && |places| == |out| && (forall k :: 0 <= k < |out| ==> places[k] < |buf| && out[k] == buf[places[k]])
      && Increasing(places) && (Consecutive(places, 0) <==> NoGap(rs, counts))
      && (NoGap(rs, counts) ==> |out| <= |buf| && out == buf[..|out|])
  {
    WrittenAll(rs, buf, limit);
    TotalSent(t, buf, limit, rs, counts, events);
    PlacesSize(rs, counts, 0);
    DeliveredBytes(buf, limit, 0, rs, counts);
    PlacesIncrease(rs, counts, 0);
    GapFree(rs, counts, 0);
    if NoGap(rs, counts) {
      var out, places := Delivered(rs, counts), Places(rs, counts, 0);
      assert Consecutive(places, 0);
      ConsecutiveFits(places, |buf|);
      assert forall k :: 0 <= k < |out| ==> out[k] == buf[..|out|][k];
    }
  }

  /** Two chunks, each cut short by a failing call: the bytes sent are not an initial part. */
  lemma GapWitness()
    ensures Sending(2, [Sent(1), Failed(5)]) == (1, -5)
    ensures Delivered(Chunks([1, 2, 3, 4], 2, 0), [1, 1]) == [1, 3]
  {
    assert [Sent(1), Failed(5)][1..] == [Failed(5)];
    var buf := [1, 2, 3, 4];
    var rs := Chunks(buf, 2, 0);
    ChunksCorrect(buf, 2, 0);
    assert Chunks(buf, 2, 2)[0].payload == [3, 4] && Chunks(buf, 2, 4) == [];
    assert rs == [rs[0]] + Chunks(buf, 2, 2) && |rs| == 2 && rs[0].payload == [1, 2] && rs[1].payload == [3, 4];
    assert Delivered(rs[1..], [1, 1][1..]) == [3, 4][..1] + Delivered(rs[1..][1..], [1, 1][1..][1..]);
  }

  function Sizes(rs: seq<Request>): seq<nat> {
    seq(|rs|, k requires 0 <= k < |rs| => |rs[k].payload|)
  }

  /**
    When every chunk is sent in full and the driver is between batches, `send()` returns the
    length of the buffer if and only if that is positive and fits the 16-bit count.
   */
  lemma FullLength(t: Tally, buf: seq<Byte>, limit: nat, rs: seq<Request>, events: seq<Event>)
    requires !t.batch && WrittenBy(rs, buf, limit, |buf|) && Schedule(events, |rs|, 0, 0)
    ensures CountsOk(rs, Sizes(rs)) && Delivered(rs, Sizes(rs)) == buf
    ensures Returned(Drive(t, rs, Sizes(rs), events, 0, 0, 0).1) == |buf| <==> 0 < |buf| < 65536
  {
    var counts := Sizes(rs);
    WrittenAll(rs, buf, limit);
    AllDelivered(rs);
    SamePayloads(rs, Chunks(buf, limit, 0));
    ChunksCorrect(buf, limit, 0);
    assert buf[0..] == buf;
    if |buf| > 0 {
      TotalSent(t, buf, limit, rs, counts, events);
    }
  }

  lemma {:induction false} AllDelivered(rs: seq<Request>)
    ensures CountsOk(rs, Sizes(rs)) && Delivered(rs, Sizes(rs)) == Payloads(rs)
  {
    if rs != [] {
      assert Sizes(rs)[1..] == Sizes(rs[1..]);
      AllDelivered(rs[1..]);
    }
  }

  lemma {:induction false} DeliveredAppend(rs: seq<Request>, counts: seq<nat>, r: Request, c: nat)
    requires CountsOk(rs, counts) && c <= |r.payload|
    ensures CountsOk(rs + [r], counts + [c])
    ensures Delivered(rs + [r], counts + [c]) == Delivered(rs, counts) + r.payload[..c]
  {
    if rs == [] {
      assert rs + [r] == [r] && counts + [c] == [c];
    } else {
      DeliveredAppend(rs[1..], counts[1..], r, c);
      assert (rs + [r])[1..] == rs[1..] + [r] && (counts + [c])[1..] == counts[1..] + [c];
    }
  }

  /** The count the shim finds in the last response it has read, zero when it read none. */
  function LastRead(rs: seq<Request>, counts: seq<nat>, total: nat): nat
    requires |rs| == |counts|
  {
    if rs == [] || !rs[|rs| - 1].waits then 0
    else if rs[|rs| - 1].fini then total
    else counts[|counts| - 1]
  }

  /** The tally between two requests of a batch of which `counts` are answered. */
  ghost predicate Between(was: Tally, t: Tally, counts: seq<nat>) {
    if counts == [] then t == was else t == Tally(true, Stale(was) + Sum(counts))
  }

  /** A request that is not the last of its batch: sent, answered, added to the tally. */
  method Serve(sock: SocketInstance, r: Request, outcomes: seq<Outcome>)
      returns (count: nat, status: int, total: nat, out: seq<Byte>)
    requires |r.payload| < COUNT_LIMIT && Settles(|r.payload|, outcomes)
    modifies sock
    ensures count <= |r.payload| && out == r.payload[..count]
    ensures Possible(|r.payload|, outcomes) && (count, status) == Sending(|r.payload|, outcomes)
    ensures (sock.View(), total) == Answered(Starts(old(sock.View())), r.fini, count)
  {
    SettlesPossible(|r.payload|, outcomes);
    sock.PreProcess();
    var reply, finished;
    reply, out, finished := SendSocket(r.payload, outcomes);
    count, status := reply.count, reply.status;
    total := sock.PostProcess(r.fini, count);
  }

  /** Once the shim waits for a response it waits for all that follow. */
  ghost predicate WaitsOn(rs: seq<Request>) {
    forall k :: 1 <= k < |rs| && rs[k - 1].waits ==> rs[k].waits
  }

  /** The tally after one more request, and the total of the last one. */
  lemma OneAnswered(was: Tally, t: Tally, t': Tally, counts: seq<nat>, fini: bool, count: nat, total: nat)
    requires Between(was, t, counts) && (t', total) == Answered(Starts(t), fini, count)
    ensures if fini then !t'.batch else Between(was, t', counts + [count]) && total == count
    ensures fini ==> total == (Stale(was) + Sum(counts + [count])) % COUNT_LIMIT
  {
    assert (counts + [count])[..|counts|] == counts;
    assert Starts(t).sum == Stale(was) + Sum(counts);
  }

  lemma OneRead(rs: seq<Request>, counts: seq<nat>, r: Request, count: nat, low: nat, total: nat)
    requires |rs| == |counts| && (r.waits || rs == [] || !rs[|rs| - 1].waits) && (!r.fini ==> total == count)
    ensures LastRead(rs + [r], counts + [count], total) == if r.waits then total else LastRead(rs, counts, low)
  {}

  /** Some requests of a batch answered: the tally, the bytes sent, the last response read. */
  ghost predicate Progress(was: Tally, t: Tally, rs: seq<Request>, counts: seq<nat>, out: seq<Byte>, response: nat,
                           low: nat) {
    && CountsOk(rs, counts) && out == Delivered(rs, counts) && response == LastRead(rs, counts, low)
    && if rs != [] && rs[|rs| - 1].fini then !t.batch && low == (Stale(was) + Sum(counts)) % COUNT_LIMIT
       else Between(was, t, counts)
  }

  lemma Progresses(was: Tally, t: Tally, t': Tally, rs: seq<Request>, counts: seq<nat>, out: seq<Byte>, response: nat,
                   low: nat, r: Request, count: nat, total: nat)
    requires Progress(was, t, rs, counts, out, response, low) && (rs != [] ==> !rs[|rs| - 1].fini)
    requires count <= |r.payload| && (t', total) == Answered(Starts(t), r.fini, count)
    requires r.waits || rs == [] || !rs[|rs| - 1].waits
    ensures Progress(was, t', rs + [r], counts + [count], out + r.payload[..count],
                     if r.waits then total else response, total)
  {
    DeliveredAppend(rs, counts, r, count);
    OneAnswered(was, t, t', counts, r.fini, count, total);
    OneRead(rs, counts, r, count, low, total);
  }

  /** The requests of a batch, each answered before the next is written. */
  method Answer(sock: SocketInstance, rs: seq<Request>, outcomes: seq<seq<Outcome>>)
      returns (response: nat, out: seq<Byte>, counts: seq<nat>)
    requires OneBatch(rs) && WaitsOn(rs) && |outcomes| >= |rs|
    requires forall k :: 0 <= k < |rs| ==> |rs[k].payload| < COUNT_LIMIT && Settles(|rs[k].payload|, outcomes[k])
    modifies sock
    ensures CountsOk(rs, counts) && out == Delivered(rs, counts)
    ensures response == LastRead(rs, counts, (Stale(old(sock.View())) + Sum(counts)) % COUNT_LIMIT)
    ensures if rs != [] && rs[|rs| - 1].fini then !sock.batch else Between(old(sock.View()), sock.View(), counts)
  {
    counts, out, response := [], [], 0;
    ghost var was, low := sock.View(), 0;
    for k := 0 to |rs|
      invariant Progress(was, sock.View(), rs[..k], counts, out, response, low)
    {
      ghost var t := sock.View();
      assert rs[..k + 1] == rs[..k] + [rs[k]];
      var count, status, total, o := Serve(sock, rs[k], outcomes[k]);
      Progresses(was, t, sock.View(), rs[..k], counts, out, response, low, rs[k], count, total);
      if rs[k].waits {
        response := total;
      }
      low := total;
      counts, out := counts + [count], out + o;
    }
    assert rs[..|rs|] == rs;
  }

  // ----- Shim, driver and stack together

  /** What the device does for one attempt: the write fails, reading the response fails, or all
      goes well. */
  datatype Channel = WriteFails | ReadFails | Works

  function At(channel: seq<Channel>, k: nat): Channel {
    if k < |channel| then channel[k] else Works
  }

  /** The chunk that attempt `k` is at: one attempt may have been forgiven before. */
  function ChunkOf(tries: seq<Attempt>, k: nat): nat {
    if FirstMissing(tries, 0) < k then k - 1 else k
  }

  /** The attempts are what the device, the waiting and the responses made of them. */
  ghost predicate Explained(tries: seq<Attempt>, channel: seq<Channel>, rs: seq<Request>, statuses: seq<int>)
    requires |statuses| == |rs|
  {
    forall k {:trigger tries[k]} :: 0 <= k < |tries| ==>
      && (tries[k].NotWritten? <==> At(channel, k).WriteFails?)
      && (!tries[k].NotWritten? ==>
            var i := ChunkOf(tries, k);
            && i < |rs|
            && (tries[k].Refused? <==> rs[i].waits && (At(channel, k).ReadFails? || statuses[i] < 0)))
  }

  /** Every request was sent by the stack as its outcomes say. */
  ghost predicate SentAs(rs: seq<Request>, counts: seq<nat>, statuses: seq<int>, outcomes: seq<seq<Outcome>>) {
    && |counts| == |rs| == |statuses| && |rs| <= |outcomes|
    && forall i :: 0 <= i < |rs| ==>
         Possible(|rs[i].payload|, outcomes[i]) && (counts[i], statuses[i]) == Sending(|rs[i].payload|, outcomes[i])
  }

  /** `mwcomms_write_request`, with the driver and the stack behind the device. */
  method WriteRequest(sock: SocketInstance, r: Request, device: Channel, outcomes: seq<Outcome>)
      returns (a: Attempt, count: nat, status: int, total: nat, out: seq<Byte>)
    requires |r.payload| < COUNT_LIMIT && Settles(|r.payload|, outcomes)
    modifies sock
    ensures a.NotWritten? <==> device.WriteFails?
    ensures a.NotWritten? ==> sock.View() == old(sock.View()) && count == 0
    ensures a.Refused? <==> !a.NotWritten? && r.waits && (device.ReadFails? || status < 0)
    ensures !a.NotWritten? ==>
      && Possible(|r.payload|, outcomes) && (count, status) == Sending(|r.payload|, outcomes)
      && out == r.payload[..count] && (sock.View(), total) == Answered(Starts(old(sock.View())), r.fini, count)
  {
    a, count, status, total, out := NotWritten, 0, 0, 0, [];
    if !device.WriteFails? {
      count, status, total, out := Serve(sock, r, outcomes);
      a := if r.waits && (device.ReadFails? || status < 0) then Refused else Written;
    }
  }

  lemma {:induction false} MissingMore(tries: seq<Attempt>, a: Attempt, from: nat)
    requires from <= |tries|
    ensures
      var f, f' := FirstMissing(tries, from), FirstMissing(tries + [a], from);
      if f < |tries| then f' == f else f' >= |tries| == f
    decreases |tries| - from
  {
    if from < |tries| && !tries[from].NotWritten? {
      MissingMore(tries, a, from + 1);
    }
  }

  /** One more attempt changes nothing about the earlier ones. */
  lemma WritingMore(buf: seq<Byte>, limit: nat, tries: seq<Attempt>, a: Attempt, written: seq<Request>, tot: nat,
                    final: bool)
    requires Writing(buf, limit, tries, written, tot, |tries|, final)
    ensures Writing(buf, limit, tries + [a], written, tot, |tries|, final)
  {
    MissingMore(tries, a, 0);
  }

  lemma ExplainedMore(tries: seq<Attempt>, channel: seq<Channel>, rs: seq<Request>, statuses: seq<int>, n: nat,
                      final: bool, a: Attempt, r: Request, status: int)
    requires |statuses| == |rs| && Explained(tries, channel, rs, statuses) && Attempting(tries, n, |rs|, |tries|, final)
    requires a.NotWritten? <==> At(channel, |tries|).WriteFails?
    requires a.Refused? <==> !a.NotWritten? && r.waits && (At(channel, |tries|).ReadFails? || status < 0)
    ensures
      if a.NotWritten? then Explained(tries + [a], channel, rs, statuses)
      else Explained(tries + [a], channel, rs + [r], statuses + [status])
  {
    MissingMore(tries, a, 0);
    var tries' := tries + [a];
    var rs' := if a.NotWritten? then rs else rs + [r];
    var statuses' := if a.NotWritten? then statuses else statuses + [status];
    forall k | 0 <= k < |tries'|
      ensures tries'[k].NotWritten? <==> At(channel, k).WriteFails?
      ensures !tries'[k].NotWritten? ==>
        var i := ChunkOf(tries', k);
        i < |rs'| && (tries'[k].Refused? <==> rs'[i].waits && (At(channel, k).ReadFails? || statuses'[i] < 0))
    {
      if k < |tries| {
        assert tries'[k] == tries[k] && ChunkOf(tries', k) == ChunkOf(tries, k);
      } else {
        assert ChunkOf(tries', k) == |rs|;
      }
    }
  }

  /** The count in the last response read; a response that could not be read changes nothing. */
  function LastCount(rs: seq<Request>, counts: seq<nat>, total: nat, lost: bool): nat
    requires |rs| == |counts| && (lost ==> rs != [])
  {
    if lost then LastRead(rs[..|rs| - 1], counts[..|rs| - 1], 0) else LastRead(rs, counts, total)
  }

  /** All there is to know of a `send()`. */
  datatype Sends = Sends(
    tries: seq<Attempt>,
    rs: seq<Request>,
    tot: nat,
    refused: bool,
    counts: seq<nat>,
    statuses: seq<int>,
    out: seq<Byte>)

  /** One attempt was made for each request written, and one more when a write failed. */
  predicate EnoughTries(tries: seq<Attempt>, w: nat) {
    w <= |tries| && (FirstMissing(tries, 0) < |tries| ==> w < |tries|)
  }

  lemma TriesMore(tries: seq<Attempt>, w: nat, a: Attempt)
    requires EnoughTries(tries, w)
    ensures EnoughTries(tries + [a], if a.NotWritten? then w else w + 1)
  {
    MissingMore(tries, a, 0);
  }

  /** Attempts, counts, statuses and bytes belong together. */
  ghost predicate Recorded(channel: seq<Channel>, outcomes: seq<seq<Outcome>>, x: Sends) {
    && SentAs(x.rs, x.counts, x.statuses, outcomes) && Explained(x.tries, channel, x.rs, x.statuses)
    && CountsOk(x.rs, x.counts) && x.out == Delivered(x.rs, x.counts)
    && EnoughTries(x.tries, |x.rs|)
  }

  /** The loop of `send()` between two attempts, with all requests answered. */
  ghost predicate Transferring(buf: seq<Byte>, limit: nat, channel: seq<Channel>, outcomes: seq<seq<Outcome>>,
                               was: Tally, t: Tally, x: Sends, response: nat, low: nat, final: bool) {
    match x
    case Sends(tries, rs, tot, _, counts, _, out) =>
      && Writing(buf, limit, tries, rs, tot, |tries|, final) && Recorded(channel, outcomes, x)
      && Progress(was, t, rs, counts, out, response, low)
  }

  /** The count of the last response read, and the tally left behind, of `n` chunks. */
  ghost predicate Leaves(n: nat, channel: seq<Channel>, was: Tally, t: Tally, x: Sends, response: nat)
    requires |x.rs| == |x.counts|
  {
    && (x.refused ==> x.rs != [])
    && (var lost := x.refused && x.tries != [] && At(channel, |x.tries| - 1).ReadFails?;
        response == LastCount(x.rs, x.counts, (Stale(was) + |x.out|) % COUNT_LIMIT, lost))
    && (if x.rs == [] then t == was
        else if |x.rs| == n then !t.batch
        else t == Tally(true, Stale(was) + |x.out|))
  }

  /** ... and at its end. */
  ghost predicate Transferred(buf: seq<Byte>, limit: nat, channel: seq<Channel>, outcomes: seq<seq<Outcome>>,
                              was: Tally, t: Tally, x: Sends, response: nat) {
    match x
    case Sends(tries, rs, tot, refused, _, _, _) =>
      && Ended(buf, limit, tries, rs, tot, refused) && Recorded(channel, outcomes, x)
      && Leaves(|Chunks(buf, limit, 0)|, channel, was, t, x, response)
  }

  /** Behind the requests written so far the loop goes on waiting once it waits. */
  lemma NextWaits(buf: seq<Byte>, limit: nat, tries: seq<Attempt>, rs: seq<Request>, tot: nat, final: bool)
    requires Writing(buf, limit, tries, rs, tot, |tries|, final) && tot < |buf|
    ensures rs != [] ==> !rs[|rs| - 1].fini && (rs[|rs| - 1].waits ==> final)
    ensures |rs| < |Chunks(buf, limit, 0)|
  {
    WrittenFini(rs, buf, limit, tot);
    ChunkPlace(buf, limit, rs, tot, ChunkSize(|buf|, limit, tot));
  }

  /** The tally at the end, from the tally between two requests. */
  lemma TallyLeft(was: Tally, t: Tally, rs: seq<Request>, counts: seq<nat>, out: seq<Byte>, response: nat, low: nat,
                  n: nat)
    requires Progress(was, t, rs, counts, out, response, low)
    requires rs != [] ==> (rs[|rs| - 1].fini <==> |rs| == n)
    ensures |out| == Sum(counts)
    ensures
      if rs == [] then t == was
      else if |rs| == n then !t.batch
      else t == Tally(true, Stale(was) + |out|)
  {
    PlacesSize(rs, counts, 0);
  }

  /** The next request to write. */
  predicate IsNext(buf: seq<Byte>, limit: nat, tot: nat, final: bool, n: nat, r: Request) {
    && 1 <= limit && tot < |buf| && n == ChunkSize(|buf|, limit, tot) && tot + n <= |buf|
    && r == Request(tot == 0, tot + n == |buf|, final || tot + n == |buf|, buf[tot..tot + n])
  }

  /** What attempt `a` makes of it. */
  function After(x: Sends, a: Attempt, n: nat, r: Request, count: nat, status: int): Sends
    requires count <= |r.payload|
  {
    match a
    case NotWritten => x.(tries := x.tries + [NotWritten], refused := false)
    case Refused => Added(x, a, r, count, status).(refused := true)
    case Written => Added(x, a, r, count, status).(tot := x.tot + n)
  }

  /** The count in the last response read after it. */
  function NewResponse(a: Attempt, r: Request, device: Channel, response: nat, total: nat): nat {
    if !a.NotWritten? && r.waits && !device.ReadFails? then total else response
  }

  /** After one turn: at the end, or between two attempts. */
  ghost predicate TurnDone(buf: seq<Byte>, limit: nat, channel: seq<Channel>, outcomes: seq<seq<Outcome>>, was: Tally,
                           t: Tally, a: Attempt, r: Request, y: Sends, count: nat, low: nat) {
    match a
    case NotWritten =>
      if r.waits then Transferred(buf, limit, channel, outcomes, was, t, y, count)
      else Transferring(buf, limit, channel, outcomes, was, t, y, count, low, true)
    case Refused => Transferred(buf, limit, channel, outcomes, was, t, y, count)
    case Written => Transferring(buf, limit, channel, outcomes, was, t, y, count, low, r.waits)
  }

  lemma NotWrittenStep(buf: seq<Byte>, limit: nat, channel: seq<Channel>, outcomes: seq<seq<Outcome>>, was: Tally,
                       t: Tally, x: Sends, response: nat, low: nat, final: bool, n: nat, r: Request,
                       count: nat, status: int, total: nat)
    requires Transferring(buf, limit, channel, outcomes, was, t, x, response, low, final)
    requires IsNext(buf, limit, x.tot, final, n, r) && At(channel, |x.tries|).WriteFails? && count <= |r.payload|
    ensures
      TurnDone(buf, limit, channel, outcomes, was, t, NotWritten, r, After(x, NotWritten, n, r, count, status),
               NewResponse(NotWritten, r, At(channel, |x.tries|), response, total), low)
  {
    var x' := After(x, NotWritten, n, r, count, status);
    assert x' == x.(tries := x.tries + [NotWritten], refused := false);
    assert Recorded(channel, outcomes, x') by {
      ExplainedMore(x.tries, channel, x.rs, x.statuses, |Chunks(buf, limit, 0)|, final, NotWritten, r, 0);
      TriesMore(x.tries, |x.rs|, NotWritten);
    }
    assert Leaves(|Chunks(buf, limit, 0)|, channel, was, t, x', response) by {
      NextWaits(buf, limit, x.tries, x.rs, x.tot, final);
      HoldsLeaves(|Chunks(buf, limit, 0)|, channel, was, t, x', response, low);
    }
    LoopHolds(buf, limit, x.tries, x.rs, x.tot, final, n, r);
  }

  /** The shim's side of it. */
  lemma LoopHolds(buf: seq<Byte>, limit: nat, tries: seq<Attempt>, rs: seq<Request>, tot: nat, final: bool,
                  n: nat, r: Request)
    requires Writing(buf, limit, tries, rs, tot, |tries|, final) && IsNext(buf, limit, tot, final, n, r)
    ensures
      if r.waits then Ended(buf, limit, tries + [NotWritten], rs, tot, false)
      else Writing(buf, limit, tries + [NotWritten], rs, tot, |tries + [NotWritten]|, true)
  {
    WritingMore(buf, limit, tries, NotWritten, rs, tot, final);
    ChunkTried(buf, limit, tries + [NotWritten], rs, tot, |tries|, final, n, r);
  }

  lemma HoldsLeaves(n: nat, channel: seq<Channel>, was: Tally, t: Tally, x: Sends, response: nat, low: nat)
    requires Progress(was, t, x.rs, x.counts, x.out, response, low) && !x.refused
    requires |x.rs| < n && (x.rs != [] ==> !x.rs[|x.rs| - 1].fini)
    ensures Leaves(n, channel, was, t, x, response)
  {
    TallyLeft(was, t, x.rs, x.counts, x.out, response, low, n);
    NoTotal(x.rs, x.counts, low, (Stale(was) + |x.out|) % COUNT_LIMIT);
  }

  /** Without FINI the total does not matter. */
  lemma NoTotal(rs: seq<Request>, counts: seq<nat>, low: nat, total: nat)
    requires |rs| == |counts| && (rs != [] ==> !rs[|rs| - 1].fini)
    ensures LastRead(rs, counts, low) == LastRead(rs, counts, total)
  {}

  /** What a written request adds. */
  function Added(x: Sends, a: Attempt, r: Request, count: nat, status: int): Sends
    requires count <= |r.payload|
  {
    x.(tries := x.tries + [a], rs := x.rs + [r], counts := x.counts + [count], statuses := x.statuses + [status],
       out := x.out + r.payload[..count])
  }

  lemma SentMore(rs: seq<Request>, counts: seq<nat>, statuses: seq<int>, outcomes: seq<seq<Outcome>>, r: Request,
                 count: nat, status: int)
    requires SentAs(rs, counts, statuses, outcomes) && |rs| < |outcomes| && Possible(|r.payload|, outcomes[|rs|])
    requires (count, status) == Sending(|r.payload|, outcomes[|rs|])
    ensures SentAs(rs + [r], counts + [count], statuses + [status], outcomes)
  {}

  /** A request was written as attempt `a`, and answered with `count` and `status`. */
  ghost predicate Answers(channel: seq<Channel>, outcomes: seq<seq<Outcome>>, x: Sends,
                          r: Request, a: Attempt, count: nat, status: int) {
    && !At(channel, |x.tries|).WriteFails? && !a.NotWritten?
    && (a.Refused? <==> r.waits && (At(channel, |x.tries|).ReadFails? || status < 0))
    && |x.rs| < |outcomes| && Possible(|r.payload|, outcomes[|x.rs|])
    && (count, status) == Sending(|r.payload|, outcomes[|x.rs|]) && count <= |r.payload|
  }

  /** What the request adds, but for what the shim makes of it. */
  lemma RequestAdds(buf: seq<Byte>, limit: nat, channel: seq<Channel>, outcomes: seq<seq<Outcome>>, was: Tally,
                    t: Tally, t': Tally, x: Sends, response: nat, low: nat, final: bool, n: nat, r: Request,
                    a: Attempt, count: nat, status: int, total: nat)
    requires Transferring(buf, limit, channel, outcomes, was, t, x, response, low, final)
    requires IsNext(buf, limit, x.tot, final, n, r) && Answers(channel, outcomes, x, r, a, count, status)
    requires (t', total) == Answered(Starts(t), r.fini, count)
    ensures
      var y := Added(x, a, r, count, status);
      && Recorded(channel, outcomes, y)
      && Progress(was, t', y.rs, y.counts, y.out, if r.waits then total else response, total)
  {
    NextWaits(buf, limit, x.tries, x.rs, x.tot, final);
    ExplainedMore(x.tries, channel, x.rs, x.statuses, |Chunks(buf, limit, 0)|, final, a, r, status);
    TriesMore(x.tries, |x.rs|, a);
    SentMore(x.rs, x.counts, x.statuses, outcomes, r, count, status);
    Progresses(was, t, t', x.rs, x.counts, x.out, response, low, r, count, total);
  }

  lemma WrittenGoes(buf: seq<Byte>, limit: nat, channel: seq<Channel>, outcomes: seq<seq<Outcome>>, was: Tally,
                    t: Tally, t': Tally, x: Sends, response: nat, low: nat, final: bool, n: nat, r: Request,
                    count: nat, status: int, total: nat)
    requires Transferring(buf, limit, channel, outcomes, was, t, x, response, low, final)
    requires IsNext(buf, limit, x.tot, final, n, r) && Answers(channel, outcomes, x, r, Written, count, status)
    requires (t', total) == Answered(Starts(t), r.fini, count)
    ensures
      TurnDone(buf, limit, channel, outcomes, was, t', Written, r, After(x, Written, n, r, count, status),
               NewResponse(Written, r, At(channel, |x.tries|), response, total), total)
  {
    LoopGoes(buf, limit, x.tries, Written, x.rs, x.tot, final, n, r);
    RequestAdds(buf, limit, channel, outcomes, was, t, t', x, response, low, final, n, r, Written,
                count, status, total);
  }

  lemma WrittenEnds(buf: seq<Byte>, limit: nat, channel: seq<Channel>, outcomes: seq<seq<Outcome>>, was: Tally,
                    t: Tally, t': Tally, x: Sends, response: nat, low: nat, final: bool, n: nat, r: Request,
                    count: nat, status: int, total: nat)
    requires Transferring(buf, limit, channel, outcomes, was, t, x, response, low, final)
    requires IsNext(buf, limit, x.tot, final, n, r) && Answers(channel, outcomes, x, r, Refused, count, status)
    requires (t', total) == Answered(Starts(t), r.fini, count)
    ensures
      TurnDone(buf, limit, channel, outcomes, was, t', Refused, r, After(x, Refused, n, r, count, status),
               NewResponse(Refused, r, At(channel, |x.tries|), response, total), total)
  {
    LoopGoes(buf, limit, x.tries, Refused, x.rs, x.tot, final, n, r);
    RequestAdds(buf, limit, channel, outcomes, was, t, t', x, response, low, final, n, r, Refused,
                count, status, total);
    NextWaits(buf, limit, x.tries, x.rs, x.tot, final);
    ChunkPlace(buf, limit, x.rs, x.tot, n);
    RefusedLeaves(|Chunks(buf, limit, 0)|, channel, was, t', x, response, low, r, count, status, total);
  }

  /** The shim's side of it. */
  lemma LoopGoes(buf: seq<Byte>, limit: nat, tries: seq<Attempt>, a: Attempt, rs: seq<Request>, tot: nat, final: bool,
                 n: nat, r: Request)
    requires Writing(buf, limit, tries, rs, tot, |tries|, final) && IsNext(buf, limit, tot, final, n, r)
    requires !a.NotWritten? && (a.Refused? ==> r.waits)
    ensures
      if a.Refused? then Ended(buf, limit, tries + [a], rs + [r], tot, true)
      else Writing(buf, limit, tries + [a], rs + [r], tot + n, |tries + [a]|, r.waits)
  {
    WritingMore(buf, limit, tries, a, rs, tot, final);
    ChunkTried(buf, limit, tries + [a], rs, tot, |tries|, final, n, r);
  }

  /** The response read last when a response is an error, or cannot be read. */
  lemma RefusedLeaves(n: nat, channel: seq<Channel>, was: Tally, t': Tally, x: Sends, response: nat, low: nat,
                      r: Request, count: nat, status: int, total: nat)
    requires count <= |r.payload| && |x.rs| == |x.counts| && response == LastRead(x.rs, x.counts, low)
    requires (x.rs != [] ==> !x.rs[|x.rs| - 1].fini) && (r.fini <==> |x.rs| + 1 == n) && r.waits
    requires
      var y := Added(x, Refused, r, count, status);
      Progress(was, t', y.rs, y.counts, y.out, total, total)
    ensures
      var y := Added(x, Refused, r, count, status).(refused := true);
      Leaves(n, channel, was, t', y, if At(channel, |x.tries|).ReadFails? then response else total)
  {
    var y := Added(x, Refused, r, count, status).(refused := true);
    TallyLeft(was, t', y.rs, y.counts, y.out, total, total, n);
    NoTotal(x.rs, x.counts, low, 0);
    assert y.rs[..|y.rs| - 1] == x.rs && y.counts[..|y.counts| - 1] == x.counts;
  }

  lemma AllTransferred(buf: seq<Byte>, limit: nat, channel: seq<Channel>, outcomes: seq<seq<Outcome>>, was: Tally,
                       t: Tally, x: Sends, response: nat, low: nat, final: bool)
    requires Transferring(buf, limit, channel, outcomes, was, t, x, response, low, final) && x.tot == |buf|
    ensures Transferred(buf, limit, channel, outcomes, was, t, x.(refused := false), response)
  {
    AllTried(buf, limit, x.tries, x.rs, |x.tries|, final);
    WrittenFini(x.rs, buf, limit, |buf|);
    WrittenTo(x.rs, buf, limit, |buf|);
    AllLeaves(|Chunks(buf, limit, 0)|, channel, was, t, x.(refused := false), response, low);
  }

  lemma AllLeaves(n: nat, channel: seq<Channel>, was: Tally, t: Tally, x: Sends, response: nat, low: nat)
    requires Progress(was, t, x.rs, x.counts, x.out, response, low) && !x.refused
    requires |x.rs| == n && (x.rs != [] ==> x.rs[|x.rs| - 1].fini)
    ensures Leaves(n, channel, was, t, x, response)
  {
    TallyLeft(was, t, x.rs, x.counts, x.out, response, low, n);
  }

  lemma Turn(buf: seq<Byte>, limit: nat, channel: seq<Channel>, outcomes: seq<seq<Outcome>>, was: Tally, t: Tally,
             t': Tally, x: Sends, response: nat, low: nat, final: bool, n: nat, r: Request,
             a: Attempt, count: nat, status: int, total: nat)
    requires Transferring(buf, limit, channel, outcomes, was, t, x, response, low, final)
    requires IsNext(buf, limit, x.tot, final, n, r) && count <= |r.payload|
    requires
      if a.NotWritten? then t' == t && At(channel, |x.tries|).WriteFails?
      else Answers(channel, outcomes, x, r, a, count, status) && (t', total) == Answered(Starts(t), r.fini, count)
    ensures
      TurnDone(buf, limit, channel, outcomes, was, t', a, r, After(x, a, n, r, count, status),
               NewResponse(a, r, At(channel, |x.tries|), response, total), if a.NotWritten? then low else total)
    ensures After(x, a, n, r, count, status).tot == if a.Written? then x.tot + n else x.tot
    ensures a.Refused? ==> r.waits
  {
    match a
    case NotWritten =>
      NotWrittenStep(buf, limit, channel, outcomes, was, t, x, response, low, final, n, r, count, status, total);
    case Refused =>
      WrittenEnds(buf, limit, channel, outcomes, was, t, t', x, response, low, final, n, r, count, status, total);
    case Written =>
      WrittenGoes(buf, limit, channel, outcomes, was, t, t', x, response, low, final, n, r, count, status, total);
  }

  lemma TransferStarts(buf: seq<Byte>, limit: nat, channel: seq<Channel>, outcomes: seq<seq<Outcome>>, t: Tally)
    requires 1 <= limit
    ensures
      Transferring(buf, limit, channel, outcomes, t, t, Sends([], [], 0, false, [], [], []), 0, 0, false)
  {
    var all := Chunks(buf, limit, 0);
    assert all[0..] == all;
    ChunksCorrect(buf, limit, 0);
  }

  lemma NextChunk(buf: seq<Byte>, limit: nat, outcomes: seq<seq<Outcome>>, x: Sends, n: nat, r: Request)
    requires WrittenBy(x.rs, buf, limit, x.tot) && x.tot < |buf| && n == ChunkSize(|buf|, limit, x.tot) == |r.payload|
    requires |outcomes| >= |Chunks(buf, limit, 0)|
    requires forall k :: 0 <= k < |Chunks(buf, limit, 0)| ==> Settles(|Chunks(buf, limit, 0)[k].payload|, outcomes[k])
    ensures |x.rs| < |outcomes| && |r.payload| <= limit && Settles(|r.payload|, outcomes[|x.rs|])
  {
    ChunkPlace(buf, limit, x.rs, x.tot, n);
    var all := Chunks(buf, limit, 0);
    assert all[|x.rs|] == all[|x.rs|..][0] == Chunks(buf, limit, x.tot)[0];
  }

  /** One turn of the loop: the request is written and answered, or is not written. */
  method Round(sock: SocketInstance, buf: seq<Byte>, limit: nat, channel: seq<Channel>, outcomes: seq<seq<Outcome>>,
               ghost was: Tally, x: Sends, response: nat, ghost low: nat, ghost final: bool, n: nat, r: Request)
      returns (a: Attempt, y: Sends, response': nat, ghost low': nat)
    requires Transferring(buf, limit, channel, outcomes, was, sock.View(), x, response, low, final)
    requires IsNext(buf, limit, x.tot, final, n, r) && limit < COUNT_LIMIT && |outcomes| >= |Chunks(buf, limit, 0)|
    requires forall k :: 0 <= k < |Chunks(buf, limit, 0)| ==> Settles(|Chunks(buf, limit, 0)[k].payload|, outcomes[k])
    modifies sock
    ensures TurnDone(buf, limit, channel, outcomes, was, sock.View(), a, r, y, response', low')
    ensures y.tot == if a.Written? then x.tot + n else x.tot
    ensures a.Refused? ==> r.waits
  {
    var device := At(channel, |x.tries|);
    ghost var t := sock.View();
    NextChunk(buf, limit, outcomes, x, n, r);
    var count, status, total, out;
    a, count, status, total, out := WriteRequest(sock, r, device, outcomes[|x.rs|]);
    Turn(buf, limit, channel, outcomes, was, t, sock.View(), x, response, low, final, n, r, a, count, status, total);
    y, response' := After(x, a, n, r, count, status), NewResponse(a, r, device, response, total);
    low' := if a.NotWritten? then low else total;
  }

  /**
    `send()` with driver and stack behind it, each request answered before the next is written:
    what is returned, what was put on the local socket, and the tally left behind, for all that
    the device and the calls of the stack may do.
   */
  method Transfer(sock: SocketInstance, buf: seq<Byte>, limit: nat, channel: seq<Channel>, outcomes: seq<seq<Outcome>>)
      returns (rc: int, x: Sends, response: nat)
    requires 1 <= limit < COUNT_LIMIT && |outcomes| >= |Chunks(buf, limit, 0)|
    requires forall k :: 0 <= k < |Chunks(buf, limit, 0)| ==> Settles(|Chunks(buf, limit, 0)[k].payload|, outcomes[k])
    modifies sock
    ensures rc == Returned(response)
    ensures Transferred(buf, limit, channel, outcomes, old(sock.View()), sock.View(), x, response)
  {
    x, response := Sends([], [], 0, false, [], [], []), 0;
    var final, init, fini := false, true, false;
    ghost var was, low := sock.View(), 0;
    TransferStarts(buf, limit, channel, outcomes, was);
    while x.tot < |buf|
      invariant Transferring(buf, limit, channel, outcomes, was, sock.View(), x, response, low, final)
      invariant (init || x.tot > 0) && (fini ==> x.tot == |buf|)
      decreases |buf| - x.tot, if final then 0 else 1
    {
      var n := ChunkSize(|buf|, limit, x.tot);
      ghost var waiting := final;
      if x.tot > 0 {
        init := false;
      }
      if |buf| == x.tot + n {
        final, fini := true, true;
      }
      var r := Request(init, fini, final, buf[x.tot..x.tot + n]);
      var a;
      a, x, response, low := Round(sock, buf, limit, channel, outcomes, was, x, response, low, waiting, n, r);
      if !a.Written? && final {
        rc := Returned(response);
        return;
      }
      if a.NotWritten? {
        final := true;
      }
    }
    AllTransferred(buf, limit, channel, outcomes, was, sock.View(), x, response, low, final);
    x := x.(refused := false);
    rc := Returned(response);
  }

  // ----- What a `send()` will do

  /** The stack can answer all chunks. */
  ghost predicate Answerable(all: seq<Request>, outcomes: seq<seq<Outcome>>) {
    |all| <= |outcomes| && forall i :: 0 <= i < |all| ==> Possible(|all[i].payload|, outcomes[i])
  }

  /** The shim's reading of the response to chunk `i`, awaited in attempt `k`. */
  function Awaited(all: seq<Request>, channel: seq<Channel>, outcomes: seq<seq<Outcome>>, k: nat, i: nat): Attempt
    requires Answerable(all, outcomes) && i < |all|
  {
    if At(channel, k).ReadFails? || Sending(|all[i].payload|, outcomes[i]).1 < 0 then Refused else Written
  }

  /** What attempt `k` comes to when attempt `f` is the first whose write fails. */
  function Coming(all: seq<Request>, channel: seq<Channel>, outcomes: seq<seq<Outcome>>, f: nat, k: nat): Attempt
    requires Answerable(all, outcomes) && k <= |all|
  {
    if At(channel, k).WriteFails? then NotWritten
    else if f < k then Awaited(all, channel, outcomes, k, k - 1)
    else if k == |all| - 1 then Awaited(all, channel, outcomes, k, k)
    else Written
  }

  function FirstLost(channel: seq<Channel>, n: nat): nat {
    FirstMissing(seq(n + 1, k requires 0 <= k => if At(channel, k).WriteFails? then NotWritten else Written), 0)
  }

  /** The attempts a `send()` of these chunks can make, from the device and the outcomes alone. */
  function Told(all: seq<Request>, channel: seq<Channel>, outcomes: seq<seq<Outcome>>): seq<Attempt>
    requires Answerable(all, outcomes)
  {
    var f := FirstLost(channel, |all|);
    seq(|all| + 1, k requires 0 <= k <= |all| => Coming(all, channel, outcomes, f, k))
  }

  ghost predicate Agree(a: seq<Attempt>, b: seq<Attempt>) {
    forall k :: 0 <= k < |a| && k < |b| ==> a[k] == b[k]
  }

  /** The same writes fail in both, as far as both go. */
  ghost predicate MissingAlike(a: seq<Attempt>, b: seq<Attempt>) {
    forall k :: 0 <= k < |a| && k < |b| ==> (a[k].NotWritten? <==> b[k].NotWritten?)
  }

  lemma SameMissing(a: seq<Attempt>, b: seq<Attempt>)
    requires MissingAlike(a, b)
    ensures
      var f, g := FirstMissing(a, 0), FirstMissing(b, 0);
      f == g || (|a| <= f && |a| <= g) || (|b| <= f && |b| <= g)
  {
    var f, g := FirstMissing(a, 0), FirstMissing(b, 0);
    assert f < |a| && f < |b| ==> b[f].NotWritten?;
    assert g < |a| && g < |b| ==> a[g].NotWritten?;
  }

  /** Attempts that agree end a `send()` of `n` chunks alike, when the first of them suffice. */
  lemma SameFate(a: seq<Attempt>, b: seq<Attempt>, n: nat)
    requires Agree(a, b) && |b| == n + 1 && (WrittenCount(a, n) == n ==> EnoughTries(a, n))
    ensures WrittenCount(a, n) == WrittenCount(b, n) && WasRefused(a, n) == WasRefused(b, n)
  {
    SameMissing(a, b);
  }

  lemma ToldMissing(all: seq<Request>, channel: seq<Channel>, outcomes: seq<seq<Outcome>>)
    requires Answerable(all, outcomes)
    ensures
      var f, g := FirstLost(channel, |all|), FirstMissing(Told(all, channel, outcomes), 0);
      f == g || (|all| < f && |all| < g)
  {
    SameMissing(
      seq(|all| + 1, k requires 0 <= k => if At(channel, k).WriteFails? then NotWritten else Written),
      Told(all, channel, outcomes));
  }

  /** Every attempt made is the one foretold. */
  lemma AsTold(all: seq<Request>, channel: seq<Channel>, outcomes: seq<seq<Outcome>>, x: Sends)
    requires Answerable(all, outcomes) && Recorded(channel, outcomes, x) && WaitsAsTold(x.rs, x.tries)
    requires |x.rs| <= |all| && forall i :: 0 <= i < |all| ==> (all[i].fini <==> i == |all| - 1)
    requires forall i :: 0 <= i < |x.rs| ==> Alike(x.rs[i], all[i])
    ensures Agree(x.tries, Told(all, channel, outcomes))
  {
    var f, b := FirstLost(channel, |all|), Told(all, channel, outcomes);
    SameMissing(x.tries, b);
    ToldMissing(all, channel, outcomes);
    forall k | 0 <= k < |x.tries| && k < |b| ensures x.tries[k] == b[k] {
      assert b[k] == Coming(all, channel, outcomes, f, k);
      if !x.tries[k].NotWritten? {
        var i := ChunkOf(x.tries, k);
        assert Alike(x.rs[i], all[i]);
      }
    }
  }

  /**
    What a `send()` writes, whether it ends with an error response and whether it leaves the
    driver in batch mode can be told from what the device and the stack will do.
   */
  lemma Foretold(buf: seq<Byte>, limit: nat, channel: seq<Channel>, outcomes: seq<seq<Outcome>>, was: Tally, t: Tally,
                 x: Sends, response: nat)
    requires Transferred(buf, limit, channel, outcomes, was, t, x, response)
    requires Answerable(Chunks(buf, limit, 0), outcomes)
    ensures
      var n, tries := |Chunks(buf, limit, 0)|, Told(Chunks(buf, limit, 0), channel, outcomes);
      && |x.rs| == WrittenCount(tries, n) && x.refused == WasRefused(tries, n)
      && (t.batch <==> LeavesOpen(tries, n) || (WrittenCount(tries, n) == 0 && was.batch))
  {
    var all := Chunks(buf, limit, 0);
    var tries := Told(all, channel, outcomes);
    ChunksCorrect(buf, limit, 0);
    AsTold(all, channel, outcomes, x);
    SameFate(x.tries, tries, |all|);
    BatchLeft(|all|, channel, was, t, x, response, tries);
  }

  lemma BatchLeft(n: nat, channel: seq<Channel>, was: Tally, t: Tally, x: Sends, response: nat, tries: seq<Attempt>)
    requires |x.rs| == |x.counts| && Leaves(n, channel, was, t, x, response)
    requires |x.rs| == WrittenCount(tries, n) <= n
    ensures t.batch <==> LeavesOpen(tries, n) || (WrittenCount(tries, n) == 0 && was.batch)
  {
    LeftOpen(tries, n);
  }

  /**
    A batch left open by an error response: of three chunks the write of the first fails, the
    shim tries it again and waits, and the local socket is closed. Only that chunk is written.
   */
  lemma ErrorWitness(was: Tally, t: Tally, x: Sends, response: nat)
    requires !was.batch
    requires Transferred([1, 2, 3], 1, [WriteFails], [[Failed(32)], [Sent(1)], [Sent(1)]], was, t, x, response)
    ensures |x.rs| == 1 && !x.rs[0].fini && x.refused && t == Tally(true, 0) && Returned(response) == -1
  {
    var outcomes := [[Failed(EPIPE)], [Sent(1)], [Sent(1)]];
    var all := Chunks([1, 2, 3], 1, 0);
    ThreeChunks();
    Foretold([1, 2, 3], 1, [WriteFails], outcomes, was, t, x, response);
    var tries := Told(all, [WriteFails], outcomes);
    assert tries[0] == NotWritten && tries[1] == Refused;
    assert FirstMissing(tries, 0) == 0 && FirstBad(tries, 1) == 1;
    WrittenFini(x.rs, [1, 2, 3], 1, 1);
    assert Alike(x.rs[0], all[0]);
    NoneSent(x.rs, x.counts, [Failed(EPIPE)]);
  }

  lemma NoneSent(rs: seq<Request>, counts: seq<nat>, outcomes: seq<Outcome>)
    requires |rs| == 1 && CountsOk(rs, counts) && |rs[0].payload| == 1 && outcomes == [Failed(EPIPE)]
    requires counts[0] == Sending(|rs[0].payload|, outcomes).0
    ensures counts == [0] && Delivered(rs, counts) == []
  {
    PlacesSize(rs, counts, 0);
    assert counts == [0];
  }

  lemma ThreeChunks()
    ensures var all := Chunks([1, 2, 3], 1, 0); |all| == 3 && forall k :: 0 <= k < 3 ==> |all[k].payload| == 1
  {
    WitnessChunks();
    ChunksCorrect([1, 2, 3], 1, 0);
  }

  method ErrorRun() returns (rc: int, batch: bool, sum: nat)
    ensures rc == -1 && batch && sum == 0
  {
    var outcomes := [[Failed(EPIPE)], [Sent(1)], [Sent(1)]];
    var sock := new SocketInstance();
    ThreeChunks();
    var x, response;
    rc, x, response := Transfer(sock, [1, 2, 3], 1, [WriteFails], outcomes);
    ErrorWitness(Tally(false, 0), sock.View(), x, response);
    batch, sum := sock.batch, sock.sum;
  }
}
