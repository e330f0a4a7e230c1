/**
  The cooperative scheduler of libbmk_core as a state machine: one atomic step per API call,
  per round of the loop in `schedule`, per return from a context switch, and per wakeup
  issued by an interrupt handler.
 */
module Sched {
  import opened Queues

  type Tid = nat

  /** `BMK_SCHED_BLOCK_INFTIME`: block without a deadline. */
  const INFTIME: int := -1
  /** Nanoseconds to idle at most. */
  const BLOCKTIME_MAX: int := 1_000_000_000

  /** Which call last moved the thread to the run queue (a history variable). */
  datatype Cause = ByWake | ByTimeout

  /** `struct bmk_thread`: the wakeup time and the flag bits. */
  datatype Thread = Thread(
    wakeup: int,
    runq: bool,
    timeq: bool,
    blockq: bool,
    running: bool,
    timedout: bool,
    mustjoin: bool,
    joined: bool,
    dead: bool,
    blockprep: bool,
    cause: Cause)

  /**
    Where a thread is: not started; running its own code, the join loop or the exit loop; or
    inside `schedule`, called from yield, from block, from the join loop, from the exit loop,
    or for good.
   */
  datatype Pc =
    | Virgin
    | InUser | Joining(target: Tid) | Leaving
    | InYield | InBlock | InJoin(target: Tid) | InExit | Gone

  /** What the CPU is doing for `current`. */
  datatype Mode = Running | Scheduling | Resuming

  datatype State = State(
    threads: map<Tid, Thread>,
    pc: map<Tid, Pc>,
    threadq: seq<Tid>,
    zombieq: seq<Tid>,
    runq: seq<Tid>,
    timeq: seq<Tid>,
    blockq: seq<Tid>,
    joinwq: seq<(Tid, Tid)>,
    current: Tid,
    mode: Mode,
    nextId: Tid,
    freed: seq<Tid>,
    joinable: set<Tid>,
    released: set<Tid>)

  // ----- The operations

  /** `set_runnable` finds the thread on a queue, or running and on none; else it halts. */
  predicate Wakeable(th: Thread) {
    th.runq || th.timeq != th.blockq || (th.running && !th.timeq)
  }

  function SetRunnable(s: State, t: Tid, why: Cause): State
    requires t in s.threads && Wakeable(s.threads[t])
  {
    var th := s.threads[t];
    var th' := th.(runq := true, timeq := false, blockq := false, cause := why);
    if th.runq then s
    else if th.timeq && !th.blockq then
      s.(timeq := Without(s.timeq, t), threads := s.threads[t := th'], runq := s.runq + [t])
    else if th.blockq && !th.timeq then
      s.(blockq := Without(s.blockq, t), threads := s.threads[t := th'], runq := s.runq + [t])
    else s
  }

  /** `bmk_sched_wake`. */
  function Wake(s: State, t: Tid, why: Cause): State
    requires t in s.threads && Wakeable(s.threads[t])
  {
    SetRunnable(s.(threads := s.threads[t := s.threads[t].(wakeup := INFTIME)]), t, why)
  }

  /** The place of `timeq_sorted_insert`: before the first thread with a later deadline. */
  function TimeqPlace(q: seq<Tid>, threads: map<Tid, Thread>, deadline: int): (i: nat)
    requires forall t :: t in q ==> t in threads
    ensures i <= |q|
    ensures forall j :: 0 <= j < i ==> threads[q[j]].wakeup <= deadline
    ensures i < |q| ==> threads[q[i]].wakeup > deadline
  {
    if q == [] || threads[q[0]].wakeup > deadline then 0
    else 1 + TimeqPlace(q[1..], threads, deadline)
  }

  /** `bmk_sched_blockprepare_timeout` with `clear_runnable`, for the current thread. */
  function BlockPrepare(s: State, deadline: int): State
    requires s.current in s.threads && forall t :: t in s.timeq ==> t in s.threads
  {
    var t := s.current;
    var th := s.threads[t].(wakeup := deadline, blockprep := true);
    if deadline != INFTIME then
      var i := TimeqPlace(s.timeq, s.threads, deadline);
      s.(timeq := s.timeq[..i] + [t] + s.timeq[i..], threads := s.threads[t := th.(timeq := true)])
    else
      s.(blockq := s.blockq + [t], threads := s.threads[t := th.(blockq := true)])
  }

  /** The tail of `bmk_sched_block` after `schedule` has returned. */
  function FinishBlock(s: State): State
    requires s.current in s.threads
  {
    s.(threads := s.threads[s.current := s.threads[s.current].(timedout := false, blockprep := false)])
  }

  /** One thread of the expiry loop: marked as timed out and woken. */
  function ExpireOne(s: State): State
    requires s.timeq != [] && s.timeq[0] in s.threads && Wakeable(s.threads[s.timeq[0]])
  {
    var t := s.timeq[0];
    Wake(s.(threads := s.threads[t := s.threads[t].(timedout := true)]), t, ByTimeout)
  }

  /** Hands the CPU to the head of the run queue. */
  function Dispatch(s: State): State
    requires s.runq != [] && s.runq[0] in s.threads && s.current in s.threads
  {
    var next := s.runq[0];
    var threads' := s.threads[s.current := s.threads[s.current].(running := false)];
    var th := threads'[next].(running := true, runq := false);
    s.(threads := threads'[next := th], runq := s.runq[1..], current := next, mode := Resuming)
  }

  /** The reaper. */
  function Reap(s: State): State {
    s.(threads := s.threads - (set t | t in s.zombieq),
       pc := s.pc - (set t | t in s.zombieq),
       freed := s.freed + s.zombieq,
       zombieq := [])
  }

  /** The first joiner waiting for `t`. */
  function Joiner(q: seq<(Tid, Tid)>, t: Tid): Option<Tid> {
    if q == [] then None
    else if q[0].1 == t then Some(q[0].0)
    else Joiner(q[1..], t)
  }

  // ----- Invariants

  /** The three scheduling queues and their bits. */
  datatype Queue = Runq | Timeq | Blockq

  predicate Bit(th: Thread, b: Queue) {
    match b
    case Runq => th.runq
    case Timeq => th.timeq
    case Blockq => th.blockq
  }

  /** Queue `q` holds, once each, exactly the threads that carry its bit. */
  ghost predicate Holds(q: seq<Tid>, threads: map<Tid, Thread>, b: Queue) {
    && NoDup(q)
    && (forall t: Tid {:trigger t in q} :: t in q ==> t in threads && Bit(threads[t], b))
    && (forall t: Tid {:trigger Bit(threads[t], b)} :: t in threads && Bit(threads[t], b) ==> t in q)
  }

  ghost predicate QueueInv(s: State) {
    Holds(s.runq, s.threads, Runq) && Holds(s.timeq, s.threads, Timeq) && Holds(s.blockq, s.threads, Blockq)
  }

  lemma HoldsSame(q: seq<Tid>, threads: map<Tid, Thread>, b: Queue, t: Tid, th: Thread)
    requires Holds(q, threads, b) && t in threads && Bit(th, b) == Bit(threads[t], b)
    ensures Holds(q, threads[t := th], b)
  {
    var threads' := threads[t := th];
    forall x: Tid | x in threads' && Bit(threads'[x], b)
      ensures x in q
    {
      assert Bit(threads[x], b);
    }
  }

  lemma HoldsAppend(q: seq<Tid>, threads: map<Tid, Thread>, b: Queue, t: Tid, th: Thread)
    requires Holds(q, threads, b) && Bit(th, b) && t !in q
    ensures Holds(q + [t], threads[t := th], b)
  {
    HoldsInsert(q, threads, b, t, th, |q|);
    assert q[..|q|] + [t] + q[|q|..] == q + [t];
  }

  lemma HoldsInsert(q: seq<Tid>, threads: map<Tid, Thread>, b: Queue, t: Tid, th: Thread, i: nat)
    requires Holds(q, threads, b) && Bit(th, b) && t !in q && i <= |q|
    ensures Holds(q[..i] + [t] + q[i..], threads[t := th], b)
  {
    var threads', q' := threads[t := th], q[..i] + [t] + q[i..];
    InsertContents(q, t, i);
    forall x: Tid | x in threads' && Bit(threads'[x], b)
      ensures x in q'
    {
      if x != t {
        assert Bit(threads[x], b);
      }
    }
  }

  lemma InsertContents<T>(q: seq<T>, t: T, i: nat)
    requires NoDup(q) && t !in q && i <= |q|
    ensures var q' := q[..i] + [t] + q[i..]; NoDup(q') && forall x :: x in q' <==> x in q || x == t
  {
    var q' := q[..i] + [t] + q[i..];
    assert forall j :: 0 <= j < |q'| ==> q'[j] == if j < i then q[j] else if j == i then t else q[j - 1];
    forall x | x in q
      ensures x in q'
    {
      var j :| 0 <= j < |q| && q[j] == x;
      assert q'[if j < i then j else j + 1] == x;
    }
    assert q'[i] == t;
  }

  lemma HoldsRemove(q: seq<Tid>, threads: map<Tid, Thread>, b: Queue, t: Tid, th: Thread)
    requires Holds(q, threads, b) && !Bit(th, b)
    ensures Holds(Without(q, t), threads[t := th], b)
  {
    var threads' := threads[t := th];
    WithoutContents(q, t);
    forall x: Tid | x in threads' && Bit(threads'[x], b)
      ensures x in Without(q, t)
    {
      assert Bit(threads[x], b);
    }
  }

  /** `threadq` lists the live threads, `zombieq` the dead ones not freed yet. */
  ghost predicate LiveInv(s: State) {
    && NoDup(s.threadq) && NoDup(s.zombieq) && NoDup(s.freed)
    && (forall t: Tid :: t in s.threadq <==> t in s.threads && !s.threads[t].dead)
    && (forall t: Tid :: t in s.zombieq <==> t in s.threads && s.threads[t].dead)
    && s.pc.Keys == s.threads.Keys
    && (forall t: Tid :: t in s.threads ==> t < s.nextId)
    && (forall t: Tid :: t in s.freed ==> t < s.nextId && t !in s.threads)
    && (forall t: Tid :: t in s.freed && t in s.joinable ==> t in s.released)
    && (forall t: Tid :: t in s.joinable || t in s.released ==> t < s.nextId)
  }

  predicate Queued(th: Thread) {
    th.runq || th.timeq || th.blockq
  }

  predicate Blocking(p: Pc) {
    p.InBlock? || p.InJoin? || p.InExit?
  }

  predicate Awake(p: Pc) {
    p.InUser? || p.Joining? || p.Leaving?
  }

  /**
    Flags, queue bits and control point of one thread agree. `here` says that the thread is
    the current one, `must` that it was created joinable and no joiner has released it.
   */
  predicate Consistent(th: Thread, p: Pc, here: bool, mode: Mode, must: bool) {
    var back := here && mode == Resuming;
    && !(th.runq && th.timeq) && !(th.runq && th.blockq) && !(th.timeq && th.blockq)
    && (th.running ==> here)
    && (th.dead <==> p == Gone)
    && (th.dead ==> !Queued(th) && !th.running && !must)
    && (!here && !th.dead ==> Queued(th) && !Awake(p))
    && (p == Virgin || p == InYield ==> !th.blockprep && (!here ==> th.runq))
    && (Blocking(p) ==> th.blockprep)
    && (p == InUser ==> (th.blockprep <==> Queued(th)))
    && (p.Joining? || p.Leaving? ==> !th.blockprep && !Queued(th))
    && (th.timedout ==> Blocking(p) && (th.runq || back))
    && (Blocking(p) && (th.runq || back) ==> (th.timedout <==> th.cause == ByTimeout))
    && (p == InUser && th.runq ==> th.cause == ByWake)
    && (th.blockq ==> th.wakeup == INFTIME) && (th.timeq ==> th.wakeup != INFTIME)
    && (th.mustjoin <==> must)
    && (th.joined ==> p.InExit? || p.Leaving? || p.Gone?)
    && (p == InExit ==> th.joined && (must || th.runq || back))
  }

  ghost predicate Must(s: State, t: Tid) {
    t in s.joinable && t !in s.released
  }

  ghost predicate ThreadOk(s: State, t: Tid)
    requires t in s.threads && t in s.pc
  {
    Consistent(s.threads[t], s.pc[t], t == s.current, s.mode, Must(s, t))
  }

  /** What the current thread is doing fits the mode. */
  predicate CurrentOk(th: Thread, p: Pc, mode: Mode) {
    match mode
    case Running => Awake(p) && th.running && !th.dead
    case Resuming => th.running && !Queued(th) && !th.dead && !Awake(p)
    case Scheduling =>
      (p == InYield && !th.running && th.runq) || (Blocking(p) && th.running && Queued(th)) || p == Gone
  }

  ghost predicate ControlInv(s: State) {
    && s.pc.Keys == s.threads.Keys
    && s.current in s.threads
    && (forall t: Tid {:trigger ThreadOk(s, t)} :: t in s.threads ==> ThreadOk(s, t))
    && CurrentOk(s.threads[s.current], s.pc[s.current], s.mode)
  }

  ghost predicate Sorted(q: seq<Tid>, threads: map<Tid, Thread>) {
    forall i, j {:trigger q[i], q[j]} :: 0 <= i < j < |q| && q[i] in threads && q[j] in threads ==>
      threads[q[i]].wakeup <= threads[q[j]].wakeup
  }

  predicate Joins(p: Pc) {
    p.InJoin? || p.Joining?
  }

  /** A joiner waits on a live thread that still must be joined, and never in vain. */
  ghost predicate JoinerOk(s: State, j: Tid)
    requires j in s.pc && Joins(s.pc[j]) && j in s.threads
  {
    var t := s.pc[j].target;
    && t in s.threads && !s.threads[t].dead && s.threads[t].mustjoin
    && (s.pc[j].InJoin? && s.threads[t].joined ==> s.threads[j].runq || (j == s.current && s.mode == Resuming))
  }

  ghost predicate JoinInv(s: State)
    requires s.pc.Keys == s.threads.Keys
  {
    && NoDup(s.joinwq)
    && (forall j: Tid, t: Tid {:trigger (j, t) in s.joinwq} :: (j, t) in s.joinwq <==>
        j in s.pc && s.pc[j] == InJoin(t))
    && (forall j: Tid {:trigger JoinerOk(s, j)} :: j in s.pc && Joins(s.pc[j]) ==> JoinerOk(s, j))
    && (forall j: Tid, j': Tid {:trigger Joins(s.pc[j]), Joins(s.pc[j'])} ::
      j in s.pc && j' in s.pc && Joins(s.pc[j]) && Joins(s.pc[j']) && s.pc[j].target == s.pc[j'].target ==> j == j')
  }

  ghost predicate Inv(s: State) {
    QueueInv(s) && LiveInv(s) && ControlInv(s) && Sorted(s.timeq, s.threads) && JoinInv(s)
  }

  /** A wakeup of a live thread never halts the machine. */
  lemma LiveWakeable(s: State, t: Tid)
    requires ControlInv(s) && t in s.threads && !s.threads[t].dead
    ensures Wakeable(s.threads[t])
  {
    assert ThreadOk(s, t) && ThreadOk(s, s.current);
  }

  // ----- Waking

  lemma WakeQueues(s: State, t: Tid, why: Cause)
    requires QueueInv(s) && t in s.threads && Wakeable(s.threads[t])
    ensures QueueInv(Wake(s, t, why))
  {
    var th := s.threads[t].(wakeup := INFTIME);
    var th' := th.(runq := true, timeq := false, blockq := false, cause := why);
    if th.runq || th.timeq == th.blockq {
      HoldsSame(s.runq, s.threads, Runq, t, th);
      HoldsSame(s.timeq, s.threads, Timeq, t, th);
      HoldsSame(s.blockq, s.threads, Blockq, t, th);
    } else {
      assert s.threads[t := th][t := th'] == s.threads[t := th'];
      HoldsAppend(s.runq, s.threads, Runq, t, th');
      if th.timeq {
        HoldsRemove(s.timeq, s.threads, Timeq, t, th');
        HoldsSame(s.blockq, s.threads, Blockq, t, th');
      } else {
        HoldsSame(s.timeq, s.threads, Timeq, t, th');
        HoldsRemove(s.blockq, s.threads, Blockq, t, th');
      }
    }
  }

  lemma SortedRemove(q: seq<Tid>, x: Tid, threads: map<Tid, Thread>, th: Thread)
    requires Sorted(q, threads) && x in q && NoDup(q)
    ensures Sorted(Without(q, x), threads[x := th])
  {
    var i := WithoutIndex(q, x);
    var w, threads' := Without(q, x), threads[x := th];
    forall a, b | 0 <= a < b < |w| && w[a] in threads' && w[b] in threads'
      ensures threads'[w[a]].wakeup <= threads'[w[b]].wakeup
    {
      var a', b' := if a < i then a else a + 1, if b < i then b else b + 1;
      assert w[a] == q[a'] && w[b] == q[b'] && q[a'] != q[i] && q[b'] != q[i];
    }
  }

  lemma SortedSame(q: seq<Tid>, t: Tid, threads: map<Tid, Thread>, th: Thread)
    requires Sorted(q, threads) && t !in q
    ensures Sorted(q, threads[t := th])
  {
    assert forall i :: 0 <= i < |q| ==> q[i] != t;
  }

  /** A step that rewrites one thread, keeping it alive or dead, keeps the thread lists right. */
  lemma LiveSame(s: State, s': State, t: Tid, th: Thread)
    requires LiveInv(s) && t in s.threads
    requires s'.threads == s.threads[t := th] && th.dead == s.threads[t].dead
    requires s'.pc.Keys == s.pc.Keys && s'.threadq == s.threadq && s'.zombieq == s.zombieq && s'.freed == s.freed
    requires s'.nextId == s.nextId && s'.joinable == s.joinable && s'.released == s.released
    ensures LiveInv(s')
  {
  }

  /** The thread record after a wakeup. */
  function Woken(th: Thread, why: Cause): Thread {
    var th1 := th.(wakeup := INFTIME);
    if th.runq || th.timeq == th.blockq then th1
    else th1.(runq := true, timeq := false, blockq := false, cause := why)
  }

  lemma WakeEffect(s: State, t: Tid, why: Cause)
    requires t in s.threads && Wakeable(s.threads[t])
    ensures var s' := Wake(s, t, why);
      && s'.threads == s.threads[t := Woken(s.threads[t], why)]
      && s' == s.(threads := s'.threads, runq := s'.runq, timeq := s'.timeq, blockq := s'.blockq)
  {
  }

  /** Any wakeup of a live thread, by a thread or by an interrupt handler. */
  lemma WakeInv(s: State, t: Tid)
    requires Inv(s) && t in s.threads && !s.threads[t].dead
    ensures Wakeable(s.threads[t]) && Inv(Wake(s, t, ByWake))
  {
    LiveWakeable(s, t);
    WakeEffect(s, t, ByWake);
    WakeQueues(s, t, ByWake);
    LiveSame(s, Wake(s, t, ByWake), t, Woken(s.threads[t], ByWake));
    WakeThreads(s, t);
    assert ThreadOk(s, t);
    WakeSorted(s, t, ByWake);
    WakeJoins(s, t);
  }

  lemma WakeThreads(s: State, t: Tid)
    requires ControlInv(s) && t in s.threads && !s.threads[t].dead && Wakeable(s.threads[t])
    ensures ControlInv(Wake(s, t, ByWake))
  {
    var s' := Wake(s, t, ByWake);
    WakeEffect(s, t, ByWake);
    assert ThreadOk(s, t);
    forall x: Tid | x in s'.threads
      ensures ThreadOk(s', x)
    {
      assert ThreadOk(s, x);
    }
  }

  lemma WakeSorted(s: State, t: Tid, why: Cause)
    requires QueueInv(s) && Sorted(s.timeq, s.threads) && t in s.threads && Wakeable(s.threads[t])
    requires !(s.threads[t].timeq && (s.threads[t].runq || s.threads[t].blockq))
    ensures Sorted(Wake(s, t, why).timeq, Wake(s, t, why).threads)
  {
    WakeEffect(s, t, why);
    if Bit(s.threads[t], Timeq) {
      SortedRemove(s.timeq, t, s.threads, Woken(s.threads[t], why));
    } else {
      SortedSame(s.timeq, t, s.threads, Woken(s.threads[t], why));
    }
  }

  lemma WakeJoins(s: State, t: Tid)
    requires s.pc.Keys == s.threads.Keys && JoinInv(s) && t in s.threads && Wakeable(s.threads[t])
    ensures JoinInv(Wake(s, t, ByWake))
  {
    var s' := Wake(s, t, ByWake);
    WakeEffect(s, t, ByWake);
    forall j: Tid | j in s'.pc && Joins(s'.pc[j])
      ensures JoinerOk(s', j)
    {
      assert JoinerOk(s, j);
    }
  }

  // ----- Blocking

  lemma SortedInsert(q: seq<Tid>, threads: map<Tid, Thread>, t: Tid, th: Thread)
    requires Sorted(q, threads) && t !in q && forall x :: x in q ==> x in threads
    ensures var i := TimeqPlace(q, threads, th.wakeup);
      Sorted(q[..i] + [t] + q[i..], threads[t := th])
  {
    var i := TimeqPlace(q, threads, th.wakeup);
    var q', threads' := q[..i] + [t] + q[i..], threads[t := th];
    forall a, b | 0 <= a < b < |q'| && q'[a] in threads' && q'[b] in threads'
      ensures threads'[q'[a]].wakeup <= threads'[q'[b]].wakeup
    {
      if a < i {
        assert q'[a] == q[a] && q[a] in q;
        if b == i {
        } else if b < i {
          assert q'[b] == q[b] && q[b] in q;
        } else {
          assert q'[b] == q[b - 1] && q[b - 1] in q;
        }
      } else {
        assert q'[b] == q[b - 1] && q[b - 1] in q && q[i] in q;
        if a > i {
          assert q'[a] == q[a - 1] && q[a - 1] in q;
        }
      }
    }
  }

  lemma PrepareInv(s: State, deadline: int)
    requires Inv(s) && s.mode == Running && s.pc[s.current] == InUser && !s.threads[s.current].blockprep
    ensures Inv(BlockPrepare(s, deadline))
  {
    var t := s.current;
    assert ThreadOk(s, t);
    PrepareEffect(s, deadline);
    PrepareQueues(s, deadline);
    LiveSame(s, BlockPrepare(s, deadline), t, Prepared(s.threads[t], deadline));
    PrepareThreads(s, deadline);
    JoinsSame(s, BlockPrepare(s, deadline), t, Prepared(s.threads[t], deadline));
  }

  /** The thread record after `clear_runnable`. */
  function Prepared(th: Thread, deadline: int): Thread {
    var th1 := th.(wakeup := deadline, blockprep := true);
    if deadline != INFTIME then th1.(timeq := true) else th1.(blockq := true)
  }

  lemma PrepareEffect(s: State, deadline: int)
    requires s.current in s.threads && forall t :: t in s.timeq ==> t in s.threads
    ensures var s' := BlockPrepare(s, deadline);
      && s'.threads == s.threads[s.current := Prepared(s.threads[s.current], deadline)]
      && s' == s.(threads := s'.threads, timeq := s'.timeq, blockq := s'.blockq)
  {
  }

  /** Rewriting the current thread's record without touching what joins depend on. */
  lemma JoinsSame(s: State, s': State, t: Tid, th: Thread)
    requires s.pc.Keys == s.threads.Keys && JoinInv(s) && t in s.threads
    requires s'.threads == s.threads[t := th] && s'.pc == s.pc && s'.joinwq == s.joinwq
    requires s'.current == s.current && s'.mode == s.mode
    requires th.dead == s.threads[t].dead && th.mustjoin == s.threads[t].mustjoin && th.joined == s.threads[t].joined
    requires s.threads[t].runq ==> th.runq
    ensures JoinInv(s')
  {
    forall j: Tid | j in s'.pc && Joins(s'.pc[j])
      ensures JoinerOk(s', j)
    {
      assert JoinerOk(s, j);
    }
  }

  lemma PrepareQueues(s: State, deadline: int)
    requires QueueInv(s) && Sorted(s.timeq, s.threads) && s.current in s.threads && !Queued(s.threads[s.current])
    ensures QueueInv(BlockPrepare(s, deadline))
    ensures Sorted(BlockPrepare(s, deadline).timeq, BlockPrepare(s, deadline).threads)
  {
    var t := s.current;
    var th := s.threads[t].(wakeup := deadline, blockprep := true);
    if deadline != INFTIME {
      var th' := th.(timeq := true);
      HoldsSame(s.runq, s.threads, Runq, t, th');
      HoldsSame(s.blockq, s.threads, Blockq, t, th');
      HoldsInsert(s.timeq, s.threads, Timeq, t, th', TimeqPlace(s.timeq, s.threads, deadline));
      SortedInsert(s.timeq, s.threads, t, th');
    } else {
      var th' := th.(blockq := true);
      HoldsSame(s.runq, s.threads, Runq, t, th');
      HoldsSame(s.timeq, s.threads, Timeq, t, th');
      HoldsAppend(s.blockq, s.threads, Blockq, t, th');
      SortedSame(s.timeq, t, s.threads, th');
    }
  }

  lemma PrepareThreads(s: State, deadline: int)
    requires ControlInv(s) && s.mode == Running && s.pc[s.current] == InUser && !s.threads[s.current].blockprep
    requires forall t :: t in s.timeq ==> t in s.threads
    ensures ControlInv(BlockPrepare(s, deadline))
  {
    var s' := BlockPrepare(s, deadline);
    assert ThreadOk(s, s.current);
    forall x: Tid | x in s'.threads
      ensures ThreadOk(s', x)
    {
      assert ThreadOk(s, x);
    }
  }

  /** `bmk_sched_block` entering `schedule`. */
  function EnterBlock(s: State): State {
    s.(pc := s.pc[s.current := InBlock], mode := Scheduling)
  }

  lemma EnterBlockInv(s: State)
    requires Inv(s) && s.mode == Running && s.pc[s.current] == InUser && s.threads[s.current].blockprep
    ensures !s.threads[s.current].timedout && Inv(EnterBlock(s))
  {
    var s' := EnterBlock(s);
    assert ThreadOk(s, s.current);
    forall x: Tid | x in s'.threads
      ensures ThreadOk(s', x)
    {
      assert ThreadOk(s, x);
    }
    PcJoins(s, s');
  }

  /** Moving a thread between control points that are not joins. */
  lemma PcJoins(s: State, s': State)
    requires s.pc.Keys == s.threads.Keys && JoinInv(s) && s.current in s.pc
    requires !Joins(s.pc[s.current]) && s'.current == s.current && s'.current in s'.pc && !Joins(s'.pc[s.current])
    requires s'.pc == s.pc[s.current := s'.pc[s.current]] && s'.threads == s.threads && s'.joinwq == s.joinwq
    ensures JoinInv(s')
  {
    forall j: Tid | j in s'.pc && Joins(s'.pc[j])
      ensures JoinerOk(s', j)
    {
      assert JoinerOk(s, j);
    }
    forall j: Tid, j': Tid |
      j in s'.pc && j' in s'.pc && Joins(s'.pc[j]) && Joins(s'.pc[j']) && s'.pc[j].target == s'.pc[j'].target
      ensures j == j'
    {
      assert Joins(s.pc[j]) && Joins(s.pc[j']);
    }
  }

  // ----- Yielding, creating, starting to join or to exit

  /** `bmk_sched_yield` entering `schedule`. */
  function Yield(s: State): State
    requires s.current in s.threads
  {
    var th := s.threads[s.current].(runq := true, running := false);
    s.(threads := s.threads[s.current := th], runq := s.runq + [s.current], pc := s.pc[s.current := InYield],
      mode := Scheduling)
  }

  lemma YieldInv(s: State)
    requires Inv(s) && s.mode == Running && s.pc[s.current] == InUser && !s.threads[s.current].blockprep
    ensures Inv(Yield(s))
  {
    var t, s' := s.current, Yield(s);
    var th := s.threads[t].(runq := true, running := false);
    assert ThreadOk(s, t);
    HoldsAppend(s.runq, s.threads, Runq, t, th);
    HoldsSame(s.timeq, s.threads, Timeq, t, th);
    HoldsSame(s.blockq, s.threads, Blockq, t, th);
    SortedSame(s.timeq, t, s.threads, th);
    LiveSame(s, s', t, th);
    YieldThreads(s);
    var s1 := s.(threads := s'.threads);
    JoinsSame(s, s1, t, th);
    PcJoins(s1, s');
  }

  lemma YieldThreads(s: State)
    requires ControlInv(s) && s.mode == Running && s.pc[s.current] == InUser && !s.threads[s.current].blockprep
    ensures ControlInv(Yield(s))
  {
    var s' := Yield(s);
    assert ThreadOk(s, s.current);
    forall x: Tid | x in s'.threads
      ensures ThreadOk(s', x)
    {
      assert ThreadOk(s, x);
    }
  }

  function NewThread(joinable: bool): Thread {
    Thread(INFTIME, true, false, false, false, false, joinable, false, false, false, ByWake)
  }

  /** `bmk_sched_create_withtls`. */
  function Create(s: State, joinable: bool): State {
    var t := s.nextId;
    s.(threads := s.threads[t := NewThread(joinable)], pc := s.pc[t := Virgin], threadq := s.threadq + [t],
       runq := s.runq + [t], nextId := t + 1, joinable := if joinable then s.joinable + {t} else s.joinable)
  }

  lemma CreateInv(s: State, joinable: bool)
    requires Inv(s) && s.mode == Running
    ensures Inv(Create(s, joinable))
  {
    CreateQueues(s, joinable);
    CreateLive(s, joinable);
    CreateThreads(s, joinable);
    CreateJoins(s, joinable);
  }

  lemma CreateQueues(s: State, joinable: bool)
    requires QueueInv(s) && LiveInv(s) && Sorted(s.timeq, s.threads)
    ensures QueueInv(Create(s, joinable)) && Sorted(Create(s, joinable).timeq, Create(s, joinable).threads)
  {
    var t, th := s.nextId, NewThread(joinable);
    assert t !in s.threads;
    HoldsAppend(s.runq, s.threads, Runq, t, th);
    HoldsNew(s.timeq, s.threads, Timeq, t, th);
    HoldsNew(s.blockq, s.threads, Blockq, t, th);
    SortedSame(s.timeq, t, s.threads, th);
  }

  lemma CreateThreads(s: State, joinable: bool)
    requires ControlInv(s) && LiveInv(s) && s.mode == Running
    ensures ControlInv(Create(s, joinable))
  {
    var t, s' := s.nextId, Create(s, joinable);
    assert t !in s.threads;
    forall x: Tid | x in s'.threads
      ensures ThreadOk(s', x)
    {
      if x != t {
        assert ThreadOk(s, x);
      }
    }
  }

  lemma HoldsNew(q: seq<Tid>, threads: map<Tid, Thread>, b: Queue, t: Tid, th: Thread)
    requires Holds(q, threads, b) && t !in threads && !Bit(th, b)
    ensures Holds(q, threads[t := th], b)
  {
    var threads' := threads[t := th];
    forall x: Tid | x in threads' && Bit(threads'[x], b)
      ensures x in q
    {
      assert Bit(threads[x], b);
    }
  }

  lemma CreateLive(s: State, joinable: bool)
    requires LiveInv(s)
    ensures LiveInv(Create(s, joinable))
  {
    var s' := Create(s, joinable);
    assert s'.pc.Keys == s.pc.Keys + {s.nextId} && s'.threads.Keys == s.threads.Keys + {s.nextId};
  }

  lemma CreateJoins(s: State, joinable: bool)
    requires LiveInv(s) && JoinInv(s)
    ensures LiveInv(Create(s, joinable)) && JoinInv(Create(s, joinable))
  {
    CreateLive(s, joinable);
    CreateKeepsJoiners(s, joinable);
    var s' := Create(s, joinable);
    forall j: Tid, j': Tid |
      j in s'.pc && j' in s'.pc && Joins(s'.pc[j]) && Joins(s'.pc[j']) && s'.pc[j].target == s'.pc[j'].target
      ensures j == j'
    {
      assert Joins(s.pc[j]) && Joins(s.pc[j']);
    }
  }

  lemma CreateKeepsJoiners(s: State, joinable: bool)
    requires LiveInv(s) && JoinInv(s)
    ensures
      var s' := Create(s, joinable);
      forall j: Tid {:trigger JoinerOk(s', j)} :: j in s'.pc && Joins(s'.pc[j]) ==> j in s'.threads && JoinerOk(s', j)
  {
    var s' := Create(s, joinable);
    forall j: Tid | j in s'.pc && Joins(s'.pc[j])
      ensures j in s'.threads && JoinerOk(s', j)
    {
      assert j in s.pc && JoinerOk(s, j);
    }
  }

  /** `bmk_sched_exit_withtls` reaching its gate. */
  function EnterExit(s: State): State {
    s.(pc := s.pc[s.current := Leaving])
  }

  lemma EnterExitInv(s: State)
    requires Inv(s) && s.mode == Running && s.pc[s.current] == InUser && !s.threads[s.current].blockprep
    ensures Inv(EnterExit(s))
  {
    var s' := EnterExit(s);
    assert ThreadOk(s, s.current);
    forall x: Tid | x in s'.threads
      ensures ThreadOk(s', x)
    {
      assert ThreadOk(s, x);
    }
    PcJoins(s, s');
  }

  /** `bmk_sched_join` reaching its loop. */
  function EnterJoin(s: State, t: Tid): State {
    s.(pc := s.pc[s.current := Joining(t)])
  }

  /** What `bmk_sched_join` demands: a thread not yet released, joined by nobody else. */
  ghost predicate Joinable(s: State, t: Tid) {
    t in s.threads && s.threads[t].mustjoin && forall j: Tid :: j in s.pc && Joins(s.pc[j]) ==> s.pc[j].target != t
  }

  lemma EnterJoinInv(s: State, t: Tid)
    requires Inv(s) && s.mode == Running && s.pc[s.current] == InUser && !s.threads[s.current].blockprep &&
        Joinable(s, t)
    ensures Inv(EnterJoin(s, t))
  {
    var s' := EnterJoin(s, t);
    assert ThreadOk(s, s.current) && ThreadOk(s, t);
    forall x: Tid | x in s'.threads
      ensures ThreadOk(s', x)
    {
      assert ThreadOk(s, x);
    }
    EnterJoinJoins(s, t);
  }

  lemma EnterJoinJoins(s: State, t: Tid)
    requires s.pc.Keys == s.threads.Keys && JoinInv(s) && s.current in s.pc && s.pc[s.current] == InUser
    requires Joinable(s, t) && !s.threads[t].dead
    ensures JoinInv(EnterJoin(s, t))
  {
    var s' := EnterJoin(s, t);
    forall j: Tid | j in s'.pc && Joins(s'.pc[j])
      ensures JoinerOk(s', j)
    {
      if j != s.current {
        assert JoinerOk(s, j);
      }
    }
    forall j: Tid, j': Tid |
      j in s'.pc && j' in s'.pc && Joins(s'.pc[j]) && Joins(s'.pc[j']) && s'.pc[j].target == s'.pc[j'].target
      ensures j == j'
    {
      assert Joins(s.pc[j]) || j == s.current;
      assert Joins(s.pc[j']) || j' == s.current;
    }
  }

  // ----- The join and exit handshake

  /** Blocking from inside the join loop or the exit loop. */
  function Suspend(s: State, p: Pc): State
    requires s.current in s.threads && forall t :: t in s.timeq ==> t in s.threads
  {
    var s1 := BlockPrepare(s, INFTIME);
    s1.(pc := s.pc[s.current := p], mode := Scheduling)
  }

  lemma SuspendCommon(s: State, p: Pc)
    requires Inv(s) && s.mode == Running && !Queued(s.threads[s.current])
    ensures var s' := Suspend(s, p); QueueInv(s') && Sorted(s'.timeq, s'.threads) && LiveInv(s')
  {
    PrepareEffect(s, INFTIME);
    PrepareQueues(s, INFTIME);
    LiveSame(s, BlockPrepare(s, INFTIME), s.current, Prepared(s.threads[s.current], INFTIME));
    var s' := Suspend(s, p);
    assert s'.pc.Keys == s.pc.Keys;
  }

  /** One round of the join loop when the target has not announced its exit. */
  function JoinWait(s: State): State
    requires s.current in s.threads && s.current in s.pc && s.pc[s.current].Joining?
    requires forall t :: t in s.timeq ==> t in s.threads
  {
    var t := s.pc[s.current].target;
    Suspend(s.(joinwq := s.joinwq + [(s.current, t)]), InJoin(t))
  }

  lemma JoinWaitInv(s: State)
    requires Inv(s) && s.mode == Running && s.pc[s.current].Joining?
    requires s.pc[s.current].target in s.threads && !s.threads[s.pc[s.current].target].joined
    ensures Inv(JoinWait(s))
  {
    var s' := JoinWait(s);
    assert ThreadOk(s, s.current);
    SuspendCommon(s, InJoin(s.pc[s.current].target));
    PrepareEffect(s, INFTIME);
    forall x: Tid | x in s'.threads
      ensures ThreadOk(s', x)
    {
      assert ThreadOk(s, x);
    }
    JoinWaitJoins(s);
  }

  lemma JoinWaitJoins(s: State)
    requires s.pc.Keys == s.threads.Keys && JoinInv(s) && s.mode == Running && s.current in s.pc &&
        s.pc[s.current].Joining?
    requires forall t :: t in s.timeq ==> t in s.threads
    requires s.pc[s.current].target in s.threads && !s.threads[s.pc[s.current].target].joined
    requires !s.threads[s.current].runq
    ensures var s' := JoinWait(s); s'.pc.Keys == s'.threads.Keys && JoinInv(s')
  {
    var s', c := JoinWait(s), s.current;
    var t := s.pc[c].target;
    PrepareEffect(s, INFTIME);
    assert (c, t) !in s.joinwq;
    forall j: Tid | j in s'.pc && Joins(s'.pc[j])
      ensures JoinerOk(s', j)
    {
      assert JoinerOk(s, j);
    }
    forall j: Tid, j': Tid |
      j in s'.pc && j' in s'.pc && Joins(s'.pc[j]) && Joins(s'.pc[j']) && s'.pc[j].target == s'.pc[j'].target
      ensures j == j'
    {
      assert Joins(s.pc[j]) && Joins(s.pc[j']);
    }
  }

  /** The end of `bmk_sched_join`: the target may exit, and is woken to do so. */
  function Release(s: State): State
    requires s.current in s.pc && s.pc[s.current].Joining?
    requires s.pc[s.current].target in s.threads && Wakeable(s.threads[s.pc[s.current].target])
  {
    var t := s.pc[s.current].target;
    var s1 := Wake(s, t, ByWake);
    s1.(threads := s1.threads[t := s1.threads[t].(mustjoin := false)],
        released := s.released + {t}, pc := s.pc[s.current := InUser])
  }

  lemma ReleaseInv(s: State)
    requires Inv(s) && s.mode == Running && s.pc[s.current].Joining?
    requires s.pc[s.current].target in s.threads && s.threads[s.pc[s.current].target].joined
    ensures Wakeable(s.threads[s.pc[s.current].target]) && Inv(Release(s))
  {
    var t := s.pc[s.current].target;
    assert ThreadOk(s, t) && ThreadOk(s, s.current) && JoinerOk(s, s.current);
    WakeInv(s, t);
    WakeEffect(s, t, ByWake);
    ReleaseWoken(Wake(s, t, ByWake), t);
  }

  lemma ReleaseWoken(s: State, t: Tid)
    requires Inv(s) && s.mode == Running && s.pc[s.current] == Joining(t) && t in s.threads
    requires s.threads[t].joined && s.threads[t].runq
    ensures Inv(s.(threads := s.threads[t := s.threads[t].(mustjoin := false)],
        released := s.released + {t}, pc := s.pc[s.current := InUser]))
  {
    var th := s.threads[t].(mustjoin := false);
    var s' := s.(threads := s.threads[t := th], released := s.released + {t}, pc := s.pc[s.current := InUser]);
    HoldsSame(s.runq, s.threads, Runq, t, th);
    HoldsSame(s.timeq, s.threads, Timeq, t, th);
    HoldsSame(s.blockq, s.threads, Blockq, t, th);
    ReleaseLive(s, t);
    ReleaseThreads(s, t);
    ReleaseJoins(s, t);
  }

  lemma ReleaseLive(s: State, t: Tid)
    requires LiveInv(s) && Sorted(s.timeq, s.threads) && s.current in s.pc && t in s.threads
    ensures var s' := s.(threads := s.threads[t := s.threads[t].(mustjoin := false)],
        released := s.released + {t}, pc := s.pc[s.current := InUser]); LiveInv(s') && Sorted(s'.timeq, s'.threads)
  {
  }

  lemma ReleaseThreads(s: State, t: Tid)
    requires ControlInv(s) && s.mode == Running && s.pc[s.current] == Joining(t) && t in s.threads
    requires s.threads[t].joined && s.threads[t].runq
    ensures ControlInv(s.(threads := s.threads[t := s.threads[t].(mustjoin := false)],
        released := s.released + {t}, pc := s.pc[s.current := InUser]))
  {
    var s' := s.(threads := s.threads[t := s.threads[t].(mustjoin := false)], released := s.released + {t},
      pc := s.pc[s.current := InUser]);
    assert ThreadOk(s, t) && ThreadOk(s, s.current);
    forall x: Tid | x in s'.threads
      ensures ThreadOk(s', x)
    {
      assert ThreadOk(s, x);
    }
  }

  lemma ReleaseJoins(s: State, t: Tid)
    requires s.pc.Keys == s.threads.Keys && JoinInv(s) && s.current in s.pc && s.pc[s.current] == Joining(t) &&
        t in s.threads
    ensures JoinInv(s.(threads := s.threads[t := s.threads[t].(mustjoin := false)],
        released := s.released + {t}, pc := s.pc[s.current := InUser]))
  {
    var s' := s.(threads := s.threads[t := s.threads[t].(mustjoin := false)], released := s.released + {t},
      pc := s.pc[s.current := InUser]);
    forall j: Tid | j in s'.pc && Joins(s'.pc[j])
      ensures JoinerOk(s', j)
    {
      assert JoinerOk(s, j) && Joins(s.pc[j]) && Joins(s.pc[s.current]);
    }
    forall j: Tid, j': Tid |
      j in s'.pc && j' in s'.pc && Joins(s'.pc[j]) && Joins(s'.pc[j']) && s'.pc[j].target == s'.pc[j'].target
      ensures j == j'
    {
      assert Joins(s.pc[j]) && Joins(s.pc[j']);
    }
  }

  /** The exit gate of a thread that must be joined: announce the exit, wake the joiner, block. */
  function Announce(s: State): State
    requires s.current in s.threads && forall t :: t in s.timeq ==> t in s.threads
  {
    var s1 := Suspend(s, InExit);
    s1.(threads := s1.threads[s.current := s1.threads[s.current].(joined := true)])
  }

  /** The joiner found, if any, is woken first. */
  function WakeJoiner(s: State): State
    requires Joiner(s.joinwq, s.current).Some? ==>
      Joiner(s.joinwq, s.current).value in s.threads && Wakeable(s.threads[Joiner(s.joinwq, s.current).value])
  {
    match Joiner(s.joinwq, s.current)
    case None => s
    case Some(j) => Wake(s, j, ByWake)
  }

  lemma {:induction false} JoinerFound(q: seq<(Tid, Tid)>, t: Tid)
    ensures Joiner(q, t).Some? ==> (Joiner(q, t).value, t) in q
    ensures Joiner(q, t).None? ==> forall j: Tid :: (j, t) !in q
  {
    if q != [] && q[0].1 != t {
      JoinerFound(q[1..], t);
      assert q == [q[0]] + q[1..];
    }
  }

  lemma AnnounceInv(s: State)
    requires Inv(s) && s.mode == Running && s.pc[s.current] == Leaving && s.threads[s.current].mustjoin
    requires forall j: Tid :: j in s.pc && s.pc[j] == InJoin(s.current) ==> s.threads[j].runq
    ensures Inv(Announce(s))
  {
    var c := s.current;
    assert ThreadOk(s, c);
    SuspendCommon(s, InExit);
    PrepareEffect(s, INFTIME);
    var s1 := Suspend(s, InExit);
    var th := s1.threads[c].(joined := true);
    HoldsSame(s1.runq, s1.threads, Runq, c, th);
    HoldsSame(s1.timeq, s1.threads, Timeq, c, th);
    HoldsSame(s1.blockq, s1.threads, Blockq, c, th);
    SortedSame(s1.timeq, c, s1.threads, th);
    LiveSame(s1, Announce(s), c, th);
    AnnounceThreads(s);
    AnnounceJoins(s);
  }

  lemma AnnounceThreads(s: State)
    requires ControlInv(s) && s.mode == Running && s.pc[s.current] == Leaving && s.threads[s.current].mustjoin
    requires forall t :: t in s.timeq ==> t in s.threads
    ensures ControlInv(Announce(s))
  {
    var s' := Announce(s);
    PrepareEffect(s, INFTIME);
    assert ThreadOk(s, s.current);
    forall x: Tid | x in s'.threads
      ensures ThreadOk(s', x)
    {
      assert ThreadOk(s, x);
    }
  }

  lemma AnnounceJoins(s: State)
    requires s.pc.Keys == s.threads.Keys && JoinInv(s) && s.mode == Running && s.current in s.pc &&
        s.pc[s.current] == Leaving
    requires forall t :: t in s.timeq ==> t in s.threads
    requires forall j: Tid :: j in s.pc && s.pc[j] == InJoin(s.current) ==> s.threads[j].runq
    ensures var s' := Announce(s); s'.pc.Keys == s'.threads.Keys && JoinInv(s')
  {
    var s' := Announce(s);
    PrepareEffect(s, INFTIME);
    forall j: Tid | j in s'.pc && Joins(s'.pc[j])
      ensures JoinerOk(s', j)
    {
      assert JoinerOk(s, j);
    }
    forall j: Tid, j': Tid |
      j in s'.pc && j' in s'.pc && Joins(s'.pc[j]) && Joins(s'.pc[j']) && s'.pc[j].target == s'.pc[j'].target
      ensures j == j'
    {
      assert Joins(s.pc[j]) && Joins(s.pc[j']);
    }
  }

  /** The wakeup in front of `Announce` leaves no joiner of the current thread blocked. */
  lemma WakeJoinerInv(s: State)
    requires Inv(s) && s.mode == Running && s.pc[s.current] == Leaving
    ensures Joiner(s.joinwq, s.current).Some? ==>
      Joiner(s.joinwq, s.current).value in s.threads && Wakeable(s.threads[Joiner(s.joinwq, s.current).value])
    ensures var s' := WakeJoiner(s);
      && Inv(s') && s'.current == s.current && s'.mode == s.mode && s'.pc == s.pc
      && s'.threads[s.current] == s.threads[s.current]
      && forall j: Tid :: j in s'.pc && s'.pc[j] == InJoin(s.current) ==> s'.threads[j].runq
  {
    var c := s.current;
    JoinerFound(s.joinwq, c);
    match Joiner(s.joinwq, c)
    case None =>
      forall j: Tid
        ensures !(j in s.pc && s.pc[j] == InJoin(c))
      {
        assert (j, c) !in s.joinwq;
      }
    case Some(j) =>
      assert (j, c) in s.joinwq && s.pc[j] == InJoin(c);
      assert ThreadOk(s, j);
      WakeInv(s, j);
      WakeEffect(s, j, ByWake);
      forall i: Tid | i in s.pc && s.pc[i] == InJoin(c)
        ensures i == j
      {
        assert Joins(s.pc[i]) && Joins(s.pc[j]);
      }
  }

  /** The end of `bmk_sched_exit_withtls`: off the thread list, onto the zombie list. */
  function Die(s: State): State
    requires s.current in s.threads
  {
    var t := s.current;
    s.(threads := s.threads[t := s.threads[t].(dead := true, running := false)],
       threadq := Without(s.threadq, t), zombieq := [t] + s.zombieq, pc := s.pc[t := Gone], mode := Scheduling)
  }

  lemma DieInv(s: State)
    requires Inv(s) && s.mode == Running && s.pc[s.current] == Leaving && !s.threads[s.current].mustjoin
    ensures Inv(Die(s))
  {
    var t, s' := s.current, Die(s);
    var th := s.threads[t].(dead := true, running := false);
    assert ThreadOk(s, t);
    HoldsSame(s.runq, s.threads, Runq, t, th);
    HoldsSame(s.timeq, s.threads, Timeq, t, th);
    HoldsSame(s.blockq, s.threads, Blockq, t, th);
    SortedSame(s.timeq, t, s.threads, th);
    DieLive(s);
    forall x: Tid | x in s'.threads
      ensures ThreadOk(s', x)
    {
      assert ThreadOk(s, x);
    }
    DieJoins(s);
  }

  lemma DieLive(s: State)
    requires LiveInv(s) && s.current in s.threads && !s.threads[s.current].dead
    ensures LiveInv(Die(s))
  {
    WithoutContents(s.threadq, s.current);
    var s' := Die(s);
    assert s'.pc.Keys == s.pc.Keys && s'.threads.Keys == s.threads.Keys;
  }

  lemma DieJoins(s: State)
    requires s.pc.Keys == s.threads.Keys && JoinInv(s) && s.current in s.pc && s.pc[s.current] == Leaving
    requires !s.threads[s.current].mustjoin && s.mode == Running
    ensures JoinInv(Die(s))
  {
    var s' := Die(s);
    forall j: Tid | j in s'.pc && Joins(s'.pc[j])
      ensures JoinerOk(s', j)
    {
      assert JoinerOk(s, j);
    }
    forall j: Tid, j': Tid |
      j in s'.pc && j' in s'.pc && Joins(s'.pc[j]) && Joins(s'.pc[j']) && s'.pc[j].target == s'.pc[j'].target
      ensures j == j'
    {
      assert Joins(s.pc[j]) && Joins(s.pc[j']);
    }
  }

  // ----- The scheduler loop

  /** What one thread of the expiry loop does to its record. */
  function Expired(th: Thread): Thread {
    Woken(th.(timedout := true), ByTimeout)
  }

  lemma ExpireOneEffect(s: State)
    requires QueueInv(s) && ControlInv(s) && s.timeq != []
    ensures var t := s.timeq[0];
      && t in s.threads && Wakeable(s.threads[t]) && s.threads[t].timeq && !s.threads[t].runq && !s.threads[t].blockq
      && var s' := ExpireOne(s);
      && s'.threads == s.threads[t := Expired(s.threads[t])]
      && s'.timeq == s.timeq[1..] && s'.runq == s.runq + [t]
      && s' == s.(threads := s'.threads, timeq := s'.timeq, runq := s'.runq)
  {
    var t := s.timeq[0];
    assert t in s.timeq && Bit(s.threads[t], Timeq) && ThreadOk(s, t);
  }

  lemma ExpireOneInv(s: State)
    requires Inv(s) && s.mode == Scheduling && s.timeq != []
    ensures s.timeq[0] in s.threads && Wakeable(s.threads[s.timeq[0]])
    ensures Inv(ExpireOne(s)) && ExpireOne(s).mode == Scheduling
  {
    var t := s.timeq[0];
    ExpireOneEffect(s);
    assert ThreadOk(s, t);
    var th := s.threads[t].(timedout := true);
    var s1, s' := s.(threads := s.threads[t := th]), ExpireOne(s);
    HoldsSame(s.runq, s.threads, Runq, t, th);
    HoldsSame(s.timeq, s.threads, Timeq, t, th);
    HoldsSame(s.blockq, s.threads, Blockq, t, th);
    WakeQueues(s1, t, ByTimeout);
    assert Sorted(s1.timeq, s1.threads);
    WakeSorted(s1, t, ByTimeout);
    LiveSame(s, s', t, Expired(s.threads[t]));
    ExpireThreads(s);
    JoinsSame(s, s', t, Expired(s.threads[t]));
  }

  lemma ExpireThreads(s: State)
    requires QueueInv(s) && ControlInv(s) && s.mode == Scheduling && s.timeq != []
    ensures s.timeq[0] in s.threads && Wakeable(s.threads[s.timeq[0]]) && ControlInv(ExpireOne(s))
  {
    ExpireOneEffect(s);
    var t, s' := s.timeq[0], ExpireOne(s);
    assert ThreadOk(s, t);
    forall x: Tid | x in s'.threads
      ensures ThreadOk(s', x)
    {
      assert ThreadOk(s, x);
    }
  }

  /** The expiry loop of `schedule` at time `now`. */
  ghost function Expire(s: State, now: int): State
    requires Inv(s) && s.mode == Scheduling
    ensures Inv(Expire(s, now)) && Expire(s, now).mode == Scheduling
    decreases |s.timeq|
  {
    if s.timeq == [] then s
    else
      assert s.timeq[0] in s.timeq;
      if s.threads[s.timeq[0]].wakeup > now then s
      else
        ExpireOneInv(s);
        ExpireOneEffect(s);
        Expire(ExpireOne(s), now)
  }

  /** The first `n` threads of the time queue went to the end of the run queue as timed out. */
  ghost predicate MovedFirst(s: State, s': State, n: nat) {
    && n <= |s.timeq|
    && s'.timeq == s.timeq[n..] && s'.runq == s.runq + s.timeq[..n]
    && s' == s.(threads := s'.threads, timeq := s'.timeq, runq := s'.runq)
    && s'.threads.Keys == s.threads.Keys
    && forall t: Tid :: t in s.threads ==>
      s'.threads[t] == if t in s.timeq[..n] then Expired(s.threads[t]) else s.threads[t]
  }

  /**
    The expiry pass moves exactly the due threads, in deadline order, to the end of the run
    queue, and marks exactly those as timed out.
   */
  lemma {:induction false} ExpireMovesDue(s: State, now: int)
    requires Inv(s) && s.mode == Scheduling
    ensures forall t :: t in s.timeq ==> t in s.threads
    ensures MovedFirst(s, Expire(s, now), TimeqPlace(s.timeq, s.threads, now))
    decreases |s.timeq|
  {
    if s.timeq != [] {
      HeadKnown(s);
      if s.threads[s.timeq[0]].wakeup <= now {
        var s1 := HeadExpires(s, now);
        ExpireMovesDue(s1, now);
        MovedOneMore(s, s1, Expire(s1, now), now);
      }
    }
  }

  lemma HeadKnown(s: State)
    requires Inv(s) && s.timeq != []
    ensures s.timeq[0] in s.threads && forall t :: t in s.timeq ==> t in s.threads
  {
    assert s.timeq[0] in s.timeq;
  }

  /** The state after the first due thread has been moved. */
  lemma HeadExpires(s: State, now: int) returns (s1: State)
    requires Inv(s) && s.mode == Scheduling && s.timeq != []
    requires s.timeq[0] in s.threads && s.threads[s.timeq[0]].wakeup <= now
    ensures Inv(s1) && s1.mode == Scheduling && Expire(s, now) == Expire(s1, now)
    ensures s1.threads == s.threads[s.timeq[0] := Expired(s.threads[s.timeq[0]])]
    ensures s1.timeq == s.timeq[1..] && s1.runq == s.runq + [s.timeq[0]]
    ensures s1 == s.(threads := s1.threads, timeq := s1.timeq, runq := s1.runq)
  {
    ExpireOneInv(s);
    ExpireOneEffect(s);
    s1 := ExpireOne(s);
  }

  lemma MovedOneMore(s: State, s1: State, s': State, now: int)
    requires s.timeq != [] && NoDup(s.timeq) && forall t :: t in s.timeq ==> t in s.threads
    requires s.threads[s.timeq[0]].wakeup <= now
    requires s1.threads == s.threads[s.timeq[0] := Expired(s.threads[s.timeq[0]])]
    requires s1.timeq == s.timeq[1..] && s1.runq == s.runq + [s.timeq[0]]
    requires s1 == s.(threads := s1.threads, timeq := s1.timeq, runq := s1.runq)
    requires MovedFirst(s1, s', TimeqPlace(s1.timeq, s1.threads, now))
    ensures MovedFirst(s, s', TimeqPlace(s.timeq, s.threads, now))
  {
    assert s.timeq[0] !in s.timeq[1..];
    PlaceSame(s.timeq[1..], s.threads, s1.threads, now);
    var n := TimeqPlace(s.timeq[1..], s.threads, now);
    TakeOneMore(s.runq, s.timeq, n);
    MovedRecords(s, s1, s', n);
  }

  lemma MovedRecords(s: State, s1: State, s': State, n: nat)
    requires s.timeq != [] && NoDup(s.timeq) && n < |s.timeq| && s.timeq[0] in s.threads
    requires s1.threads == s.threads[s.timeq[0] := Expired(s.threads[s.timeq[0]])] && s1.timeq == s.timeq[1..]
    requires s'.threads.Keys == s1.threads.Keys
    requires forall t: Tid :: t in s1.threads ==>
      s'.threads[t] == if t in s1.timeq[..n] then Expired(s1.threads[t]) else s1.threads[t]
    ensures forall t: Tid :: t in s.threads ==>
      s'.threads[t] == if t in s.timeq[..n + 1] then Expired(s.threads[t]) else s.threads[t]
  {
    var q := s.timeq[1..];
    assert s.timeq[..n + 1] == [s.timeq[0]] + q[..n];
    forall x: Tid | x in s.threads
      ensures s'.threads[x] == if x in s.timeq[..n + 1] then Expired(s.threads[x]) else s.threads[x]
    {
      assert x in s.timeq[..n + 1] <==> x == s.timeq[0] || x in q[..n];
      assert s1.threads[x] == if x == s.timeq[0] then Expired(s.threads[x]) else s.threads[x];
    }
  }

  lemma TakeOneMore<T>(r: seq<T>, q: seq<T>, n: nat)
    requires n < |q|
    ensures q[..n + 1] == [q[0]] + q[1..][..n] && q[n + 1..] == q[1..][n..]
    ensures r + q[..n + 1] == r + [q[0]] + q[1..][..n]
  {
  }

  lemma {:induction false} PlaceSame(q: seq<Tid>, threads: map<Tid, Thread>, threads': map<Tid, Thread>, d: int)
    requires forall t :: t in q ==> t in threads && t in threads' && threads'[t].wakeup == threads[t].wakeup
    ensures TimeqPlace(q, threads, d) == TimeqPlace(q, threads', d)
  {
    if q != [] {
      assert q[0] in q;
      PlaceSame(q[1..], threads, threads', d);
    }
  }

  /** No due thread is left behind. */
  lemma ExpireLeavesNoneDue(s: State, now: int)
    requires Inv(s) && s.mode == Scheduling
    ensures forall t: Tid :: t in Expire(s, now).timeq ==>
        t in Expire(s, now).threads && Expire(s, now).threads[t].wakeup > now
  {
    ExpireMovesDue(s, now);
    var s', n := Expire(s, now), TimeqPlace(s.timeq, s.threads, now);
    forall t: Tid | t in s'.timeq
      ensures t in s'.threads && s'.threads[t].wakeup > now
    {
      var i :| 0 <= i < |s'.timeq| && s'.timeq[i] == t;
      assert s'.timeq[0] in s'.timeq && s.timeq[n] == s'.timeq[0] && s.timeq[n] !in s.timeq[..n];
    }
  }

  lemma DispatchInv(s: State)
    requires Inv(s) && s.mode == Scheduling && s.runq != []
    ensures s.runq[0] in s.threads && !s.threads[s.runq[0]].dead && Inv(Dispatch(s))
  {
    var next := s.runq[0];
    assert next in s.runq && Bit(s.threads[next], Runq) && ThreadOk(s, next);
    DispatchQueues(s);
    DispatchLive(s);
    DispatchThreads(s);
    DispatchJoins(s);
  }

  lemma DispatchQueues(s: State)
    requires QueueInv(s) && Sorted(s.timeq, s.threads) && s.current in s.threads && s.runq != [] &&
        s.runq[0] in s.threads
    ensures var s' := Dispatch(s); QueueInv(s') && Sorted(s'.timeq, s'.threads)
  {
    var next, prev := s.runq[0], s.current;
    var th1 := s.threads[prev].(running := false);
    var threads1 := s.threads[prev := th1];
    var th2 := threads1[next].(running := true, runq := false);
    HoldsSame(s.runq, s.threads, Runq, prev, th1);
    HoldsSame(s.timeq, s.threads, Timeq, prev, th1);
    HoldsSame(s.blockq, s.threads, Blockq, prev, th1);
    HoldsRemove(s.runq, threads1, Runq, next, th2);
    HoldsSame(s.timeq, threads1, Timeq, next, th2);
    HoldsSame(s.blockq, threads1, Blockq, next, th2);
  }

  lemma DispatchLive(s: State)
    requires LiveInv(s) && s.current in s.threads && s.runq != [] && s.runq[0] in s.threads
    ensures LiveInv(Dispatch(s))
  {
    var next, prev := s.runq[0], s.current;
    var th1 := s.threads[prev].(running := false);
    var s1 := s.(threads := s.threads[prev := th1]);
    LiveSame(s, s1, prev, th1);
    LiveSame(s1, Dispatch(s), next, s1.threads[next].(running := true, runq := false));
  }

  lemma DispatchThreads(s: State)
    requires ControlInv(s) && s.mode == Scheduling && s.runq != [] && s.runq[0] in s.threads &&
        s.threads[s.runq[0]].runq
    ensures ControlInv(Dispatch(s))
  {
    var s' := Dispatch(s);
    assert ThreadOk(s, s.runq[0]) && ThreadOk(s, s.current);
    forall x: Tid | x in s'.threads
      ensures ThreadOk(s', x)
    {
      assert ThreadOk(s, x);
    }
  }

  lemma DispatchJoins(s: State)
    requires s.pc.Keys == s.threads.Keys && JoinInv(s) && s.current in s.threads
    requires s.mode == Scheduling && s.runq != [] && s.runq[0] in s.threads
    ensures JoinInv(Dispatch(s))
  {
    var s' := Dispatch(s);
    forall j: Tid | j in s'.pc && Joins(s'.pc[j])
      ensures JoinerOk(s', j)
    {
      assert JoinerOk(s, j);
    }
  }

  /** One round of the loop in `schedule`: expire, then switch or idle. */
  ghost function Tick(s: State, now: int): State
    requires Inv(s) && s.mode == Scheduling
  {
    var s1 := Expire(s, now);
    if s1.runq == [] then s1
    else
      DispatchInv(s1);
      Dispatch(s1)
  }

  // ----- Returning from a context switch

  lemma ReapInv(s: State)
    requires Inv(s) && s.mode == Resuming
    ensures Inv(Reap(s)) && s.current in Reap(s).threads && Reap(s).threads[s.current] == s.threads[s.current]
  {
    var s' := Reap(s);
    assert s.current !in s.zombieq;
    ReapQueues(s);
    ReapLive(s);
    forall x: Tid | x in s'.threads
      ensures ThreadOk(s', x)
    {
      assert ThreadOk(s, x);
    }
    ReapJoins(s);
  }

  lemma HoldsReap(q: seq<Tid>, threads: map<Tid, Thread>, b: Queue, Z: set<Tid>)
    requires Holds(q, threads, b) && forall t: Tid :: t in Z ==> t !in q
    ensures Holds(q, threads - Z, b)
  {
    var threads' := threads - Z;
    forall x: Tid | x in threads' && Bit(threads'[x], b)
      ensures x in q
    {
      assert Bit(threads[x], b);
    }
  }

  lemma ReapQueues(s: State)
    requires Inv(s)
    ensures QueueInv(Reap(s)) && Sorted(Reap(s).timeq, Reap(s).threads)
  {
    var Z := set t | t in s.zombieq;
    forall t: Tid | t in Z
      ensures t !in s.runq && t !in s.timeq && t !in s.blockq
    {
      assert ThreadOk(s, t) &&
        Bit(s.threads[t], Runq) == Bit(s.threads[t], Timeq) == Bit(s.threads[t], Blockq) == false;
    }
    HoldsReap(s.runq, s.threads, Runq, Z);
    HoldsReap(s.timeq, s.threads, Timeq, Z);
    HoldsReap(s.blockq, s.threads, Blockq, Z);
  }

  lemma ReapLive(s: State)
    requires Inv(s)
    ensures LiveInv(Reap(s))
  {
    var s' := Reap(s);
    forall t: Tid | t in s.zombieq && t in s.joinable
      ensures t in s.released
    {
      assert ThreadOk(s, t);
    }
    AppendNoDup(s.freed, s.zombieq);
  }

  lemma AppendNoDup(a: seq<Tid>, b: seq<Tid>)
    requires NoDup(a) && NoDup(b) && forall t: Tid :: t in a ==> t !in b
    ensures NoDup(a + b)
  {
    forall i, j | 0 <= i < j < |a + b|
      ensures (a + b)[i] != (a + b)[j]
    {
      if i < |a| <= j {
        assert a[i] in a && b[j - |a|] in b;
      }
    }
  }

  lemma ReapJoins(s: State)
    requires LiveInv(s) && ControlInv(s) && JoinInv(s)
    ensures Reap(s).pc.Keys == Reap(s).threads.Keys && JoinInv(Reap(s))
  {
    var s' := Reap(s);
    forall j: Tid | j in s.pc && Joins(s.pc[j])
      ensures j !in s.zombieq && JoinerOk(s, j)
    {
      assert ThreadOk(s, j);
    }
    forall j: Tid | j in s'.pc && Joins(s'.pc[j])
      ensures JoinerOk(s', j)
    {
      assert JoinerOk(s, j);
    }
    forall j: Tid, j': Tid |
      j in s'.pc && j' in s'.pc && Joins(s'.pc[j]) && Joins(s'.pc[j']) && s'.pc[j].target == s'.pc[j'].target
      ensures j == j'
    {
      assert Joins(s.pc[j]) && Joins(s.pc[j']);
    }
    forall j: Tid, t: Tid
      ensures (j, t) in s'.joinwq <==> j in s'.pc && s'.pc[j] == InJoin(t)
    {
      if (j, t) in s.joinwq {
        assert Joins(s.pc[j]);
      }
    }
  }

  /** The code a thread continues with once `schedule` has returned to it. */
  function Back(p: Pc): Pc {
    match p
    case InJoin(t) => Joining(t)
    case InExit => Leaving
    case _ => InUser
  }

  /** The rest of the call that had entered `schedule`, up to its return or its next test. */
  function Continue(s: State): State
    requires s.current in s.threads && s.current in s.pc
  {
    var p := s.pc[s.current];
    var s1 := if Blocking(p) then FinishBlock(s) else s;
    s1.(pc := s.pc[s.current := Back(p)], mode := Running,
        joinwq := if p.InJoin? then Without(s.joinwq, (s.current, p.target)) else s.joinwq)
  }

  lemma ContinueInv(s: State)
    requires Inv(s) && s.mode == Resuming
    ensures Inv(Continue(s))
  {
    var s', c := Continue(s), s.current;
    var th := if Blocking(s.pc[c]) then s.threads[c].(timedout := false, blockprep := false) else s.threads[c];
    assert ThreadOk(s, c);
    assert s'.threads == s.threads[c := th] && s'.pc.Keys == s.pc.Keys;
    HoldsSame(s.runq, s.threads, Runq, c, th);
    HoldsSame(s.timeq, s.threads, Timeq, c, th);
    HoldsSame(s.blockq, s.threads, Blockq, c, th);
    SortedSame(s.timeq, c, s.threads, th);
    LiveSame(s, s', c, th);
    ContinueThreads(s);
    ContinueJoins(s);
  }

  lemma ContinueThreads(s: State)
    requires ControlInv(s) && s.mode == Resuming
    ensures ControlInv(Continue(s))
  {
    var s' := Continue(s);
    assert ThreadOk(s, s.current);
    forall x: Tid | x in s'.threads
      ensures ThreadOk(s', x)
    {
      assert ThreadOk(s, x);
    }
  }

  lemma ContinueJoins(s: State)
    requires s.pc.Keys == s.threads.Keys && JoinInv(s) && s.current in s.threads && s.mode == Resuming &&
        !Awake(s.pc[s.current])
    ensures Continue(s).pc.Keys == Continue(s).threads.Keys && JoinInv(Continue(s))
  {
    var s', c := Continue(s), s.current;
    if s.pc[c].InJoin? {
      WithoutContents(s.joinwq, (c, s.pc[c].target));
    }
    forall j: Tid | j in s'.pc && Joins(s'.pc[j])
      ensures JoinerOk(s', j)
    {
      assert JoinerOk(s, j);
    }
    forall j: Tid, j': Tid |
      j in s'.pc && j' in s'.pc && Joins(s'.pc[j]) && Joins(s'.pc[j']) && s'.pc[j].target == s'.pc[j'].target
      ensures j == j'
    {
      assert Joins(s.pc[j]) && Joins(s.pc[j']);
    }
    forall j: Tid, t: Tid
      ensures (j, t) in s'.joinwq <==> j in s'.pc && s'.pc[j] == InJoin(t)
    {
      assert (j, t) in s.joinwq <==> j in s.pc && s.pc[j] == InJoin(t);
    }
  }

  /** After a switch: a thread that has run before reaps the zombies and continues its call. */
  function Return(s: State): State
    requires s.current in s.threads && s.current in s.pc && s.current !in s.zombieq
  {
    if s.pc[s.current] == Virgin then Continue(s) else Continue(Reap(s))
  }

  // ----- Runs

  datatype Step =
    | DoWake(t: Tid)
    | DoPrepare(deadline: int)
    | DoBlock
    | DoYield
    | DoCreate(joinable: bool)
    | DoExit
    | DoJoin(t: Tid)
    | DoGate
    | DoTest
    | DoTick(now: int)
    | DoReturn

  /** A thread in its own code that has not prepared to block. */
  predicate Free(s: State) {
    s.current in s.pc && s.current in s.threads && s.mode == Running && s.pc[s.current] == InUser &&
      !s.threads[s.current].blockprep
  }

  /**
    When a step may be taken: what the assertions of the source check, and what it demands of
    its callers. A wakeup, from a thread or an interrupt handler, may come at any time.
   */
  ghost predicate Enabled(s: State, step: Step) {
    match step
    case DoWake(t) => t in s.threads && !s.threads[t].dead
    case DoPrepare(_) => Free(s)
    case DoBlock =>
      s.current in s.pc && s.current in s.threads && s.mode == Running && s.pc[s.current] == InUser &&
        s.threads[s.current].blockprep
    case DoYield => Free(s)
    case DoCreate(_) => Free(s)
    case DoExit => Free(s)
    case DoJoin(t) => Free(s) && Joinable(s, t)
    case DoGate => s.mode == Running && s.current in s.pc && s.pc[s.current] == Leaving
    case DoTest => s.mode == Running && s.current in s.pc && s.pc[s.current].Joining?
    case DoTick(_) => s.mode == Scheduling
    case DoReturn => s.mode == Resuming
  }

  /** One pass through the exit gate. */
  ghost function Gate(s: State): State
    requires Inv(s) && s.mode == Running && s.pc[s.current] == Leaving
  {
    if s.threads[s.current].mustjoin then
      WakeJoinerInv(s);
      assert forall t :: t in WakeJoiner(s).timeq ==> t in WakeJoiner(s).threads;
      Announce(WakeJoiner(s))
    else Die(s)
  }

  /** One test of the join loop. */
  ghost function JoinTest(s: State): State
    requires Inv(s) && s.mode == Running && s.pc[s.current].Joining?
  {
    assert JoinerOk(s, s.current);
    if s.threads[s.pc[s.current].target].joined then
      ReleaseInv(s);
      Release(s)
    else
      JoinWait(s)
  }

  ghost function Apply(s: State, step: Step): State
    requires Inv(s) && Enabled(s, step)
  {
    match step
    case DoWake(t) => LiveWakeable(s, t); Wake(s, t, ByWake)
    case DoPrepare(deadline) => BlockPrepare(s, deadline)
    case DoBlock => EnterBlock(s)
    case DoYield => Yield(s)
    case DoCreate(joinable) => Create(s, joinable)
    case DoExit => EnterExit(s)
    case DoJoin(t) => EnterJoin(s, t)
    case DoGate => Gate(s)
    case DoTest => JoinTest(s)
    case DoTick(now) => Tick(s, now)
    case DoReturn => Return(s)
  }

  lemma GateInv(s: State)
    requires Inv(s) && s.mode == Running && s.pc[s.current] == Leaving
    ensures Inv(Gate(s))
  {
    if s.threads[s.current].mustjoin {
      WakeJoinerInv(s);
      AnnounceInv(WakeJoiner(s));
    } else {
      DieInv(s);
    }
  }

  lemma JoinTestInv(s: State)
    requires Inv(s) && s.mode == Running && s.pc[s.current].Joining?
    ensures Inv(JoinTest(s))
  {
    assert JoinerOk(s, s.current);
    if s.threads[s.pc[s.current].target].joined {
      ReleaseInv(s);
    } else {
      JoinWaitInv(s);
    }
  }

  /** Every step keeps the invariant; in particular no assertion of the source fails. */
  lemma StepInv(s: State, step: Step)
    requires Inv(s) && Enabled(s, step)
    ensures Inv(Apply(s, step))
  {
    match step
    case DoWake(t) => WakeInv(s, t);
    case DoPrepare(deadline) => PrepareInv(s, deadline);
    case DoBlock => EnterBlockInv(s);
    case DoYield => YieldInv(s);
    case DoCreate(joinable) => CreateInv(s, joinable);
    case DoExit => EnterExitInv(s);
    case DoJoin(t) => EnterJoinInv(s, t);
    case DoGate => GateInv(s);
    case DoTest => JoinTestInv(s);
    case DoTick(now) =>
      var s1 := Expire(s, now);
      if s1.runq != [] {
        DispatchInv(s1);
      }
    case DoReturn =>
      if s.pc[s.current] == Virgin {
        ContinueInv(s);
      } else {
        ReapInv(s);
        ContinueInv(Reap(s));
      }
  }

  /** The machine when the main thread starts. */
  function Initial(): State {
    var main := Thread(INFTIME, false, false, false, true, false, false, false, false, false, ByWake);
    State(map[0 := main], map[0 := InUser], [0], [], [], [], [], [], 0, Running, 1, [], {}, {})
  }

  lemma InitialInv()
    ensures Inv(Initial())
  {
    var s := Initial();
    assert ThreadOk(s, 0);
    assert !Bit(s.threads[0], Runq) && !Bit(s.threads[0], Timeq) && !Bit(s.threads[0], Blockq);
  }

  /** `s` can be reached from `from` by the steps listed. */
  ghost predicate Run(from: State, steps: seq<Step>, s: State)
    requires Inv(from)
    decreases |steps|
  {
    if steps == [] then s == from
    else Enabled(from, steps[0]) && (StepInv(from, steps[0]); Run(Apply(from, steps[0]), steps[1..], s))
  }

  ghost predicate Reachable(s: State) {
    InitialInv();
    exists steps :: Run(Initial(), steps, s)
  }

  lemma {:induction false} RunInv(from: State, steps: seq<Step>, s: State)
    requires Inv(from) && Run(from, steps, s)
    ensures Inv(s)
    decreases |steps|
  {
    if steps != [] {
      StepInv(from, steps[0]);
      RunInv(Apply(from, steps[0]), steps[1..], s);
    }
  }

  lemma ReachableInv(s: State)
    requires Reachable(s)
    ensures Inv(s)
  {
    InitialInv();
    var steps :| Run(Initial(), steps, s);
    RunInv(Initial(), steps, s);
  }
}
