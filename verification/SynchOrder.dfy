/** The order in which waiters are woken: first come, first served, along every run. */
module SynchOrder {
  import opened Queues
  import opened Sched
  import opened SchedTheorems
  import opened Lifecycle
  import opened Synch
  import opened SynchTheorems

  predicate OnList(y: Sync, l: Lid, t: Tid) {
    t in y.waiting && y.waiting[t] == Waiter(l, true)
  }

  /** A step that takes one waiter off `l`. */
  predicate WakesOne(step: SyncStep, l: Lid) {
    step == WakeupOne(l) || step == Exit(l)
  }

  /** What a step of the current thread `c` can do to a wait list. */
  ghost predicate ListMoves(q: seq<Tid>, q': seq<Tid>, step: SyncStep, l: Lid, c: Tid) {
    if WakesOne(step, l) && q != [] then q' == q[1..]
    else if step == WakeupAll(l) then q' == []
    else
      || q' == q
      || (c !in q && q' == q + [c])
      || (c in q && (step.FinishWait? || step.Retry?) && (q' == Without(q, c) || q' == Without(q, c) + [c]))
  }

  ghost predicate Moves(y: Sync, step: SyncStep, l: Lid)
    requires SyncInv(y) && SyncEnabled(y, step) && l in y.lists
  {
    l in SyncApply(y, step).lists && ListMoves(y.lists[l], SyncApply(y, step).lists[l], step, l, y.s.current)
  }

  lemma ListStep(y: Sync, step: SyncStep, l: Lid)
    requires SyncInv(y) && SyncEnabled(y, step) && l in y.lists
    ensures Moves(y, step, l)
  {
    match step
    case StartWait(k, deadline) => StartMoves(y, k, deadline, l);
    case WakeupOne(k) => WakeMoves(y, k, l);
    case WakeupAll(k) => WakeAllLists(y, k, l);
    case Exit(k) => ExitMoves(y, k, l);
    case Retry => RetryMoves(y, l);
    case Contend(k) => ContendMoves(y, k, l);
    case FinishWait => FinishMoves(y, l);
    case _ =>
  }

  lemma NotListed(y: Sync, l: Lid, t: Tid)
    requires Base(y) && l in y.lists
    ensures t in y.lists[l] <==> OnList(y, l, t)
  {
    assert ListOk(y, l);
  }

  lemma StartMoves(y: Sync, k: Lid, deadline: int, l: Lid)
    requires SyncInv(y) && SyncEnabled(y, StartWait(k, deadline)) && l in y.lists
    ensures Moves(y, StartWait(k, deadline), l)
  {
    NotListed(y, l, y.s.current);
  }

  lemma WakeMoves(y: Sync, k: Lid, l: Lid)
    requires SyncInv(y) && SyncEnabled(y, WakeupOne(k)) && l in y.lists
    ensures Moves(y, WakeupOne(k), l)
  {
    WakeOneBase(y, k);
  }

  lemma ExitMoves(y: Sync, k: Lid, l: Lid)
    requires SyncInv(y) && SyncEnabled(y, Exit(k)) && l in y.lists
    ensures Moves(y, Exit(k), l)
  {
    ExitInv(y, k);
  }

  lemma ContendMoves(y: Sync, k: Lid, l: Lid)
    requires SyncInv(y) && SyncEnabled(y, Contend(k)) && l in y.lists
    ensures Moves(y, Contend(k), l)
  {
    NotListed(y, l, y.s.current);
    ContendInv(y, k);
  }

  lemma FinishMoves(y: Sync, l: Lid)
    requires SyncInv(y) && SyncEnabled(y, FinishWait) && l in y.lists
    ensures Moves(y, FinishWait, l)
  {
    NotListed(y, l, y.s.current);
    FinishWaitInv(y);
  }

  lemma RetryMoves(y: Sync, l: Lid)
    requires SyncInv(y) && SyncEnabled(y, Retry) && l in y.lists
    ensures Moves(y, Retry, l)
  {
    RetryInv(y);
    NotListed(y, l, y.s.current);
  }

  lemma {:induction false} WakeAllLists(y: Sync, k: Lid, l: Lid)
    requires Base(y) && k in y.lists && y.s.current !in y.waiting && l in y.lists
    ensures l in WakeAll(y, k).lists && WakeAll(y, k).lists[l] == if l == k then [] else y.lists[l]
    decreases |y.lists[k]|
  {
    if y.lists[k] != [] {
      WakeOneBase(y, k);
      WakeOneCaller(y, k);
      WakeAllLists(WakeOne(y, k), k, l);
    }
  }

  // ----- Places in a list

  /** `a` stands in the list, and in front of `b` if that does. */
  ghost predicate Before(q: seq<Tid>, a: Tid, b: Tid) {
    a in q && (b in q ==> Ahead(q, a) < Ahead(q, b))
  }

  lemma {:induction false} AheadWithout(q: seq<Tid>, c: Tid, a: Tid)
    requires a in q && a != c
    ensures a in Without(q, c) && Ahead(Without(q, c), a) <= Ahead(q, a)
  {
    if q[0] != a && q[0] != c {
      assert q == [q[0]] + q[1..];
      AheadWithout(q[1..], c, a);
      assert Without(q, c)[1..] == Without(q[1..], c);
    }
  }

  lemma {:induction false} BeforeWithout(q: seq<Tid>, c: Tid, a: Tid, b: Tid)
    requires Before(q, a, b) && NoDup(q) && a != c && b != c && a != b
    ensures Before(Without(q, c), a, b)
  {
    AheadWithout(q, c, a);
    if b in q && q[0] != a && q[0] != c {
      assert q == [q[0]] + q[1..] && q[0] != b;
      assert Without(q, c)[1..] == Without(q[1..], c);
      BeforeWithout(q[1..], c, a, b);
    }
    WithoutContents(q, c);
  }

  lemma {:induction false} AheadLess(q: seq<Tid>, a: Tid)
    requires a in q
    ensures Ahead(q, a) < |q|
  {
    if q[0] != a {
      AheadLess(q[1..], a);
    }
  }

  /** Somebody new goes to the end. */
  lemma BeforeAppend(q: seq<Tid>, c: Tid, a: Tid, b: Tid)
    requires Before(q, a, b) && c !in q
    ensures Before(q + [c], a, b) && Ahead(q + [c], a) == Ahead(q, a)
  {
    AheadAppend(q, [c], a);
    if b == c {
      AheadLast(q, c);
      AheadLess(q, a);
    } else if b in q {
      AheadAppend(q, [c], b);
    }
  }

  lemma TailPlace(q: seq<Tid>, a: Tid)
    requires a in q && NoDup(q) && a in q[1..]
    ensures q[0] != a && Ahead(q[1..], a) == Ahead(q, a) - 1
  {
    assert forall i :: 0 <= i < |q[1..]| ==> q[1..][i] == q[i + 1];
  }

  /** No step puts `b` in front of `a`, and a wakeup takes one off from in front of `a`. */
  lemma PlaceKept(q: seq<Tid>, q': seq<Tid>, step: SyncStep, l: Lid, c: Tid, a: Tid, b: Tid)
    requires ListMoves(q, q', step, l, c) && Before(q, a, b) && NoDup(q) && a != b && a in q'
    requires !((step.FinishWait? || step.Retry?) && c == a)
    ensures Before(q', a, b)
    ensures Ahead(q', a) + (if WakesOne(step, l) then 1 else 0) <= Ahead(q, a)
  {
    if WakesOne(step, l) && q != [] {
      TailPlace(q, a);
      if b in q[1..] {
        TailPlace(q, b);
      }
    } else if q' == q {
    } else if c !in q {
      BeforeAppend(q, c, a, b);
    } else {
      WithoutContents(q, c);
      AheadWithout(q, c, a);
      if b != c {
        BeforeWithout(q, c, a, b);
      }
      BeforeAppend(Without(q, c), c, a, b);
    }
  }

  // ----- Runs

  /** `t` is on list `l` at every point of the run, and does not return from `wait` in it. */
  ghost predicate StaysOn(from: Sync, steps: seq<SyncStep>, l: Lid, t: Tid)
    requires SyncInv(from)
    decreases |steps|
  {
    OnList(from, l, t) &&
    (steps == [] ||
     (SyncEnabled(from, steps[0]) && !Finishes(from, steps[0], t)
      && (SyncStepInv(from, steps[0]); StaysOn(SyncApply(from, steps[0]), steps[1..], l, t))))
  }

  /** Wakeups on `l` in the run. */
  ghost function Wakeups(steps: seq<SyncStep>, l: Lid): nat {
    if steps == [] then 0 else (if WakesOne(steps[0], l) then 1 else 0) + Wakeups(steps[1..], l)
  }

  ghost predicate InFront(y: Sync, l: Lid, a: Tid, b: Tid) {
    l in y.lists && OnList(y, l, a) && Before(y.lists[l], a, b)
  }

  lemma Listed(y: Sync, l: Lid, t: Tid)
    requires Base(y) && OnList(y, l, t)
    ensures l in y.lists && t in y.lists[l] && NoDup(y.lists[l])
  {
    assert WaiterOk(y, t) && ListOk(y, l);
  }

  lemma OrderStep(y: Sync, step: SyncStep, l: Lid, a: Tid, b: Tid)
    requires SyncInv(y) && SyncEnabled(y, step) && SyncInv(SyncApply(y, step)) && a != b
    requires InFront(y, l, a, b) && OnList(SyncApply(y, step), l, a) && !Finishes(y, step, a)
    ensures InFront(SyncApply(y, step), l, a, b)
    ensures Ahead(SyncApply(y, step).lists[l], a) + (if WakesOne(step, l) then 1 else 0) <= Ahead(y.lists[l], a)
  {
    Listed(y, l, a);
    Listed(SyncApply(y, step), l, a);
    ListStep(y, step, l);
    PlaceKept(y.lists[l], SyncApply(y, step).lists[l], step, l, y.s.current, a, b);
  }

  lemma {:induction false} OrderKept(from: Sync, steps: seq<SyncStep>, y: Sync, l: Lid, a: Tid, b: Tid)
    requires SyncInv(from) && SyncRun(from, steps, y) && StaysOn(from, steps, l, a) && a != b && InFront(from, l, a, b)
    ensures InFront(y, l, a, b) && Ahead(y.lists[l], a) + Wakeups(steps, l) <= Ahead(from.lists[l], a)
    decreases |steps|
  {
    if steps != [] {
      var next := SyncApply(from, steps[0]);
      SyncStepInv(from, steps[0]);
      OrderStep(from, steps[0], l, a, b);
      OrderKept(next, steps[1..], y, l, a, b);
    }
  }

  /**
    First come, first served: `a` was on the list before `b` was; as long as `a` is waiting, no
    wakeup takes `b` off, however often `b` gives up and comes back.
   */
  lemma FirstComeFirstServed(from: Sync, steps: seq<SyncStep>, y: Sync, l: Lid, a: Tid, b: Tid, step: SyncStep)
    requires SyncInv(from) && OnList(from, l, a) && !OnList(from, l, b)
    requires SyncRun(from, steps, y) && StaysOn(from, steps, l, a)
    requires SyncInv(y) && SyncEnabled(y, step) && WakesOne(step, l)
    ensures Pending(SyncApply(y, step), l, b) ==> Pending(y, l, b)
  {
    Listed(from, l, a);
    NotListed(from, l, b);
    OrderKept(from, steps, y, l, a, b);
    Listed(y, l, a);
    if Pending(SyncApply(y, step), l, b) && !Pending(y, l, b) {
      OnlyHeadWoken(y, step, l, b);
    }
  }

  /** A wakeup makes nobody pending but the head. */
  lemma OnlyHeadWoken(y: Sync, step: SyncStep, l: Lid, b: Tid)
    requires SyncInv(y) && SyncEnabled(y, step) && WakesOne(step, l)
    requires Pending(SyncApply(y, step), l, b) && !Pending(y, l, b)
    ensures l in y.lists && y.lists[l] != [] && y.lists[l][0] == b
  {
    if step == WakeupOne(l) {
      WakeOneWaiters(y, l);
    } else {
      ExitInv(y, l);
      WakeOneWaiters(Give(y, l), l);
    }
  }

  lemma NotYetBorn(y: Sync, l: Lid, a: Tid)
    requires Base(y) && OnList(y, l, a) && l in y.lists
    ensures a != y.s.nextId && y.s.nextId !in y.lists[l]
  {
    assert WaiterOk(y, a);
    NotListed(y, l, y.s.nextId);
    assert y.s.nextId in y.waiting ==> WaiterOk(y, y.s.nextId);
  }

  /** A waiter with `n` others in front is woken by the wakeup with number `n + 1` at the latest. */
  lemma TurnComes(from: Sync, steps: seq<SyncStep>, y: Sync, l: Lid, a: Tid)
    requires SyncInv(from) && OnList(from, l, a) && SyncRun(from, steps, y) && StaysOn(from, steps, l, a)
    ensures l in from.lists && a in from.lists[l] && Wakeups(steps, l) <= Ahead(from.lists[l], a)
  {
    var b := from.s.nextId;
    Listed(from, l, a);
    NotYetBorn(from, l, a);
    OrderKept(from, steps, y, l, a, b);
  }

  // ----- What the calls achieve

  /** Leaving a mutex frees it, and its first waiter, if there is one, is on its way. */
  lemma ExitFrees(y: Sync, m: Lid)
    requires SyncInv(y) && SyncEnabled(y, Exit(m))
    ensures
      var y' := SyncApply(y, Exit(m));
      && m in y'.mutexes && !y'.mutexes[m].v && (forall t: Tid :: (t, m) !in y'.held)
      && m in y.lists && (y.lists[m] != [] ==> Pending(y', m, y.lists[m][0]))
  {
    ExitInv(y, m);
    WakeOneWaiters(Give(y, m), m);
    assert MutexOk(y, m);
  }

  /** Trying, contending or retrying succeeds exactly when the mutex is free; else one waits. */
  lemma EntersWhenFree(y: Sync, step: SyncStep, m: Lid)
    requires SyncInv(y) && SyncEnabled(y, step)
    requires step == TryEnter(m) || step == Contend(m) || (step == Retry && y.waiting[y.s.current].list == m)
    ensures m in y.mutexes
    ensures (y.s.current, m) in SyncApply(y, step).held <==> !y.mutexes[m].v
    ensures y.mutexes[m].v && step != TryEnter(m) ==> OnList(SyncApply(y, step), m, y.s.current)
  {
    match step
    case TryEnter(_) => assert MutexOk(y, m);
    case Contend(_) => ContendEnters(y, m);
    case Retry => RetryEnters(y);
  }

  lemma ContendEnters(y: Sync, m: Lid)
    requires SyncInv(y) && SyncEnabled(y, Contend(m))
    ensures (y.s.current, m) in SyncApply(y, Contend(m)).held <==> !y.mutexes[m].v
    ensures y.mutexes[m].v ==> OnList(SyncApply(y, Contend(m)), m, y.s.current)
  {
    assert MutexOk(y, m);
  }

  lemma RetryEnters(y: Sync)
    requires SyncInv(y) && SyncEnabled(y, Retry)
    ensures
      var m, y' := y.waiting[y.s.current].list, SyncApply(y, Retry);
      && ((y.s.current, m) in y'.held <==> !y.mutexes[m].v)
      && (y.mutexes[m].v ==> OnList(y', m, y.s.current))
  {
    assert WaiterOk(y, y.s.current) && MutexOk(y, y.waiting[y.s.current].list);
  }

  /** All who are on the list are taken off, and nobody else is. */
  lemma WakesAll(y: Sync, l: Lid, t: Tid)
    requires SyncInv(y) && SyncEnabled(y, WakeupAll(l))
    ensures l in SyncApply(y, WakeupAll(l)).lists && SyncApply(y, WakeupAll(l)).lists[l] == []
    ensures Pending(SyncApply(y, WakeupAll(l)), l, t) <==> t in y.lists[l] || Pending(y, l, t)
  {
    WakeAllLists(y, l, l);
    NotListed(y, l, t);
    WakeAllWaiters(y, l);
    if t in y.waiting {
      WakeAllEmpties(y, l, t);
    }
  }

  lemma {:induction false} WakeAllWaiters(y: Sync, l: Lid)
    requires Base(y) && l in y.lists && y.s.current !in y.waiting
    ensures WakeAll(y, l).waiting.Keys == y.waiting.Keys
    decreases |y.lists[l]|
  {
    if y.lists[l] != [] {
      WakeOneBase(y, l);
      WakeOneWaiters(y, l);
      WakeOneCaller(y, l);
      WakeAllWaiters(WakeOne(y, l), l);
    }
  }

  /** A thread that returns from `wait` is on no list any more. */
  lemma ReturnsOff(y: Sync, l: Lid)
    requires SyncInv(y) && SyncEnabled(y, FinishWait) && l in y.lists
    ensures
      var y' := SyncApply(y, FinishWait);
      y.s.current !in y'.waiting && l in y'.lists && y.s.current !in y'.lists[l]
  {
    FinishWaitInv(y);
    NotListed(Leave(y), l, y.s.current);
  }

  /** A thread that starts to wait is on the list and sleeps until its deadline. */
  lemma StartsToWait(y: Sync, l: Lid, deadline: int)
    requires SyncInv(y) && SyncEnabled(y, StartWait(l, deadline))
    ensures
      var y' := SyncApply(y, StartWait(l, deadline));
      OnList(y', l, y.s.current) && Sleeps(y'.s, y.s.current, deadline) && y'.mutexes == y.mutexes
  {
    PreparesToSleep(y.s, deadline);
  }
}
