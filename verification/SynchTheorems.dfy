/** What holds of wait lists and mutexes in every reachable state, and along every run. */
module SynchTheorems {
  import opened Queues
  import opened Sched
  import opened SchedTheorems
  import opened Synch

  function Start(): Sync {
    Sync(Initial(), map[], map[], map[], {})
  }

  ghost predicate SyncRun(from: Sync, steps: seq<SyncStep>, y: Sync)
    requires SyncInv(from)
    decreases |steps|
  {
    if steps == [] then y == from
    else SyncEnabled(from, steps[0]) && (SyncStepInv(from, steps[0]); SyncRun(SyncApply(from, steps[0]), steps[1..], y))
  }

  lemma StartInv()
    ensures SyncInv(Start())
  {
    InitialInv();
  }

  ghost predicate SyncReachable(y: Sync) {
    StartInv();
    exists steps :: SyncRun(Start(), steps, y)
  }

  lemma {:induction false} SyncRunInv(from: Sync, steps: seq<SyncStep>, y: Sync)
    requires SyncInv(from) && SyncRun(from, steps, y)
    ensures SyncInv(y)
    decreases |steps|
  {
    if steps != [] {
      SyncStepInv(from, steps[0]);
      SyncRunInv(SyncApply(from, steps[0]), steps[1..], y);
    }
  }

  lemma SyncReachableInv(y: Sync)
    requires SyncReachable(y)
    ensures SyncInv(y)
  {
    StartInv();
    var steps :| SyncRun(Start(), steps, y);
    SyncRunInv(Start(), steps, y);
  }

  // ----- Mutexes

  /** At most one thread is inside a mutex, and the mutex knows which. */
  lemma MutualExclusion(y: Sync, m: Lid, t: Tid, u: Tid)
    requires SyncReachable(y) && (t, m) in y.held && (u, m) in y.held
    ensures t == u && m in y.mutexes && y.mutexes[m] == Mutex(true, Some(t))
  {
    SyncReachableInv(y);
    assert MutexOk(y, m);
  }

  /** A mutex is entered by the running thread, and only when nobody is inside. */
  lemma EntersOnlyFree(y: Sync, step: SyncStep, t: Tid, m: Lid)
    requires SyncReachable(y) && SyncInv(y) && SyncEnabled(y, step)
    requires (t, m) in SyncApply(y, step).held && (t, m) !in y.held
    ensures t == y.s.current && forall u: Tid :: (u, m) !in y.held
  {
    assert m in y.mutexes ==> MutexOk(y, m);
    match step
    case WakeupOne(l) => WakeOneBase(y, l);
    case WakeupAll(l) => WakeAllHeld(y, l);
    case Exit(k) => ExitInv(y, k);
    case Retry => RetryInv(y);
    case Contend(k) => ContendInv(y, k);
    case _ =>
  }

  lemma {:induction false} WakeAllHeld(y: Sync, l: Lid)
    requires Base(y) && l in y.lists && y.s.current !in y.waiting
    ensures WakeAll(y, l).held == y.held && WakeAll(y, l).mutexes == y.mutexes
    decreases |y.lists[l]|
  {
    if y.lists[l] != [] {
      WakeOneBase(y, l);
      WakeOneCaller(y, l);
      WakeAllHeld(WakeOne(y, l), l);
    }
  }

  /** A free mutex is never left to sleeping waiters: one is ready to run and to retry. */
  lemma FreeMutexHasRetrier(y: Sync, m: Lid)
    requires SyncReachable(y) && m in y.mutexes && !y.mutexes[m].v && m in y.lists && y.lists[m] != []
    ensures exists t: Tid :: Pending(y, m, t) && t in y.s.threads && Ready(y.s, t)
  {
    SyncReachableInv(y);
    assert NotForgotten(y, m);
    var t: Tid :| Pending(y, m, t);
    assert WaiterOk(y, t);
  }

  // ----- Waiting

  /** The thread `t` leaves `wait` in this step. */
  predicate Finishes(y: Sync, step: SyncStep, t: Tid) {
    (step.FinishWait? || step.Retry?) && t == y.s.current
  }

  /** What `wait` returns to the current thread: whether it was woken rather than timed out. */
  predicate Succeeds(y: Sync)
    requires y.s.current in y.waiting
  {
    !y.waiting[y.s.current].onlist
  }

  /** A wakeup on a list that is not empty takes off its head, which is ready, and no other. */
  lemma WakesExactlyOne(y: Sync, l: Lid)
    requires SyncReachable(y) && SyncEnabled(y, WakeupOne(l)) && y.lists[l] != []
    ensures SyncInv(y)
    ensures
      var y', h := SyncApply(y, WakeupOne(l)), y.lists[l][0];
      && y'.lists == y.lists[l := y.lists[l][1..]]
      && Pending(y', l, h) && !Pending(y, l, h) && h in y'.s.threads && Ready(y'.s, h)
      && y'.waiting.Keys == y.waiting.Keys
      && forall t: Tid :: t in y.waiting && t != h ==> y'.waiting[t] == y.waiting[t]
  {
    SyncReachableInv(y);
    WakeOneWaiters(y, l);
    HeadWakes(y, l);
  }

  lemma {:induction false} WakeAllPending(y: Sync, l: Lid, k: Lid, t: Tid)
    requires Base(y) && l in y.lists && y.s.current !in y.waiting && Pending(y, k, t)
    ensures Pending(WakeAll(y, l), k, t)
    decreases |y.lists[l]|
  {
    if y.lists[l] != [] {
      WakeOneBase(y, l);
      WakeOneCaller(y, l);
      assert ListOk(y, l) && y.lists[l][0] in y.lists[l];
      WakeAllPending(WakeOne(y, l), l, k, t);
    }
  }

  lemma ExitPending(y: Sync, m: Lid, l: Lid, t: Tid)
    requires SyncInv(y) && SyncEnabled(y, Exit(m)) && Pending(y, l, t)
    ensures Pending(SyncApply(y, Exit(m)), l, t)
  {
    ExitInv(y, m);
    WakeOneWaiters(Give(y, m), m);
  }

  lemma RetryPending(y: Sync, l: Lid, t: Tid)
    requires SyncInv(y) && SyncEnabled(y, Retry) && Pending(y, l, t) && t != y.s.current
    ensures Pending(SyncApply(y, Retry), l, t)
  {
    RetryInv(y);
  }

  lemma ContendPending(y: Sync, m: Lid, l: Lid, t: Tid)
    requires SyncInv(y) && SyncEnabled(y, Contend(m)) && Pending(y, l, t)
    ensures Pending(SyncApply(y, Contend(m)), l, t)
  {
    ContendInv(y, m);
  }

  lemma FinishPending(y: Sync, l: Lid, t: Tid)
    requires SyncInv(y) && SyncEnabled(y, FinishWait) && Pending(y, l, t) && t != y.s.current
    ensures Pending(SyncApply(y, FinishWait), l, t)
  {
    FinishWaitInv(y);
  }

  /** Once taken off, a waiter stays off until it returns. */
  lemma StaysPending(y: Sync, step: SyncStep, l: Lid, t: Tid)
    requires SyncInv(y) && SyncEnabled(y, step) && Pending(y, l, t) && !Finishes(y, step, t)
    ensures Pending(SyncApply(y, step), l, t)
  {
    match step
    case WakeupOne(k) => WakeOneWaiters(y, k);
    case WakeupAll(k) => WakeAllPending(y, k, l, t);
    case Exit(k) => ExitPending(y, k, l, t);
    case Retry => RetryPending(y, l, t);
    case Contend(k) => ContendPending(y, k, l, t);
    case FinishWait => FinishPending(y, l, t);
    case _ =>
  }

  /** The thread `t` does not leave `wait` anywhere in the run. */
  ghost predicate NeverFinishes(from: Sync, steps: seq<SyncStep>, t: Tid)
    requires SyncInv(from)
    decreases |steps|
  {
    steps == [] ||
    (SyncEnabled(from, steps[0]) && !Finishes(from, steps[0], t)
     && (SyncStepInv(from, steps[0]); NeverFinishes(SyncApply(from, steps[0]), steps[1..], t)))
  }

  /**
    A thread taken off its list is ready all the way, and returns success from `wait` whenever
    it returns, no matter whether its deadline passes in between.
   */
  lemma {:induction false} WokenReturnsSuccess(from: Sync, steps: seq<SyncStep>, y: Sync, l: Lid, t: Tid)
    requires SyncInv(from) && Pending(from, l, t) && SyncRun(from, steps, y) && NeverFinishes(from, steps, t)
    ensures SyncInv(y) && Pending(y, l, t) && t in y.s.threads && Ready(y.s, t)
    ensures y.s.current == t ==> Succeeds(y)
    decreases |steps|
  {
    if steps != [] {
      StaysPending(from, steps[0], l, t);
      SyncStepInv(from, steps[0]);
      WokenReturnsSuccess(SyncApply(from, steps[0]), steps[1..], y, l, t);
    } else {
      assert WaiterOk(y, t);
    }
  }

  lemma {:induction false} WakeAllEmpties(y: Sync, l: Lid, t: Tid)
    requires Base(y) && l in y.lists && y.s.current !in y.waiting && t in y.waiting
    ensures t in WakeAll(y, l).waiting
    ensures WakeAll(y, l).waiting[t] == if y.waiting[t] == Waiter(l, true) then Waiter(l, false) else y.waiting[t]
    decreases |y.lists[l]|
  {
    assert ListOk(y, l);
    if y.lists[l] != [] {
      var h := y.lists[l][0];
      assert h in y.lists[l];
      WakeOneBase(y, l);
      WakeOneCaller(y, l);
      WakeAllEmpties(WakeOne(y, l), l, t);
    } else {
      assert t !in y.lists[l];
    }
  }

  /** Nothing but a wakeup on its own list takes a waiter off, so success means a wakeup. */
  lemma OnlyWakeupsSucceed(y: Sync, step: SyncStep, l: Lid, t: Tid)
    requires SyncInv(y) && SyncEnabled(y, step)
    requires t in y.waiting && y.waiting[t] == Waiter(l, true)
    requires Pending(SyncApply(y, step), l, t)
    ensures step == WakeupAll(l) ||
        ((step == WakeupOne(l) || step == Exit(l)) && l in y.lists && y.lists[l] != [] && y.lists[l][0] == t)
  {
    match step
    case WakeupOne(k) => WakeOneWaiters(y, k);
    case WakeupAll(k) => WakeAllEmpties(y, k, t);
    case Exit(k) => ExitWakes(y, k, l, t);
    case Retry => RetryWakesNone(y, l, t);
    case Contend(k) => ContendWakesNone(y, k, l, t);
    case FinishWait => FinishWaitInv(y);
    case _ =>
  }

  lemma ExitWakes(y: Sync, m: Lid, l: Lid, t: Tid)
    requires SyncInv(y) && SyncEnabled(y, Exit(m)) && t in y.waiting && y.waiting[t] == Waiter(l, true)
    requires Pending(SyncApply(y, Exit(m)), l, t)
    ensures m == l && l in y.lists && y.lists[l] != [] && y.lists[l][0] == t
  {
    ExitInv(y, m);
    WakeOneWaiters(Give(y, m), m);
  }

  lemma RetryWakesNone(y: Sync, l: Lid, t: Tid)
    requires SyncInv(y) && SyncEnabled(y, Retry) && t in y.waiting && y.waiting[t] == Waiter(l, true)
    ensures !Pending(SyncApply(y, Retry), l, t)
  {
    RetryInv(y);
  }

  lemma ContendWakesNone(y: Sync, m: Lid, l: Lid, t: Tid)
    requires SyncInv(y) && SyncEnabled(y, Contend(m)) && t in y.waiting && y.waiting[t] == Waiter(l, true)
    ensures !Pending(SyncApply(y, Contend(m)), l, t)
  {
    ContendInv(y, m);
  }
}
