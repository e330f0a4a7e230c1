/** Wait lists and mutexes updated in place, each method proved to take its step. */
module SynchCode {
  import opened Queues
  import opened Sched
  import opened Synch
  import opened SchedCode

  class Locks {
    const sched: Scheduler
    var lists: map<Lid, seq<Tid>>
    var waiting: map<Tid, Waiter>
    var mutexes: map<Lid, Mutex>
    /** History, not stored by the program. */
    ghost var held: set<(Tid, Lid)>

    ghost function View(): Sync
      reads this, sched
    {
      Sync(sched.View(), lists, waiting, mutexes, held)
    }

    constructor (s: Scheduler)
      requires Inv(s.View())
      ensures sched == s && View() == Sync(s.View(), map[], map[], map[], {}) && SyncInv(View())
    {
      sched := s;
      lists, waiting, mutexes, held := map[], map[], map[], {};
    }

    /** `rumpuser_mutex_init`. */
    method MutexInit(m: Lid)
      requires SyncInv(View()) && SyncEnabled(View(), InitMutex(m))
      modifies this
      ensures View() == SyncApply(old(View()), InitMutex(m)) && SyncInv(View())
    {
      SyncStepInv(View(), InitMutex(m));
      lists, mutexes := lists[m := []], mutexes[m := Mutex(false, None)];
    }

    /** The first half of `wait`: join the tail of the list and prepare to block. */
    method Enlist(l: Lid, deadline: int)
      requires Inv(View().s) && Free(View().s) && l in lists
      modifies this, sched
      ensures View() == Synch.Enlist(old(View()), l, deadline)
    {
      waiting := waiting[sched.current := Waiter(l, true)];
      lists := lists[l := lists[l] + [sched.current]];
      sched.Prepare(deadline);
    }

    /** `wait` up to the call of `bmk_sched_block`; a relative timeout counts from `now`. */
    method Wait(l: Lid, timeout: int, now: int)
      requires SyncInv(View())
      requires SyncEnabled(View(), StartWait(l, if timeout != INFTIME then now + timeout else INFTIME))
      modifies this, sched
      ensures SyncInv(View())
      ensures View() == SyncApply(old(View()), StartWait(l, if timeout != INFTIME then now + timeout else INFTIME))
    {
      var deadline := timeout;
      if deadline != INFTIME {
        deadline := deadline + now;
      }
      SyncStepInv(View(), StartWait(l, deadline));
      Enlist(l, deadline);
    }

    /** The second half of `wait`: off the list when a timeout ended it. */
    method Leave() returns (timedOut: bool)
      requires sched.current in waiting && waiting[sched.current].list in lists
      modifies this
      ensures View() == Synch.Leave(old(View())) && timedOut == old(waiting)[sched.current].onlist
    {
      var w := waiting[sched.current];
      if w.onlist {
        lists := lists[w.list := Without(lists[w.list], sched.current)];
      }
      waiting := waiting - {sched.current};
      timedOut := w.onlist;
    }

    /** `wait` after `bmk_sched_block` has returned. */
    method WaitReturn() returns (timedOut: bool)
      requires SyncInv(View()) && SyncEnabled(View(), FinishWait)
      modifies this
      ensures View() == SyncApply(old(View()), FinishWait) && SyncInv(View())
      ensures timedOut == old(waiting[sched.current].onlist)
    {
      SyncStepInv(View(), FinishWait);
      assert WaiterOk(View(), sched.current);
      timedOut := Leave();
    }

    /** `wakeup_one`. */
    method WakeupFirst(l: Lid)
      requires CanWake(View(), l)
      modifies this, sched
      ensures View() == WakeOne(old(View()), l)
    {
      if lists[l] != [] {
        var h := lists[l][0];
        lists := lists[l := lists[l][1..]];
        waiting := waiting[h := Waiter(l, false)];
        sched.WakeThread(h);
      }
    }

    method WakeupOne(l: Lid)
      requires SyncInv(View()) && SyncEnabled(View(), SyncStep.WakeupOne(l))
      modifies this, sched
      ensures View() == SyncApply(old(View()), SyncStep.WakeupOne(l)) && SyncInv(View())
    {
      SyncStepInv(View(), SyncStep.WakeupOne(l));
      WakeOneBase(View(), l);
      WakeupFirst(l);
    }

    /** `wakeup_all`. */
    method WakeupAll(l: Lid)
      requires SyncInv(View()) && SyncEnabled(View(), SyncStep.WakeupAll(l))
      modifies this, sched
      ensures View() == SyncApply(old(View()), SyncStep.WakeupAll(l)) && SyncInv(View())
    {
      SyncStepInv(View(), SyncStep.WakeupAll(l));
      while lists[l] != []
        invariant Base(View()) && l in lists && sched.current !in waiting
        invariant WakeAll(View(), l) == WakeAll(old(View()), l)
        decreases if l in lists then |lists[l]| else 0
      {
        WakeOneBase(View(), l);
        WakeOneCaller(View(), l);
        WakeupFirst(l);
      }
    }

    /** `rumpuser_mutex_tryenter`. */
    method TryTake(m: Lid) returns (ok: bool)
      requires m in mutexes && mutexes[m].owner != Some(sched.current)
      modifies this
      ensures ok == !old(mutexes)[m].v
      ensures View() == if ok then Take(old(View()), m) else old(View())
    {
      if mutexes[m].v {
        return false;
      }
      mutexes := mutexes[m := Mutex(true, Some(sched.current))];
      held := held + {(sched.current, m)};
      ok := true;
    }

    method MutexTryEnter(m: Lid) returns (ok: bool)
      requires SyncInv(View()) && SyncEnabled(View(), TryEnter(m))
      modifies this
      ensures View() == SyncApply(old(View()), TryEnter(m)) && SyncInv(View())
      ensures ok <==> (sched.current, m) in held
      ensures ok == !old(mutexes)[m].v
    {
      SyncStepInv(View(), TryEnter(m));
      assert MutexOk(View(), m);
      ok := TryTake(m);
    }

    /** A turn of the loop in `rumpuser_mutex_enter`, up to the context switch if it must wait. */
    method EnterTurn(m: Lid) returns (entered: bool)
      requires SyncInv(View()) && SyncEnabled(View(), Contend(m))
      modifies this, sched
      ensures View() == SyncApply(old(View()), Contend(m)) && SyncInv(View())
      ensures entered == !old(mutexes)[m].v
    {
      SyncStepInv(View(), Contend(m));
      assert MutexOk(View(), m);
      entered := TryTake(m);
      if !entered {
        Enlist(m, INFTIME);
      }
    }

    /** A later turn, when `wait` has returned to the loop. */
    method EnterAgain(m: Lid) returns (entered: bool)
      requires SyncInv(View()) && SyncEnabled(View(), Retry) && m == waiting[sched.current].list
      modifies this, sched
      ensures View() == SyncApply(old(View()), Retry) && SyncInv(View())
      ensures entered == !old(mutexes)[m].v
    {
      SyncStepInv(View(), Retry);
      assert WaiterOk(View(), sched.current) && MutexOk(View(), m);
      var timedOut := Leave();
      entered := TryTake(m);
      if !entered {
        Enlist(m, INFTIME);
      }
    }

    /** `rumpuser_mutex_exit`. */
    method MutexExit(m: Lid)
      requires SyncInv(View()) && SyncEnabled(View(), Exit(m))
      modifies this, sched
      ensures View() == SyncApply(old(View()), Exit(m)) && SyncInv(View())
    {
      SyncStepInv(View(), Exit(m));
      ExitInv(View(), m);
      mutexes := mutexes[m := Mutex(false, None)];
      held := held - {(sched.current, m)};
      WakeupFirst(m);
    }
  }
}
