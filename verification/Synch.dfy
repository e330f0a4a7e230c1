/**
  Wait lists and mutexes of the rump kernel interface, as steps on top of the scheduler. A
  thread is inside `wait` from the moment it joins a list until the code behind
  `bmk_sched_block` has run; in between any other step may happen.
 */
module Synch {
  import opened Queues
  import opened Sched
  import opened SchedTheorems

  type Lid = nat

  /** `struct waiter` on the stack of a thread inside `wait`. */
  datatype Waiter = Waiter(list: Lid, onlist: bool)

  /** `struct rumpuser_mtx`; its wait list has the same identifier. */
  datatype Mutex = Mutex(v: bool, owner: Option<Tid>)

  /** `held` records, as history, who entered a mutex and has not left it. */
  datatype Sync = Sync(
    s: State,
    lists: map<Lid, seq<Tid>>,
    waiting: map<Tid, Waiter>,
    mutexes: map<Lid, Mutex>,
    held: set<(Tid, Lid)>)

  // ----- The scheduler seen by a thread inside `wait`

  /** Calls that only the code of the current thread makes. */
  predicate OwnCall(step: Step) {
    step.DoPrepare? || step.DoYield? || step.DoCreate? || step.DoExit? || step.DoJoin?
  }

  predicate Inside(s: State, t: Tid) {
    t in s.threads && t in s.pc && (s.pc[t] == InBlock || s.pc[t] == InUser)
  }

  /** Runnable, or holding the CPU with nothing left to block on. */
  predicate Ready(s: State, t: Tid)
    requires t in s.threads
  {
    s.threads[t].runq || (t == s.current && (s.mode == Resuming || (s.mode == Running && !s.threads[t].blockprep)))
  }

  /** The thread inside stays inside, and ready once it is ready, whatever the others do. */
  lemma WaiterKept(s: State, step: Step, t: Tid)
    requires Inv(s) && Enabled(s, step) && Inside(s, t)
    requires t == s.current ==> !OwnCall(step)
    ensures Inside(Apply(s, step), t)
    ensures Ready(s, t) ==> Ready(Apply(s, step), t)
  {
    var s' := Apply(s, step);
    StepInv(s, step);
    assert ThreadOk(s, t) && ThreadOk(s, s.current);
    assert s.threads[t].runq ==> Bit(s.threads[t], Runq) && t in s.runq;
    if t == s.current {
      OwnStep(s, step);
    } else {
      PcKept(s, step, t);
    }
    if t in s.runq {
      RunnableUntilDispatched(s, step, t);
      assert t in s'.runq ==> Bit(s'.threads[t], Runq);
    }
  }

  lemma OwnStep(s: State, step: Step)
    requires Inv(s) && Enabled(s, step) && Inside(s, s.current) && !OwnCall(step)
    ensures Inside(Apply(s, step), s.current)
    ensures Ready(s, s.current) && !s.threads[s.current].runq ==> Ready(Apply(s, step), s.current)
  {
    assert ThreadOk(s, s.current);
    match step
    case DoWake(u) => LiveWakeable(s, u); WakeEffect(s, u, ByWake);
    case DoBlock =>
    case DoTick(now) => ExpireMovesDue(s, now);
    case DoReturn => assert s.current !in s.zombieq;
    case _ =>
  }

  // ----- Invariants

  ghost predicate ListOk(y: Sync, l: Lid)
    requires l in y.lists
  {
    && NoDup(y.lists[l])
    && forall t: Tid {:trigger t in y.lists[l]} :: t in y.lists[l] <==>
        t in y.waiting && y.waiting[t] == Waiter(l, true)
  }

  /** A waiter taken off its list is ready to run, and no thread waits for what it holds. */
  ghost predicate WaiterOk(y: Sync, t: Tid)
    requires t in y.waiting
  {
    var w := y.waiting[t];
    && Inside(y.s, t) && w.list in y.lists && (!w.onlist ==> Ready(y.s, t))
    && (t, w.list) !in y.held
  }

  ghost predicate MutexOk(y: Sync, m: Lid)
    requires m in y.mutexes
  {
    && m in y.lists && (y.mutexes[m].v <==> y.mutexes[m].owner.Some?)
    && forall t: Tid {:trigger (t, m) in y.held} :: (t, m) in y.held <==> y.mutexes[m].owner == Some(t)
  }

  ghost predicate Base(y: Sync) {
    && Inv(y.s)
    && (forall l: Lid {:trigger ListOk(y, l)} :: l in y.lists ==> ListOk(y, l))
    && (forall t: Tid {:trigger WaiterOk(y, t)} :: t in y.waiting ==> WaiterOk(y, t))
    && (forall m: Lid {:trigger MutexOk(y, m)} :: m in y.mutexes ==> MutexOk(y, m))
    && (forall t: Tid, m: Lid {:trigger (t, m) in y.held} :: (t, m) in y.held ==> m in y.mutexes)
  }

  /** A waiter that was taken off the list of `m` and has not tried again yet. */
  ghost predicate Pending(y: Sync, m: Lid, t: Tid) {
    t in y.waiting && y.waiting[t] == Waiter(m, false)
  }

  /** A free mutex with waiters has one of them on its way. */
  ghost predicate NotForgotten(y: Sync, m: Lid)
    requires m in y.mutexes && m in y.lists
  {
    !y.mutexes[m].v && y.lists[m] != [] ==> exists t: Tid :: Pending(y, m, t)
  }

  ghost predicate NoneForgotten(y: Sync) {
    forall m: Lid {:trigger y.mutexes[m]} :: m in y.mutexes && m in y.lists ==> NotForgotten(y, m)
  }

  ghost predicate SyncInv(y: Sync) {
    Base(y) && NoneForgotten(y)
  }

  // ----- The operations

  /** The current thread is executing its own code, not the inside of `wait`. */
  predicate Own(y: Sync) {
    y.s.mode == Running && y.s.current in y.s.pc && y.s.pc[y.s.current] == InUser && y.s.current !in y.waiting
  }

  /** `bmk_sched_block` has returned to the current thread inside `wait`. */
  predicate Returned(y: Sync) {
    Free(y.s) && y.s.current in y.waiting
  }

  /** `wait` up to the context switch: to the tail of the list, and prepare to block. */
  ghost function Enlist(y: Sync, l: Lid, deadline: int): Sync
    requires Inv(y.s) && Free(y.s) && l in y.lists
  {
    var t := y.s.current;
    y.(lists := y.lists[l := y.lists[l] + [t]], waiting := y.waiting[t := Waiter(l, true)],
       s := Apply(y.s, DoPrepare(deadline)))
  }

  /** `wait` after the context switch; the result is a timeout when still on the list. */
  function Leave(y: Sync): Sync
    requires y.s.current in y.waiting && y.waiting[y.s.current].list in y.lists
  {
    var t := y.s.current;
    var w := y.waiting[t];
    y.(waiting := y.waiting - {t},
       lists := if w.onlist then y.lists[w.list := Without(y.lists[w.list], t)] else y.lists)
  }

  ghost predicate CanWake(y: Sync, l: Lid) {
    && Inv(y.s) && l in y.lists
    && (y.lists[l] != [] ==> Enabled(y.s, DoWake(y.lists[l][0])))
  }

  /** `wakeup_one`. */
  ghost function WakeOne(y: Sync, l: Lid): Sync
    requires CanWake(y, l)
  {
    if y.lists[l] == [] then y
    else
      var h := y.lists[l][0];
      y.(lists := y.lists[l := y.lists[l][1..]], waiting := y.waiting[h := Waiter(l, false)],
         s := Apply(y.s, DoWake(h)))
  }

  function Take(y: Sync, m: Lid): Sync {
    y.(mutexes := y.mutexes[m := Mutex(true, Some(y.s.current))], held := y.held + {(y.s.current, m)})
  }

  function Give(y: Sync, m: Lid): Sync {
    y.(mutexes := y.mutexes[m := Mutex(false, None)], held := y.held - {(y.s.current, m)})
  }

  // ----- They keep the invariant

  /** Scheduler steps that leave the wait lists alone. */
  lemma SchedBase(y: Sync, step: Step)
    requires Base(y) && Enabled(y.s, step) && (OwnCall(step) ==> y.s.current !in y.waiting)
    ensures Base(y.(s := Apply(y.s, step)))
  {
    var y' := y.(s := Apply(y.s, step));
    StepInv(y.s, step);
    forall l: Lid | l in y'.lists ensures ListOk(y', l) {
      assert ListOk(y, l);
    }
    forall t: Tid | t in y'.waiting ensures WaiterOk(y', t) {
      assert WaiterOk(y, t);
      WaiterKept(y.s, step, t);
    }
    forall m: Lid | m in y'.mutexes ensures MutexOk(y', m) {
      assert MutexOk(y, m);
    }
  }

  lemma PrepareInside(s: State, deadline: int)
    requires Inv(s) && Free(s)
    ensures Inside(Apply(s, DoPrepare(deadline)), s.current)
  {
    StepInv(s, DoPrepare(deadline));
  }

  lemma EnlistBase(y: Sync, l: Lid, deadline: int)
    requires Base(y) && Free(y.s) && y.s.current !in y.waiting && l in y.lists && (y.s.current, l) !in y.held
    ensures Base(Enlist(y, l, deadline))
  {
    SchedBase(y, DoPrepare(deadline));
    PrepareInside(y.s, deadline);
    AddWaiter(y.(s := Apply(y.s, DoPrepare(deadline))), l, y.s.current);
  }

  lemma AddWaiter(y: Sync, l: Lid, t: Tid)
    requires Base(y) && t !in y.waiting && l in y.lists && (t, l) !in y.held && Inside(y.s, t)
    ensures Base(y.(lists := y.lists[l := y.lists[l] + [t]], waiting := y.waiting[t := Waiter(l, true)]))
  {
    var y' := y.(lists := y.lists[l := y.lists[l] + [t]], waiting := y.waiting[t := Waiter(l, true)]);
    assert ListOk(y, l) && t !in y.lists[l];
    forall k: Lid | k in y'.lists ensures ListOk(y', k) {
      assert ListOk(y, k) && t !in y.lists[k];
    }
    forall u: Tid | u in y'.waiting ensures WaiterOk(y', u) {
      assert u != t ==> WaiterOk(y, u);
    }
    forall m: Lid | m in y'.mutexes ensures MutexOk(y', m) {
      assert MutexOk(y, m);
    }
  }

  lemma LeaveBase(y: Sync)
    requires Base(y) && y.s.current in y.waiting && y.waiting[y.s.current].list in y.lists
    ensures Base(Leave(y))
  {
    var y', t := Leave(y), y.s.current;
    var w := y.waiting[t];
    assert ListOk(y, w.list);
    WithoutContents(y.lists[w.list], t);
    forall l: Lid | l in y'.lists ensures ListOk(y', l) {
      assert ListOk(y, l);
    }
    forall u: Tid | u in y'.waiting ensures WaiterOk(y', u) {
      assert WaiterOk(y, u);
    }
    forall m: Lid | m in y'.mutexes ensures MutexOk(y', m) {
      assert MutexOk(y, m);
    }
  }

  /** The head of a list can be woken, is not the caller, and becomes ready. */
  lemma HeadWakes(y: Sync, l: Lid)
    requires Base(y) && l in y.lists
    ensures CanWake(y, l)
    ensures y.lists[l] != [] && y.s.current !in y.waiting ==>
      Inside(Apply(y.s, DoWake(y.lists[l][0])), y.lists[l][0]) &&
        Ready(Apply(y.s, DoWake(y.lists[l][0])), y.lists[l][0])
  {
    assert ListOk(y, l);
    if y.lists[l] != [] {
      var h := y.lists[l][0];
      assert h in y.lists[l] && WaiterOk(y, h) && ThreadOk(y.s, h);
      if y.s.current !in y.waiting {
        WaiterKept(y.s, DoWake(h), h);
        LiveWakeable(y.s, h);
        WakeEffect(y.s, h, ByWake);
      }
    }
  }

  /** A wakeup changes one entry among the waiters: the head, which was on the list. */
  lemma WakeOneWaiters(y: Sync, l: Lid)
    requires Base(y) && l in y.lists
    ensures CanWake(y, l)
    ensures y.lists[l] == [] ==> WakeOne(y, l).waiting == y.waiting
    ensures y.lists[l] != [] ==>
      && y.lists[l][0] in y.waiting && y.waiting[y.lists[l][0]] == Waiter(l, true)
      && WakeOne(y, l).waiting == y.waiting[y.lists[l][0] := Waiter(l, false)]
  {
    HeadWakes(y, l);
    assert ListOk(y, l) && (y.lists[l] != [] ==> y.lists[l][0] in y.lists[l]);
  }

  lemma WakeOneBase(y: Sync, l: Lid)
    requires Base(y) && l in y.lists && y.s.current !in y.waiting
    ensures CanWake(y, l) && Base(WakeOne(y, l))
  {
    HeadWakes(y, l);
    if y.lists[l] != [] {
      SchedBase(y, DoWake(y.lists[l][0]));
      DropHead(y.(s := Apply(y.s, DoWake(y.lists[l][0]))), l);
    }
  }

  lemma DropHead(y: Sync, l: Lid)
    requires Base(y) && l in y.lists && y.lists[l] != []
    requires Inside(y.s, y.lists[l][0]) && Ready(y.s, y.lists[l][0])
    ensures Base(y.(lists := y.lists[l := y.lists[l][1..]], waiting := y.waiting[y.lists[l][0] := Waiter(l, false)]))
  {
    var h := y.lists[l][0];
    var y' := y.(lists := y.lists[l := y.lists[l][1..]], waiting := y.waiting[h := Waiter(l, false)]);
    assert ListOk(y, l) && h in y.lists[l] && WaiterOk(y, h);
    assert y.lists[l] == [h] + y.lists[l][1..] && h !in y.lists[l][1..];
    forall k: Lid | k in y'.lists ensures ListOk(y', k) {
      assert ListOk(y, k) && (k != l ==> h !in y.lists[k]);
      assert forall t: Tid {:trigger t in y'.lists[k]} :: t in y'.lists[k] <==> t in y.lists[k] && t != h;
    }
    forall t: Tid | t in y'.waiting ensures WaiterOk(y', t) {
      assert WaiterOk(y, t);
    }
    forall m: Lid | m in y'.mutexes ensures MutexOk(y', m) {
      assert MutexOk(y, m);
    }
  }

  lemma TakeBase(y: Sync, m: Lid)
    requires Base(y) && y.s.current !in y.waiting && m in y.mutexes && !y.mutexes[m].v
    ensures Base(Take(y, m))
  {
    var y' := Take(y, m);
    assert MutexOk(y, m);
    SameLists(y, y');
    forall k: Lid | k in y'.mutexes ensures MutexOk(y', k) {
      assert MutexOk(y, k);
    }
  }

  lemma GiveBase(y: Sync, m: Lid)
    requires Base(y) && m in y.mutexes && y.mutexes[m].owner == Some(y.s.current)
    ensures Base(Give(y, m))
  {
    var y' := Give(y, m);
    assert MutexOk(y, m);
    SameLists(y, y');
    forall k: Lid | k in y'.mutexes ensures MutexOk(y', k) {
      assert MutexOk(y, k);
    }
  }

  lemma SameLists(y: Sync, y': Sync)
    requires Base(y) && y'.s == y.s && y'.lists == y.lists && y'.waiting == y.waiting
    requires forall t: Tid, m: Lid {:trigger (t, m) in y'.held} :: (t, m) in y'.held ==>
        (t, m) in y.held || t == y.s.current
    requires y.s.current in y.waiting ==> y'.held <= y.held
    ensures forall l: Lid {:trigger ListOk(y', l)} :: l in y'.lists ==> ListOk(y', l)
    ensures forall t: Tid {:trigger WaiterOk(y', t)} :: t in y'.waiting ==> WaiterOk(y', t)
  {
    forall l: Lid | l in y'.lists ensures ListOk(y', l) {
      assert ListOk(y, l);
    }
    forall t: Tid | t in y'.waiting ensures WaiterOk(y', t) {
      assert WaiterOk(y, t);
    }
  }

  /** What one list sees of the state of another is nothing. */
  lemma OthersNotForgotten(y: Sync, y': Sync, l: Lid)
    requires NoneForgotten(y)
    requires forall m: Lid {:trigger y'.mutexes[m]} :: m != l && m in y'.mutexes && m in y'.lists ==>
      m in y.mutexes && m in y.lists && y'.mutexes[m] == y.mutexes[m] && y'.lists[m] == y.lists[m]
    requires forall t: Tid {:trigger t in y.waiting} :: t in y.waiting && y.waiting[t].list != l ==>
      t in y'.waiting && y'.waiting[t] == y.waiting[t]
    requires l in y'.mutexes && l in y'.lists ==> NotForgotten(y', l)
    ensures NoneForgotten(y')
  {
    forall m: Lid | m in y'.mutexes && m in y'.lists && m != l ensures NotForgotten(y', m) {
      assert NotForgotten(y, m);
      if !y'.mutexes[m].v && y'.lists[m] != [] {
        var t: Tid :| Pending(y, m, t);
        assert Pending(y', m, t);
      }
    }
  }

  // ----- Runs

  datatype SyncStep =
    | Other(step: Step)
    | InitList(l: Lid)
    | InitMutex(m: Lid)
    | StartWait(l: Lid, deadline: int)
    | FinishWait
    | WakeupOne(l: Lid)
    | WakeupAll(l: Lid)
    | TryEnter(m: Lid)
    | Contend(m: Lid)
    | Retry
    | Exit(m: Lid)

  /**
    `TryEnter` halts when the caller is the owner, so callers are not; a mutex is left by its
    owner. `Contend` is the first turn of the loop in `rumpuser_mutex_enter`, `Retry` a later
    one, begun inside `wait`.
   */
  ghost predicate SyncEnabled(y: Sync, step: SyncStep) {
    match step
    case Other(st) => Enabled(y.s, st) && (OwnCall(st) ==> y.s.current !in y.waiting)
    case InitList(l) => Own(y) && l !in y.lists
    case InitMutex(m) => Own(y) && m !in y.lists
    case StartWait(l, deadline) => Own(y) && Free(y.s) && l in y.lists && l !in y.mutexes
    case FinishWait => Returned(y) && y.waiting[y.s.current].list !in y.mutexes
    case WakeupOne(l) => Own(y) && l in y.lists && l !in y.mutexes
    case WakeupAll(l) => Own(y) && l in y.lists && l !in y.mutexes
    case TryEnter(m) => Own(y) && m in y.mutexes && y.mutexes[m].owner != Some(y.s.current)
    case Contend(m) => Own(y) && Free(y.s) && m in y.mutexes && y.mutexes[m].owner != Some(y.s.current)
    case Retry => Returned(y) && y.waiting[y.s.current].list in y.mutexes
    case Exit(m) => Own(y) && m in y.mutexes && y.mutexes[m].owner == Some(y.s.current)
  }

  /** `wakeup_all`. */
  ghost function WakeAll(y: Sync, l: Lid): Sync
    requires Base(y) && l in y.lists && y.s.current !in y.waiting
    decreases if l in y.lists then |y.lists[l]| else 0
  {
    WakeOneBase(y, l);
    if y.lists[l] == [] then y
    else
      WakeOneCaller(y, l);
      WakeAll(WakeOne(y, l), l)
  }

  lemma WakeOneCaller(y: Sync, l: Lid)
    requires Base(y) && CanWake(y, l) && y.s.current !in y.waiting
    ensures WakeOne(y, l).s.current == y.s.current && WakeOne(y, l).s.mode == y.s.mode
    ensures WakeOne(y, l).s.current !in WakeOne(y, l).waiting
  {
    assert ListOk(y, l);
    if y.lists[l] != [] {
      assert y.lists[l][0] in y.lists[l];
      LiveWakeable(y.s, y.lists[l][0]);
    }
  }

  /** One turn of the loop of `rumpuser_mutex_enter`: take the mutex, or go and wait. */
  ghost function TakeOrWait(y: Sync, m: Lid): Sync
    requires Inv(y.s) && Free(y.s) && m in y.mutexes && m in y.lists
  {
    if y.mutexes[m].v then Enlist(y, m, INFTIME) else Take(y, m)
  }

  ghost function SyncApply(y: Sync, step: SyncStep): Sync
    requires SyncInv(y) && SyncEnabled(y, step)
  {
    match step
    case Other(st) => y.(s := Apply(y.s, st))
    case InitList(l) => y.(lists := y.lists[l := []])
    case InitMutex(m) => y.(lists := y.lists[m := []], mutexes := y.mutexes[m := Mutex(false, None)])
    case StartWait(l, deadline) => Enlist(y, l, deadline)
    case FinishWait => assert WaiterOk(y, y.s.current); Leave(y)
    case WakeupOne(l) => WakeOneBase(y, l); WakeOne(y, l)
    case WakeupAll(l) => WakeAll(y, l)
    case TryEnter(m) => if y.mutexes[m].v then y else Take(y, m)
    case Contend(m) => assert MutexOk(y, m); TakeOrWait(y, m)
    case Retry =>
      assert WaiterOk(y, y.s.current);
      TakeOrWait(Leave(y), y.waiting[y.s.current].list)
    case Exit(m) =>
      assert MutexOk(y, m);
      GiveBase(y, m);
      WakeOneBase(Give(y, m), m);
      WakeOne(Give(y, m), m)
  }

  lemma StartWaitInv(y: Sync, l: Lid, deadline: int)
    requires SyncInv(y) && SyncEnabled(y, StartWait(l, deadline))
    ensures SyncInv(Enlist(y, l, deadline))
  {
    if (y.s.current, l) in y.held {
      assert false;
    }
    EnlistBase(y, l, deadline);
    OthersNotForgotten(y, Enlist(y, l, deadline), l);
  }

  lemma FinishWaitInv(y: Sync)
    requires SyncInv(y) && SyncEnabled(y, FinishWait)
    ensures WaiterOk(y, y.s.current) && SyncInv(Leave(y))
  {
    assert WaiterOk(y, y.s.current);
    LeaveBase(y);
    OthersNotForgotten(y, Leave(y), y.waiting[y.s.current].list);
  }

  /** The woken head is pending. */
  lemma WakeOneInv(y: Sync, l: Lid)
    requires Base(y) && l in y.lists && y.s.current !in y.waiting
    requires forall m: Lid {:trigger y.mutexes[m]} :: m in y.mutexes && m in y.lists && m != l ==> NotForgotten(y, m)
    ensures CanWake(y, l) && SyncInv(WakeOne(y, l))
  {
    WakeOneBase(y, l);
    var y' := WakeOne(y, l);
    assert ListOk(y, l);
    forall m: Lid | m in y'.mutexes && m in y'.lists ensures NotForgotten(y', m) {
      if m == l {
        assert y.lists[l] != [] ==> Pending(y', l, y.lists[l][0]);
      } else {
        assert NotForgotten(y, m);
        if !y'.mutexes[m].v && y'.lists[m] != [] {
          var t: Tid :| Pending(y, m, t);
          assert y.lists[l] != [] ==> y.lists[l][0] in y.lists[l];
          assert Pending(y', m, t);
        }
      }
    }
  }

  lemma {:induction false} WakeAllInv(y: Sync, l: Lid)
    requires SyncInv(y) && l in y.lists && y.s.current !in y.waiting
    ensures SyncInv(WakeAll(y, l))
    decreases |y.lists[l]|
  {
    if y.lists[l] != [] {
      WakeOneInv(y, l);
      WakeOneCaller(y, l);
      WakeAllInv(WakeOne(y, l), l);
    }
  }

  lemma TakeOrWaitInv(y: Sync, m: Lid)
    requires Base(y) && Own(y) && Free(y.s) && m in y.mutexes && m in y.lists && (y.s.current, m) !in y.held
    requires forall k: Lid {:trigger y.mutexes[k]} :: k in y.mutexes && k in y.lists && k != m ==> NotForgotten(y, k)
    ensures SyncInv(TakeOrWait(y, m))
  {
    var y' := TakeOrWait(y, m);
    if y.mutexes[m].v {
      EnlistBase(y, m, INFTIME);
    } else {
      TakeBase(y, m);
    }
    forall k: Lid | k in y'.mutexes && k in y'.lists ensures NotForgotten(y', k) {
      if k != m {
        assert NotForgotten(y, k);
        if !y'.mutexes[k].v && y'.lists[k] != [] {
          var t: Tid :| Pending(y, k, t);
          assert Pending(y', k, t);
        }
      }
    }
  }

  lemma RetryInv(y: Sync)
    requires SyncInv(y) && SyncEnabled(y, Retry)
    ensures WaiterOk(y, y.s.current)
    ensures SyncInv(TakeOrWait(Leave(y), y.waiting[y.s.current].list))
  {
    var m := y.waiting[y.s.current].list;
    assert WaiterOk(y, y.s.current);
    LeaveBase(y);
    var y' := Leave(y);
    forall k: Lid | k in y'.mutexes && k in y'.lists && k != m ensures NotForgotten(y', k) {
      assert NotForgotten(y, k);
      if !y'.mutexes[k].v && y'.lists[k] != [] {
        var t: Tid :| Pending(y, k, t);
        assert Pending(y', k, t);
      }
    }
    TakeOrWaitInv(y', m);
  }

  lemma ExitInv(y: Sync, m: Lid)
    requires SyncInv(y) && SyncEnabled(y, Exit(m))
    ensures m in y.lists && Base(Give(y, m)) && CanWake(Give(y, m), m)
    ensures SyncInv(WakeOne(Give(y, m), m))
  {
    assert MutexOk(y, m);
    GiveBase(y, m);
    var y' := Give(y, m);
    forall k: Lid | k in y'.mutexes && k in y'.lists && k != m ensures NotForgotten(y', k) {
      assert NotForgotten(y, k);
      if !y'.mutexes[k].v && y'.lists[k] != [] {
        var t: Tid :| Pending(y, k, t);
        assert Pending(y', k, t);
      }
    }
    WakeOneInv(y', m);
  }

  lemma InitInv(y: Sync, l: Lid, mutexes: map<Lid, Mutex>)
    requires SyncInv(y) && l !in y.lists
    requires mutexes == y.mutexes || mutexes == y.mutexes[l := Mutex(false, None)]
    ensures SyncInv(y.(lists := y.lists[l := []], mutexes := mutexes))
  {
    var y' := y.(lists := y.lists[l := []], mutexes := mutexes);
    assert l in y.mutexes ==> MutexOk(y, l);
    forall k: Lid | k in y'.lists ensures ListOk(y', k) {
      assert k != l ==> ListOk(y, k);
      if k == l {
        forall t: Tid | t in y.waiting ensures y.waiting[t].list != l {
          assert WaiterOk(y, t);
        }
      }
    }
    forall t: Tid | t in y'.waiting ensures WaiterOk(y', t) {
      assert WaiterOk(y, t);
    }
    forall m: Lid | m in y'.mutexes ensures MutexOk(y', m) {
      assert m != l ==> MutexOk(y, m);
    }
    OthersNotForgotten(y, y', l);
  }

  lemma OtherInv(y: Sync, st: Step)
    requires SyncInv(y) && SyncEnabled(y, Other(st))
    ensures SyncInv(y.(s := Apply(y.s, st)))
  {
    SchedBase(y, st);
    var y' := y.(s := Apply(y.s, st));
    forall m: Lid | m in y'.mutexes && m in y'.lists ensures NotForgotten(y', m) {
      assert NotForgotten(y, m);
      if !y'.mutexes[m].v && y'.lists[m] != [] {
        var t: Tid :| Pending(y, m, t);
        assert Pending(y', m, t);
      }
    }
  }

  lemma TryEnterInv(y: Sync, m: Lid)
    requires SyncInv(y) && SyncEnabled(y, TryEnter(m)) && !y.mutexes[m].v
    ensures SyncInv(Take(y, m))
  {
    TakeBase(y, m);
    OthersNotForgotten(y, Take(y, m), m);
  }

  lemma ContendInv(y: Sync, m: Lid)
    requires SyncInv(y) && SyncEnabled(y, Contend(m))
    ensures m in y.lists && SyncInv(TakeOrWait(y, m))
  {
    assert MutexOk(y, m);
    TakeOrWaitInv(y, m);
  }

  /** Every step keeps the invariant; in particular no waiter is woken that cannot be. */
  lemma SyncStepInv(y: Sync, step: SyncStep)
    requires SyncInv(y) && SyncEnabled(y, step)
    ensures SyncInv(SyncApply(y, step))
  {
    match step
    case Other(st) => OtherInv(y, st);
    case InitList(l) => InitInv(y, l, y.mutexes);
    case InitMutex(m) => InitInv(y, m, y.mutexes[m := Mutex(false, None)]);
    case StartWait(l, deadline) => StartWaitInv(y, l, deadline);
    case FinishWait => FinishWaitInv(y);
    case WakeupOne(l) => WakeOneInv(y, l);
    case WakeupAll(l) => WakeAllInv(y, l);
    case TryEnter(m) =>
      if !y.mutexes[m].v {
        TryEnterInv(y, m);
      }
    case Contend(m) => ContendInv(y, m);
    case Retry => RetryInv(y);
    case Exit(m) => ExitInv(y, m);
  }
}
