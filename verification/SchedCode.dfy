/**
  The scheduler's data structures updated in place, call by call. Every method is proved to
  take exactly the step of the state machine that its doc comment names.
 */
module SchedCode {
  import opened Queues
  import opened Sched

  class Scheduler {
    var threads: map<Tid, Thread>
    var threadq: seq<Tid>
    var zombieq: seq<Tid>
    var runq: seq<Tid>
    var timeq: seq<Tid>
    var blockq: seq<Tid>
    var joinwq: seq<(Tid, Tid)>
    var current: Tid
    var nextId: Tid
    /** Where each thread continues: its saved context. */
    var pc: map<Tid, Pc>
    var mode: Mode
    /** History, not stored by the program. */
    ghost var freed: seq<Tid>
    ghost var joinable: set<Tid>
    ghost var released: set<Tid>

    ghost function View(): State
      reads this
    {
      State(threads, pc, threadq, zombieq, runq, timeq, blockq, joinwq, current, mode, nextId, freed, joinable,
        released)
    }

    /** The machine as `bmk_sched_startmain` hands it to the main thread. */
    constructor StartMain()
      ensures View() == Initial() && Inv(View())
    {
      threads := map[0 := Thread(INFTIME, false, false, false, true, false, false, false, false, false, ByWake)];
      threadq, zombieq, runq, timeq, blockq, joinwq := [0], [], [], [], [], [];
      current, nextId := 0, 1;
      pc, mode := map[0 := InUser], Running;
      freed, joinable, released := [], {}, {};
      new;
      InitialInv();
    }

    /** `set_runnable`. */
    method SetRunnable(t: Tid, why: Cause)
      requires t in threads && Wakeable(threads[t])
      modifies this
      ensures View() == Sched.SetRunnable(old(View()), t, why)
    {
      var th := threads[t];
      if th.runq {
        return;
      }
      if th.timeq && !th.blockq {
        timeq := Without(timeq, t);
      } else if th.blockq && !th.timeq {
        blockq := Without(blockq, t);
      } else {
        return;
      }
      threads := threads[t := th.(runq := true, timeq := false, blockq := false, cause := why)];
      runq := runq + [t];
    }

    /** `bmk_sched_wake`. */
    method Wake(t: Tid, why: Cause)
      requires t in threads && Wakeable(threads[t])
      modifies this
      ensures View() == Sched.Wake(old(View()), t, why)
    {
      threads := threads[t := threads[t].(wakeup := INFTIME)];
      SetRunnable(t, why);
    }

    /** Step `DoWake`: `bmk_sched_wake` called by a thread or an interrupt handler. */
    method WakeThread(t: Tid)
      requires Inv(View()) && Enabled(View(), DoWake(t))
      modifies this
      ensures View() == Apply(old(View()), DoWake(t)) && Inv(View())
    {
      StepInv(View(), DoWake(t));
      LiveWakeable(View(), t);
      Wake(t, ByWake);
    }

    /** `timeq_sorted_insert`. */
    method TimeqSortedInsert(t: Tid)
      requires t in threads && forall x :: x in timeq ==> x in threads
      modifies `timeq
      ensures var i := TimeqPlace(old(timeq), threads, threads[t].wakeup);
        timeq == old(timeq)[..i] + [t] + old(timeq)[i..]
    {
      var deadline := threads[t].wakeup;
      ghost var place := TimeqPlace(timeq, threads, deadline);
      for i := 0 to |timeq|
        invariant timeq == old(timeq) && place == i + TimeqPlace(timeq[i..], threads, deadline)
      {
        assert timeq[i] in timeq && timeq[i..][1..] == timeq[i + 1..];
        if threads[timeq[i]].wakeup > deadline {
          timeq := timeq[..i] + [t] + timeq[i..];
          return;
        }
      }
      assert timeq[|timeq|..] == [] && place == |timeq|;
      timeq := timeq + [t];
      assert timeq == old(timeq)[..place] + [t] + old(timeq)[place..];
    }

    /** `bmk_sched_blockprepare_timeout`, with `clear_runnable`. */
    method BlockPrepare(deadline: int)
      requires current in threads && forall x :: x in timeq ==> x in threads
      requires current !in timeq
      modifies this
      ensures View() == Sched.BlockPrepare(old(View()), deadline)
    {
      var t := current;
      var th := threads[t].(wakeup := deadline, blockprep := true);
      threads := threads[t := th];
      PlaceSame(timeq, old(threads), threads, deadline);
      if deadline != INFTIME {
        TimeqSortedInsert(t);
        threads := threads[t := th.(timeq := true)];
        assert threads == old(threads)[t := th.(timeq := true)];
      } else {
        blockq := blockq + [t];
        threads := threads[t := th.(blockq := true)];
        assert threads == old(threads)[t := th.(blockq := true)];
      }
    }

    /** Step `DoPrepare`. */
    method Prepare(deadline: int)
      requires Inv(View()) && Enabled(View(), DoPrepare(deadline))
      modifies this
      ensures View() == Apply(old(View()), DoPrepare(deadline)) && Inv(View())
    {
      StepInv(View(), DoPrepare(deadline));
      NotOnTimeq(View());
      BlockPrepare(deadline);
    }

    /** Step `DoBlock`: the assertions of `bmk_sched_block` hold and it enters `schedule`. */
    method Block()
      requires Inv(View()) && Enabled(View(), DoBlock)
      modifies this
      ensures View() == Apply(old(View()), DoBlock) && Inv(View())
    {
      StepInv(View(), DoBlock);
      EnterBlockInv(View());
      assert !threads[current].timedout && threads[current].blockprep;
      pc, mode := pc[current := InBlock], Scheduling;
    }

    /** Step `DoYield`. */
    method Yield()
      requires Inv(View()) && Enabled(View(), DoYield)
      modifies this
      ensures View() == Apply(old(View()), DoYield) && Inv(View())
    {
      StepInv(View(), DoYield);
      Requeue();
    }

    /** The caller at the tail of the run queue. */
    method Requeue()
      requires current in threads
      modifies this
      ensures View() == Sched.Yield(old(View()))
    {
      threads := threads[current := threads[current].(runq := true, running := false)];
      runq := runq + [current];
      pc, mode := pc[current := InYield], Scheduling;
    }

    /** `bmk_sched_create_withtls`. */
    method NewRunnable(join: bool) returns (t: Tid)
      modifies this
      ensures View() == Sched.Create(old(View()), join) && t == old(nextId)
    {
      t := nextId;
      threads := threads[t := NewThread(join)];
      threadq := threadq + [t];
      runq := runq + [t];
      nextId := nextId + 1;
      pc := pc[t := Virgin];
      joinable := if join then joinable + {t} else joinable;
    }

    /** Step `DoCreate`: the new thread is one that never existed before. */
    method Create(join: bool) returns (t: Tid)
      requires Inv(View()) && Enabled(View(), DoCreate(join))
      modifies this
      ensures View() == Apply(old(View()), DoCreate(join)) && Inv(View())
      ensures t !in old(threads) && t !in old(freed)
    {
      StepInv(View(), DoCreate(join));
      t := NewRunnable(join);
    }

    /** One thread of the expiry loop. */
    method ExpireHead()
      requires timeq != [] && timeq[0] in threads && Wakeable(threads[timeq[0]])
      modifies this
      ensures View() == ExpireOne(old(View()))
    {
      var t := timeq[0];
      threads := threads[t := threads[t].(timedout := true)];
      Wake(t, ByTimeout);
    }

    /** The expiry loop of `schedule`. */
    method ExpireTimeouts(now: int)
      requires Inv(View()) && mode == Scheduling
      modifies this
      ensures View() == Expire(old(View()), now)
    {
      ghost var goal := Expire(View(), now);
      while timeq != [] && (HeadAlive(View()); threads[timeq[0]].wakeup <= now)
        invariant Inv(View()) && mode == Scheduling && Expire(View(), now) == goal
        decreases |timeq|
      {
        ExpireOneInv(View());
        ExpireOneEffect(View());
        ExpireHead();
      }
    }

    /** The switch at the end of `schedule`: the head of the run queue becomes current. */
    method DispatchNext()
      requires runq != [] && runq[0] in threads && current in threads
      modifies this
      ensures View() == Dispatch(old(View()))
    {
      var next := runq[0];
      threads := threads[current := threads[current].(running := false)];
      runq := runq[1..];
      threads := threads[next := threads[next].(running := true, runq := false)];
      current := next;
      mode := Resuming;
    }

    /** How long `schedule` would idle: to the first deadline, at most a second. */
    method IdleTime(now: int) returns (waketime: int)
      requires timeq != [] ==> timeq[0] in threads
      ensures waketime <= now + BLOCKTIME_MAX
      ensures timeq != [] ==> waketime <= threads[timeq[0]].wakeup
      ensures waketime == now + BLOCKTIME_MAX || (timeq != [] && waketime == threads[timeq[0]].wakeup)
    {
      waketime := now + BLOCKTIME_MAX;
      if timeq != [] && threads[timeq[0]].wakeup < waketime {
        waketime := threads[timeq[0]].wakeup;
      }
    }

    /**
      Step `DoTick`: one round of the loop in `schedule`. Returns the time to idle until when
      nothing is runnable.
     */
    method ScheduleRound(now: int) returns (idle: Option<int>)
      requires Inv(View()) && mode == Scheduling
      modifies this
      ensures View() == Apply(old(View()), DoTick(now)) && Inv(View())
      ensures idle.None? <==> mode == Resuming
      ensures idle.Some? ==> now < idle.value <= now + BLOCKTIME_MAX
      ensures idle.Some? ==> forall t: Tid :: t in timeq ==> t in threads && idle.value <= threads[t].wakeup
    {
      ghost var was := View();
      StepInv(was, DoTick(now));
      ExpireTimeouts(now);
      EarliestFirst(was, now);
      var waketime := IdleTime(now);
      if runq == [] {
        return Some(waketime);
      }
      DispatchInv(View());
      DispatchNext();
      return None;
    }

    /** The reaper loop of `schedule`. */
    method ReapZombies()
      requires NoDup(zombieq)
      modifies this
      ensures View() == Reap(old(View()))
    {
      ghost var was, n := View(), 0;
      ReapedNone(was);
      while zombieq != []
        invariant 0 <= n <= |was.zombieq| && View() == Reaped(was, n)
        decreases |zombieq|
      {
        ReapedOne(was, n);
        FreeFirst();
        n := n + 1;
      }
      ReapedAll(was, n);
    }

    /** One dead thread is taken off the list and freed. */
    method FreeFirst()
      requires zombieq != []
      modifies this
      ensures View() == FreedFirst(old(View()))
    {
      var t := zombieq[0];
      zombieq := zombieq[1..];
      threads := threads - {t};
      pc := pc - {t};
      freed := freed + [t];
    }

    /** Step `DoExit`: `bmk_sched_exit_withtls` up to its gate. */
    method Exit()
      requires Inv(View()) && Enabled(View(), DoExit)
      modifies `pc
      ensures View() == Apply(old(View()), DoExit) && Inv(View())
    {
      StepInv(View(), DoExit);
      pc := pc[current := Leaving];
    }

    /** Step `DoJoin`: `bmk_sched_join` up to its loop. */
    method Join(t: Tid)
      requires Inv(View()) && Enabled(View(), DoJoin(t))
      modifies `pc
      ensures View() == Apply(old(View()), DoJoin(t)) && Inv(View())
    {
      StepInv(View(), DoJoin(t));
      pc := pc[current := Joining(t)];
    }

    /** The search for a waiting joiner in the exit gate. */
    method FindJoiner(t: Tid) returns (r: Option<Tid>)
      ensures r == Joiner(joinwq, t)
    {
      for i := 0 to |joinwq|
        invariant Joiner(joinwq, t) == Joiner(joinwq[i..], t)
      {
        if joinwq[i].1 == t {
          return Some(joinwq[i].0);
        }
        assert joinwq[i..][1..] == joinwq[i + 1..];
      }
      assert joinwq[|joinwq|..] == [];
      return None;
    }

    /** Announces the exit and wakes the joiner, if one is there already. */
    method WakeTheJoiner()
      requires current in threads
      requires Joiner(joinwq, current).Some? ==>
        Joiner(joinwq, current).value in threads && Joiner(joinwq, current).value != current
        && Wakeable(threads[Joiner(joinwq, current).value])
      modifies this
      ensures View() == Announced(WakeJoiner(old(View())))
    {
      ghost var was := View();
      threads := threads[current := threads[current].(joined := true)];
      var j := FindJoiner(current);
      if j.Some? {
        WakeCommutes(was, current, j.value);
        Wake(j.value, ByWake);
      }
    }

    /** The gate of a thread that must be joined. */
    method AnnounceExit()
      requires Inv(View()) && Enabled(View(), DoGate) && threads[current].mustjoin
      modifies this
      ensures View() == Gate(old(View()))
    {
      ghost var was := View();
      JoinerReady(was);
      WakeTheJoiner();
      Sleep(InExit);
      AnnounceCommutes(WakeJoiner(was), View());
    }

    /** `bmk_sched_blockprepare` and `bmk_sched_block` inside the join and exit loops. */
    method Sleep(p: Pc)
      requires current in threads && (forall x :: x in timeq ==> x in threads) && current !in timeq
      modifies this
      ensures View() == Suspend(old(View()), p)
    {
      BlockPrepare(INFTIME);
      pc, mode := pc[current := p], Scheduling;
    }

    /** The death of a thread that need not be joined, or has been. */
    method BecomeZombie()
      requires current in threads
      modifies this
      ensures View() == Die(old(View()))
    {
      var t := current;
      threadq := Without(threadq, t);
      threads := threads[t := threads[t].(dead := true, running := false)];
      zombieq := [t] + zombieq;
      pc, mode := pc[t := Gone], Scheduling;
    }

    /** Step `DoGate`: one pass through the loop of `bmk_sched_exit_withtls`. */
    method ExitGate()
      requires Inv(View()) && Enabled(View(), DoGate)
      modifies this
      ensures View() == Apply(old(View()), DoGate) && Inv(View())
    {
      StepInv(View(), DoGate);
      if threads[current].mustjoin {
        AnnounceExit();
      } else {
        BecomeZombie();
      }
    }

    /** The end of `bmk_sched_join`. */
    method ReleaseTarget(t: Tid)
      requires current in pc && pc[current] == Joining(t) && t in threads && Wakeable(threads[t])
      modifies this
      ensures View() == Release(old(View()))
    {
      WakeReleased(t);
      released := released + {t};
      pc := pc[current := InUser];
    }

    /** Clears the flag of the target and wakes it. */
    method WakeReleased(t: Tid)
      requires t in threads && Wakeable(threads[t])
      modifies this
      ensures
        var s := Sched.Wake(old(View()), t, ByWake);
        t in s.threads && View() == s.(threads := s.threads[t := s.threads[t].(mustjoin := false)])
    {
      ReleaseCommutes(View(), t);
      threads := threads[t := threads[t].(mustjoin := false)];
      Wake(t, ByWake);
    }

    /** Step `DoTest`: one test of the loop of `bmk_sched_join`. */
    method JoinRound()
      requires Inv(View()) && Enabled(View(), DoTest)
      modifies this
      ensures View() == Apply(old(View()), DoTest) && Inv(View())
    {
      StepInv(View(), DoTest);
      assert JoinerOk(View(), current) && ThreadOk(View(), current);
      var t := pc[current].target;
      if threads[t].joined {
        ReleaseInv(View());
        ReleaseTarget(t);
      } else {
        Await(t);
      }
    }

    /** Blocks until the target has announced its exit. */
    method Await(t: Tid)
      requires current in threads && (forall x :: x in timeq ==> x in threads) && current !in timeq
      requires current in pc && pc[current] == Joining(t)
      modifies this
      ensures View() == JoinWait(old(View()))
    {
      joinwq := joinwq + [(current, t)];
      Sleep(InJoin(t));
    }

    /** The tail of the call that had entered `schedule`. */
    method FinishCall() returns (timedout: bool)
      requires current in threads && current in pc
      modifies this
      ensures View() == Continue(old(View()))
      ensures timedout == (Blocking(old(pc[current])) && old(threads[current].timedout))
    {
      var p := pc[current];
      timedout := false;
      if Blocking(p) {
        timedout := threads[current].timedout;
        threads := threads[current := threads[current].(timedout := false, blockprep := false)];
      }
      if p.InJoin? {
        joinwq := Without(joinwq, (current, p.target));
      }
      pc := pc[current := Back(p)];
      mode := Running;
    }

    /**
      Step `DoReturn`: `schedule` returns in the thread switched to, which reaps the zombies
      unless it is new and then finishes its call; a blocking call reports a timeout exactly
      when the expiry pass woke it.
     */
    method Resume() returns (timedout: bool)
      requires Inv(View()) && mode == Resuming
      modifies this
      ensures View() == Apply(old(View()), DoReturn) && Inv(View())
      ensures timedout <==> Blocking(old(pc[current])) && old(threads[current].cause) == ByTimeout
    {
      ghost var was := View();
      StepInv(was, DoReturn);
      assert ThreadOk(was, current);
      if pc[current] != Virgin {
        ReapInv(was);
        ReapZombies();
      }
      timedout := FinishCall();
    }
  }

  function FreedFirst(s: State): State
    requires s.zombieq != []
  {
    var t := s.zombieq[0];
    s.(zombieq := s.zombieq[1..], threads := s.threads - {t}, pc := s.pc - {t}, freed := s.freed + [t])
  }

  function Elements(q: seq<Tid>): set<Tid> {
    set t | t in q
  }

  /** The state with the first `n` dead threads freed. */
  ghost function Reaped(s: State, n: nat): State
    requires n <= |s.zombieq|
  {
    var Z := Elements(s.zombieq[..n]);
    s.(threads := s.threads - Z, pc := s.pc - Z, freed := s.freed + s.zombieq[..n], zombieq := s.zombieq[n..])
  }

  lemma ReapedNone(s: State)
    ensures Reaped(s, 0) == s
  {
    assert s.zombieq[..0] == [] && s.zombieq[0..] == s.zombieq && Elements([]) == {};
    assert s.threads - {} == s.threads && s.pc - {} == s.pc;
  }

  lemma ReapedOne(s: State, n: nat)
    requires n <= |s.zombieq| && Reaped(s, n).zombieq != []
    ensures n < |s.zombieq| && Reaped(s, n + 1) == FreedFirst(Reaped(s, n))
  {
    var q, t := s.zombieq, s.zombieq[n];
    assert q[..n + 1] == q[..n] + [t] && q[n..][1..] == q[n + 1..];
    var Z, Z' := Elements(q[..n]), Elements(q[..n + 1]);
    assert Z' == Z + {t};
    assert s.threads - Z' == s.threads - Z - {t} && s.pc - Z' == s.pc - Z - {t};
    assert s.freed + q[..n + 1] == s.freed + q[..n] + [t];
  }

  lemma ReapedAll(s: State, n: nat)
    requires n <= |s.zombieq| && Reaped(s, n).zombieq == []
    ensures Reaped(s, n) == Reap(s)
  {
    assert s.zombieq[..n] == s.zombieq;
  }

  lemma NotOnTimeq(s: State)
    requires Inv(s) && Free(s)
    ensures s.current !in s.timeq
  {
    assert ThreadOk(s, s.current);
  }

  lemma HeadAlive(s: State)
    requires Inv(s) && s.timeq != []
    ensures s.timeq[0] in s.threads
  {
    assert s.timeq[0] in s.timeq;
  }

  lemma EarliestFirst(s: State, now: int)
    requires Inv(s) && s.mode == Scheduling
    ensures var s' := Expire(s, now);
      && (s'.timeq != [] ==> s'.timeq[0] in s'.threads && s'.threads[s'.timeq[0]].wakeup > now)
      && forall t: Tid :: t in s'.timeq ==> t in s'.threads && s'.threads[s'.timeq[0]].wakeup <= s'.threads[t].wakeup
  {
    var s' := Expire(s, now);
    ExpireLeavesNoneDue(s, now);
    if s'.timeq != [] {
      assert s'.timeq[0] in s'.timeq;
      forall t: Tid | t in s'.timeq
        ensures s'.threads[s'.timeq[0]].wakeup <= s'.threads[t].wakeup
      {
        var i :| 0 <= i < |s'.timeq| && s'.timeq[i] == t;
      }
    }
  }

  lemma JoinerIsOther(s: State)
    requires Inv(s) && s.mode == Running && s.pc[s.current] == Leaving && Joiner(s.joinwq, s.current).Some?
    ensures Joiner(s.joinwq, s.current).value != s.current
    ensures Joiner(s.joinwq, s.current).value in s.threads && Wakeable(s.threads[Joiner(s.joinwq, s.current).value])
  {
    WakeJoinerInv(s);
    JoinerFound(s.joinwq, s.current);
  }

  /** The current thread with its exit announced. */
  function Announced(s: State): State
    requires s.current in s.threads
  {
    s.(threads := s.threads[s.current := s.threads[s.current].(joined := true)])
  }

  /** What the gate needs of the joiner, and what it needs to block afterwards. */
  lemma JoinerReady(s: State)
    requires Inv(s) && Enabled(s, DoGate) && s.threads[s.current].mustjoin
    ensures Joiner(s.joinwq, s.current).Some? ==>
      Joiner(s.joinwq, s.current).value in s.threads && Joiner(s.joinwq, s.current).value != s.current
      && Wakeable(s.threads[Joiner(s.joinwq, s.current).value])
    ensures
      var s' := WakeJoiner(s);
      && s'.current == s.current && s'.current in s'.threads
      && (forall t :: t in s'.timeq ==> t in s'.threads) && s'.current !in s'.timeq
      && Gate(s) == Announce(s')
  {
    WakeJoinerInv(s);
    if Joiner(s.joinwq, s.current).Some? {
      JoinerIsOther(s);
    }
    assert ThreadOk(s, s.current) && ThreadOk(WakeJoiner(s), s.current);
  }

  /** Setting a flag of one thread and waking another commute. */
  lemma WakeCommutes(s: State, c: Tid, j: Tid)
    requires c in s.threads && j in s.threads && c != j && Wakeable(s.threads[j])
    requires c == s.current
    ensures j in Announced(s).threads && Wakeable(Announced(s).threads[j]) && c in Sched.Wake(s, j, ByWake).threads
    ensures Sched.Wake(Announced(s), j, ByWake) == Announced(Sched.Wake(s, j, ByWake))
  {
    var th := s.threads[c].(joined := true);
    WakeEffect(s, j, ByWake);
    WakeEffect(s.(threads := s.threads[c := th]), j, ByWake);
    var w := Woken(s.threads[j], ByWake);
    assert s.threads[c := th][j := w] == s.threads[j := w][c := th];
  }

  /** Nor does it matter for blocking when the flag is set. */
  lemma AnnounceCommutes(s: State, s': State)
    requires s.current in s.threads && forall t :: t in s.timeq ==> t in s.threads
    requires s' == Suspend(Announced(s), InExit)
    ensures s' == Announce(s)
  {
    var c := s.current;
    var s0 := s.(threads := s.threads[c := s.threads[c].(joined := true)]);
    PrepareEffect(s, INFTIME);
    PrepareEffect(s0, INFTIME);
    assert s'.threads == Announce(s).threads;
  }

  /** Clearing the flag before or after the wakeup makes no difference. */
  lemma ReleaseCommutes(s: State, t: Tid)
    requires t in s.threads && Wakeable(s.threads[t])
    ensures var s1 := Sched.Wake(s, t, ByWake);
      Sched.Wake(s.(threads := s.threads[t := s.threads[t].(mustjoin := false)]), t, ByWake)
        == s1.(threads := s1.threads[t := s1.threads[t].(mustjoin := false)])
  {
    var th := s.threads[t].(mustjoin := false);
    WakeEffect(s, t, ByWake);
    WakeEffect(s.(threads := s.threads[t := th]), t, ByWake);
    assert s.threads[t := th][t := Woken(th, ByWake)]
      == s.threads[t := Woken(s.threads[t], ByWake)][t := Woken(th, ByWake)];
  }
}
