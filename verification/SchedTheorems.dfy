/** What holds in every reachable state of the scheduler, and along every run. */
module SchedTheorems {
  import opened Queues
  import opened Sched

  // ----- Queues and the running thread

  /** A thread is on a queue exactly when it carries the bit, and carries at most one bit. */
  lemma QueueDiscipline(s: State, t: Tid)
    requires Reachable(s) && t in s.threads
    ensures t in s.runq <==> s.threads[t].runq
    ensures t in s.timeq <==> s.threads[t].timeq
    ensures t in s.blockq <==> s.threads[t].blockq
    ensures !(t in s.runq && t in s.timeq) && !(t in s.runq && t in s.blockq) && !(t in s.timeq && t in s.blockq)
    ensures !s.threads[t].dead && t != s.current ==> t in s.runq || t in s.timeq || t in s.blockq
    ensures NoDup(s.runq) && NoDup(s.timeq) && NoDup(s.blockq)
  {
    ReachableInv(s);
    var th := s.threads[t];
    assert ThreadOk(s, t) && Bit(th, Runq) == th.runq && Bit(th, Timeq) == th.timeq && Bit(th, Blockq) == th.blockq;
  }

  /** Between API calls exactly one thread runs, and it is the current one. */
  lemma ExactlyOneRunning(s: State)
    requires Reachable(s) && s.mode == Running
    ensures s.current in s.threads
    ensures forall t: Tid :: t in s.threads ==> (s.threads[t].running <==> t == s.current)
  {
    ReachableInv(s);
    forall t: Tid | t in s.threads
      ensures s.threads[t].running <==> t == s.current
    {
      assert ThreadOk(s, t);
    }
  }

  /** Nothing the scheduler dereferences has been freed, and nothing is freed twice. */
  lemma NoDanglingThread(s: State)
    requires Reachable(s)
    ensures s.current in s.threads
    ensures forall t: Tid :: t in s.runq || t in s.timeq || t in s.blockq || t in s.zombieq ==> t in s.threads
    ensures forall j: Tid, t: Tid :: (j, t) in s.joinwq ==> j in s.threads && t in s.threads && !s.threads[t].dead
    ensures NoDup(s.freed) && forall t: Tid :: t in s.freed ==> t !in s.threads
  {
    ReachableInv(s);
    forall j: Tid, t: Tid | (j, t) in s.joinwq
      ensures j in s.threads && t in s.threads && !s.threads[t].dead
    {
      assert s.pc[j] == InJoin(t) && JoinerOk(s, j);
    }
  }

  /** The reaper frees only dead threads that no queue and no CPU still uses. */
  lemma ReapsOnlyTheDead(s: State, t: Tid)
    requires Reachable(s) && Enabled(s, DoReturn) && t in s.zombieq
    ensures t in s.threads && s.threads[t].dead && t != s.current
    ensures t !in s.runq && t !in s.timeq && t !in s.blockq
    ensures forall j: Tid :: (t, j) !in s.joinwq && (j, t) !in s.joinwq
  {
    ReachableInv(s);
    var th := s.threads[t];
    assert ThreadOk(s, t) && ThreadOk(s, s.current);
    assert Bit(th, Runq) == Bit(th, Timeq) == Bit(th, Blockq) == false;
    NoDanglingThread(s);
  }

  // ----- Wakeups

  /** A wakeup makes any live thread runnable unless it is running and not about to block. */
  lemma WakeReachesRunq(s: State, t: Tid)
    requires Reachable(s) && Enabled(s, DoWake(t))
    ensures Inv(s)
    ensures Queued(s.threads[t]) ==> t in Apply(s, DoWake(t)).runq
    ensures !Queued(s.threads[t]) ==>
        t == s.current && Apply(s, DoWake(t)).threads[t] == s.threads[t].(wakeup := INFTIME)
  {
    ReachableInv(s);
    assert ThreadOk(s, t);
    LiveWakeable(s, t);
    WakeInv(s, t);
    WakeEffect(s, t, ByWake);
    assert Bit(Wake(s, t, ByWake).threads[t], Runq) == Wake(s, t, ByWake).threads[t].runq;
  }

  /** Number of threads in front of `t`. */
  ghost function Ahead(q: seq<Tid>, t: Tid): nat
    requires t in q
  {
    if q[0] == t then 0 else 1 + Ahead(q[1..], t)
  }

  lemma {:induction false} AheadAppend(q: seq<Tid>, r: seq<Tid>, t: Tid)
    requires t in q
    ensures t in q + r && Ahead(q + r, t) == Ahead(q, t)
  {
    assert (q + r)[0] == q[0];
    if q[0] != t {
      assert (q + r)[1..] == q[1..] + r;
      AheadAppend(q[1..], r, t);
    }
  }

  lemma {:induction false} AheadLast(q: seq<Tid>, c: Tid)
    requires c !in q
    ensures c in q + [c] && Ahead(q + [c], c) == |q|
  {
    assert (q + [c])[|q|] == c;
    if q != [] {
      assert (q + [c])[1..] == q[1..] + [c];
      AheadLast(q[1..], c);
    }
  }

  /** `t` is still queued, with at most `n` threads in front, or has just been given the CPU. */
  ghost predicate StillRunnable(s: State, t: Tid, n: nat) {
    (t in s.runq && Ahead(s.runq, t) <= n) || (s.current == t && s.mode == Resuming)
  }

  /**
    A runnable thread stays runnable, and never moves back, until it gets the CPU; every round
    of the scheduler moves it one place forward. So no wakeup is lost, in particular not one
    that comes between `blockprepare` and `block`.
   */
  lemma RunnableUntilDispatched(s: State, step: Step, t: Tid)
    requires Inv(s) && Enabled(s, step) && t in s.runq
    ensures StillRunnable(Apply(s, step), t, Ahead(s.runq, t))
    ensures step.DoTick? && Ahead(s.runq, t) > 0 ==> StillRunnable(Apply(s, step), t, Ahead(s.runq, t) - 1)
    ensures step.DoTick? && Ahead(s.runq, t) == 0 ==> Apply(s, step).current == t && Apply(s, step).mode == Resuming
  {
    if step.DoTick? {
      TickForward(s, step.now, t);
    } else {
      var r := RunqGrows(s, step);
      AheadAppend(s.runq, r, t);
    }
  }

  lemma TickForward(s: State, now: int, t: Tid)
    requires Inv(s) && s.mode == Scheduling && t in s.runq
    ensures var s' := Tick(s, now);
      if Ahead(s.runq, t) == 0 then s'.current == t && s'.mode == Resuming
      else t in s'.runq && Ahead(s'.runq, t) == Ahead(s.runq, t) - 1
  {
    ExpireMovesDue(s, now);
    var n := TimeqPlace(s.timeq, s.threads, now);
    AheadAppend(s.runq, s.timeq[..n], t);
    DispatchInv(Expire(s, now));
  }

  /** Every step but a scheduler round only appends to the run queue. */
  lemma RunqGrows(s: State, step: Step) returns (r: seq<Tid>)
    requires Inv(s) && Enabled(s, step) && !step.DoTick?
    ensures Apply(s, step).runq == s.runq + r
  {
    r := Apply(s, step).runq[|s.runq|..];
    match step
    case DoWake(t) => LiveWakeable(s, t);
    case DoPrepare(deadline) =>
    case DoBlock =>
    case DoYield =>
    case DoCreate(joinable) =>
    case DoExit =>
    case DoJoin(t) =>
    case DoGate =>
      if s.threads[s.current].mustjoin {
        WakeJoinerInv(s);
      }
    case DoTest =>
      assert JoinerOk(s, s.current);
      if s.threads[s.pc[s.current].target].joined {
        ReleaseInv(s);
      }
    case DoReturn =>
  }

  /** A thread that yields goes behind all that are runnable. */
  lemma YieldsToAll(s: State)
    requires Inv(s) && Enabled(s, DoYield)
    ensures
      var s' := Apply(s, DoYield);
      s.current in s'.runq && Ahead(s'.runq, s.current) == |s.runq| && s'.mode == Scheduling
  {
    assert ThreadOk(s, s.current) && (s.current in s.runq ==> Bit(s.threads[s.current], Runq));
    AheadLast(s.runq, s.current);
  }

  /** Rounds of the scheduler loop in a run. */
  ghost function Ticks(steps: seq<Step>): nat {
    if steps == [] then 0 else (if steps[0].DoTick? then 1 else 0) + Ticks(steps[1..])
  }

  /** Some step of the run gives the CPU to `t`. */
  ghost predicate Dispatched(from: State, steps: seq<Step>, t: Tid)
    requires Inv(from)
    decreases |steps|
  {
    steps != [] && Enabled(from, steps[0]) &&
    var s := Apply(from, steps[0]);
    (s.current == t && s.mode == Resuming) || (StepInv(from, steps[0]); Dispatched(s, steps[1..], t))
  }

  /** Bounded waiting: a runnable thread runs after at most one round per thread in front. */
  lemma {:induction false} BoundedWaiting(from: State, steps: seq<Step>, s: State, t: Tid)
    requires Inv(from) && Run(from, steps, s) && t in from.runq && Ticks(steps) > Ahead(from.runq, t)
    ensures Dispatched(from, steps, t)
    decreases |steps|
  {
    var s1 := Apply(from, steps[0]);
    RunnableUntilDispatched(from, steps[0], t);
    StepInv(from, steps[0]);
    if !(s1.current == t && s1.mode == Resuming) {
      BoundedWaiting(s1, steps[1..], s, t);
    }
  }

  // ----- Where a thread is

  /** Only its own steps take a live thread from where it is. */
  lemma PcKept(s: State, step: Step, t: Tid)
    requires Inv(s) && Enabled(s, step) && t in s.threads && t != s.current && !s.threads[t].dead
    ensures t in Apply(s, step).threads && t in Apply(s, step).pc && Apply(s, step).pc[t] == s.pc[t]
  {
    match step
    case DoWake(u) => LiveWakeable(s, u);
    case DoGate => PcKeptGate(s, t);
    case DoTest => PcKeptTest(s, t);
    case DoTick(now) => ExpireMovesDue(s, now);
    case DoReturn => assert t !in s.zombieq;
    case DoCreate(_) => assert t < s.nextId;
    case _ =>
  }

  lemma PcKeptGate(s: State, t: Tid)
    requires Inv(s) && Enabled(s, DoGate) && t in s.threads && t != s.current
    ensures t in Gate(s).threads && t in Gate(s).pc && Gate(s).pc[t] == s.pc[t]
  {
    if s.threads[s.current].mustjoin {
      WakeJoinerInv(s);
    }
  }

  lemma PcKeptTest(s: State, t: Tid)
    requires Inv(s) && Enabled(s, DoTest) && t in s.threads && t != s.current
    ensures t in JoinTest(s).threads && t in JoinTest(s).pc && JoinTest(s).pc[t] == s.pc[t]
  {
    assert JoinerOk(s, s.current);
    if s.threads[s.pc[s.current].target].joined {
      ReleaseInv(s);
    }
  }

  // ----- Timed blocking

  /** The time queue is ordered by deadline in every reachable state. */
  lemma TimeqSorted(s: State, i: nat, j: nat)
    requires Reachable(s) && i < j < |s.timeq|
    ensures s.timeq[i] in s.threads && s.timeq[j] in s.threads
    ensures s.threads[s.timeq[i]].wakeup <= s.threads[s.timeq[j]].wakeup
  {
    ReachableInv(s);
    assert s.timeq[i] in s.timeq && s.timeq[j] in s.timeq;
  }

  /** `t` was put into `q` behind every deadline up to its own and before every later one. */
  ghost predicate StableInsert(q: seq<Tid>, q': seq<Tid>, t: Tid, threads: map<Tid, Thread>, deadline: int, i: nat) {
    && i <= |q| && q' == q[..i] + [t] + q[i..]
    && (forall k {:trigger q[k]} :: 0 <= k < |q| ==> q[k] in threads && (threads[q[k]].wakeup <= deadline <==> k < i))
  }

  /** A thread that prepares to block is placed by deadline, ties in order of arrival. */
  lemma TiesInArrivalOrder(s: State, deadline: int)
    requires Reachable(s) && Enabled(s, DoPrepare(deadline)) && deadline != INFTIME
    ensures Inv(s) && forall t :: t in s.timeq ==> t in s.threads
    ensures StableInsert(s.timeq, Apply(s, DoPrepare(deadline)).timeq, s.current, s.threads, deadline,
      TimeqPlace(s.timeq, s.threads, deadline))
  {
    ReachableInv(s);
    var i := TimeqPlace(s.timeq, s.threads, deadline);
    forall k | 0 <= k < |s.timeq|
      ensures s.timeq[k] in s.threads && (s.threads[s.timeq[k]].wakeup <= deadline <==> k < i)
    {
      assert s.timeq[k] in s.timeq;
      if i < |s.timeq| {
        assert s.timeq[i] in s.timeq;
      }
    }
  }

  /** The time `schedule` idles until when nothing is runnable. */
  function IdleUntil(s: State, now: int): int
    requires s.timeq != [] ==> s.timeq[0] in s.threads
  {
    if s.timeq != [] && s.threads[s.timeq[0]].wakeup < now + BLOCKTIME_MAX then s.threads[s.timeq[0]].wakeup
    else now + BLOCKTIME_MAX
  }

  /** Idling lasts past now, at most a second, and never past any deadline. */
  lemma IdleMeetsDeadlines(s: State, now: int)
    requires Inv(s) && s.mode == Scheduling && Tick(s, now).mode == Scheduling
    ensures var s' := Tick(s, now);
      && (s'.timeq != [] ==> s'.timeq[0] in s'.threads)
      && now < IdleUntil(s', now) <= now + 1_000_000_000
      && forall t: Tid :: t in s'.timeq ==> t in s'.threads && IdleUntil(s', now) <= s'.threads[t].wakeup
  {
    var s' := Tick(s, now);
    ExpireLeavesNoneDue(s, now);
    assert s' == Expire(s, now);
    if s'.timeq != [] {
      assert s'.timeq[0] in s'.timeq;
      forall t: Tid | t in s'.timeq
        ensures s'.threads[s'.timeq[0]].wakeup <= s'.threads[t].wakeup
      {
        var i :| 0 <= i < |s'.timeq| && s'.timeq[i] == t;
      }
    }
  }

  /** `bmk_sched_block` reports a timeout exactly when the expiry pass made the thread runnable. */
  lemma BlockResult(s: State)
    requires Reachable(s) && s.mode == Resuming
    ensures s.current in s.pc && s.current in s.threads
    ensures Blocking(s.pc[s.current]) ==> (s.threads[s.current].timedout <==> s.threads[s.current].cause == ByTimeout)
  {
    ReachableInv(s);
    assert ThreadOk(s, s.current);
  }

  /** ... where `cause` records, for a blocked thread, the step that made it runnable. */
  lemma CauseIsTheMove(s: State, step: Step, t: Tid)
    requires Inv(s) && Enabled(s, step) && t in s.threads && !s.threads[t].runq && Queued(s.threads[t])
    ensures var s' := Apply(s, step);
      t in s'.threads && (s'.threads[t].runq || (step.DoTick? && s'.threads[t].running && !Queued(s'.threads[t])) ==>
        (s'.threads[t].cause == ByTimeout <==> step.DoTick?))
  {
    assert ThreadOk(s, t) && ThreadOk(s, s.current);
    match step
    case DoWake(u) => LiveWakeable(s, u); WakeEffect(s, u, ByWake);
    case DoPrepare(deadline) => PrepareEffect(s, deadline);
    case DoBlock =>
    case DoYield =>
    case DoCreate(joinable) =>
    case DoExit =>
    case DoJoin(u) =>
    case DoGate => GateCause(s, t);
    case DoTest => TestCause(s, t);
    case DoTick(now) => TickCause(s, now, t);
    case DoReturn => ReturnCause(s, t);
  }

  lemma TickCause(s: State, now: int, t: Tid)
    requires Inv(s) && s.mode == Scheduling && t in s.threads && !s.threads[t].runq && Queued(s.threads[t])
    ensures var s' := Tick(s, now);
      t in s'.threads && (s'.threads[t].runq || !Queued(s'.threads[t]) ==> s'.threads[t].cause == ByTimeout)
  {
    var s1 := Expire(s, now);
    ExpireRecord(s, now, t);
    if s1.runq != [] {
      assert s1.runq[0] in s1.runq && Bit(s1.threads[s1.runq[0]], Runq);
      DispatchRecord(s1, t);
    }
  }

  lemma ExpireRecord(s: State, now: int, t: Tid)
    requires Inv(s) && s.mode == Scheduling && t in s.threads
    ensures t in Expire(s, now).threads
    ensures Expire(s, now).threads[t] == s.threads[t] ||
        (s.threads[t].timeq && Expire(s, now).threads[t] == Expired(s.threads[t]))
    ensures !(s.threads[t].timeq && (s.threads[t].runq || s.threads[t].blockq))
  {
    assert ThreadOk(s, t);
    ExpireMovesDue(s, now);
    MovedRecord(s, Expire(s, now), TimeqPlace(s.timeq, s.threads, now), t);
  }

  lemma MovedRecord(s: State, s1: State, n: nat, t: Tid)
    requires Holds(s.timeq, s.threads, Timeq) && MovedFirst(s, s1, n) && t in s.threads
    ensures t in s1.threads &&
        (s1.threads[t] == s.threads[t] || (s.threads[t].timeq && s1.threads[t] == Expired(s.threads[t])))
  {
    if t in s.timeq[..n] {
      assert t in s.timeq && Bit(s.threads[t], Timeq);
    }
  }

  lemma DispatchRecord(s: State, t: Tid)
    requires s.runq != [] && s.runq[0] in s.threads && s.current in s.threads && t in s.threads
    ensures var s' := Dispatch(s);
      && t in s'.threads && s'.threads[t].cause == s.threads[t].cause
      && (t != s.runq[0] ==> s'.threads[t] == s.threads[t].(running := s'.threads[t].running))
  {
  }

  lemma GateCause(s: State, t: Tid)
    requires Inv(s) && Enabled(s, DoGate) && t in s.threads && !s.threads[t].runq && Queued(s.threads[t])
    ensures var s' := Gate(s); t in s'.threads && (s'.threads[t].runq ==> s'.threads[t].cause == ByWake)
  {
    assert ThreadOk(s, s.current);
    if s.threads[s.current].mustjoin {
      WakeJoinerInv(s);
      JoinerCause(s, t);
      PrepareEffect(WakeJoiner(s), INFTIME);
    }
  }

  lemma JoinerCause(s: State, t: Tid)
    requires Joiner(s.joinwq, s.current).Some? ==>
      Joiner(s.joinwq, s.current).value in s.threads && Wakeable(s.threads[Joiner(s.joinwq, s.current).value])
    requires t in s.threads && !s.threads[t].runq
    ensures var s' := WakeJoiner(s); t in s'.threads && (s'.threads[t].runq ==> s'.threads[t].cause == ByWake)
  {
    if Joiner(s.joinwq, s.current).Some? {
      WakeEffect(s, Joiner(s.joinwq, s.current).value, ByWake);
    }
  }

  lemma TestCause(s: State, t: Tid)
    requires Inv(s) && Enabled(s, DoTest) && t in s.threads && !s.threads[t].runq && Queued(s.threads[t])
    ensures var s' := JoinTest(s); t in s'.threads && (s'.threads[t].runq ==> s'.threads[t].cause == ByWake)
  {
    assert JoinerOk(s, s.current) && ThreadOk(s, s.current);
    if s.threads[s.pc[s.current].target].joined {
      ReleaseInv(s);
      WakeEffect(s, s.pc[s.current].target, ByWake);
    } else {
      PrepareEffect(s, INFTIME);
    }
  }

  lemma ReturnCause(s: State, t: Tid)
    requires Inv(s) && Enabled(s, DoReturn) && t in s.threads && !s.threads[t].runq && Queued(s.threads[t])
    ensures t in Return(s).threads && !Return(s).threads[t].runq
  {
    assert ThreadOk(s, t) && ThreadOk(s, s.current);
    assert t !in s.zombieq;
  }

  // ----- Join and exit

  /** A joiner is let through only after its target has reached the exit gate. */
  lemma JoinAfterExit(s: State)
    requires Reachable(s) && Enabled(s, DoTest)
    ensures Inv(s) && s.pc[s.current].target in s.threads
    ensures var t, s' := s.pc[s.current].target, Apply(s, DoTest);
      s'.pc[s.current] == InUser <==> s.threads[t].joined && (s.pc[t] == InExit || s.pc[t] == Leaving)
  {
    ReachableInv(s);
    assert JoinerOk(s, s.current);
    var t := s.pc[s.current].target;
    assert ThreadOk(s, t) && ThreadOk(s, s.current);
    PrepareEffect(s, INFTIME);
  }

  /** A thread created joinable dies, and is freed, only after a joiner has released it. */
  lemma DiesOnlyReleased(s: State, t: Tid)
    requires Reachable(s) && t in s.joinable
    requires t in s.freed || (t in s.threads && s.threads[t].dead)
    ensures t in s.released
  {
    ReachableInv(s);
    if t in s.threads {
      assert ThreadOk(s, t);
    }
  }

  /** Only the joiner of `t` releases `t`. */
  lemma OnlyJoinersRelease(s: State, step: Step, t: Tid)
    requires Inv(s) && Enabled(s, step)
    ensures t in Apply(s, step).released && t !in s.released ==>
      step.DoTest? && s.pc[s.current] == Joining(t) && t in s.threads && s.threads[t].joined
  {
    match step
    case DoWake(u) => LiveWakeable(s, u);
    case DoGate =>
      if s.threads[s.current].mustjoin {
        WakeJoinerInv(s);
      }
    case DoTest =>
      assert JoinerOk(s, s.current);
      if s.threads[s.pc[s.current].target].joined {
        ReleaseInv(s);
      }
    case DoTick(now) => ExpireMovesDue(s, now);
    case _ =>
  }

  /** Neither side of the handshake is left blocked once the other has done its part. */
  lemma HandshakeNotLost(s: State, t: Tid)
    requires Reachable(s) && t in s.pc
    ensures t in s.threads
    ensures s.pc[t].InJoin? ==> s.pc[t].target in s.threads
    ensures s.pc[t].InJoin? && s.threads[s.pc[t].target].joined ==> StillRunnable(s, t, |s.runq|)
    ensures s.pc[t] == InExit && !s.threads[t].mustjoin ==> StillRunnable(s, t, |s.runq|)
  {
    ReachableInv(s);
    assert ThreadOk(s, t) && Bit(s.threads[t], Runq) == s.threads[t].runq;
    if Joins(s.pc[t]) {
      assert JoinerOk(s, t);
    }
    if t in s.runq {
      AheadBound(s.runq, t);
    }
  }

  lemma {:induction false} AheadBound(q: seq<Tid>, t: Tid)
    requires t in q
    ensures Ahead(q, t) <= |q|
  {
    if q[0] != t {
      AheadBound(q[1..], t);
    }
  }
}
