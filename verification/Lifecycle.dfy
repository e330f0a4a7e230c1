/** The life of a thread, from creation over blocking and joining to its end, along every run. */
module Lifecycle {
  import opened Queues
  import opened Sched
  import opened SchedTheorems

  // ----- Creation

  /** A created thread is new and runnable, and must be joined exactly when that was asked for. */
  lemma CreatesThread(s: State, joinable: bool)
    requires Inv(s) && Enabled(s, DoCreate(joinable))
    ensures
      var t, s' := s.nextId, Apply(s, DoCreate(joinable));
      && t !in s.threads && t !in s.freed && t in s'.threads && t in s'.runq
      && !s'.threads[t].dead && s'.threads[t].mustjoin == joinable
      && forall u: Tid {:trigger s'.threads[u]} :: u in s.threads ==> u in s'.threads && s'.threads[u] == s.threads[u]
  {}

  /** The step that lets thread `t` go: its joiner finds that it has announced its exit. */
  ghost predicate Releases(s: State, step: Step, t: Tid) {
    step.DoTest? && s.current in s.pc && s.pc[s.current] == Joining(t) && t in s.threads && s.threads[t].joined
  }

  /** Some step of the run does. */
  ghost predicate ReleasedIn(from: State, steps: seq<Step>, t: Tid)
    requires Inv(from)
    decreases |steps|
  {
    steps != [] && Enabled(from, steps[0]) &&
    (Releases(from, steps[0], t) || (StepInv(from, steps[0]); ReleasedIn(Apply(from, steps[0]), steps[1..], t)))
  }

  // ----- What a step does to the life of a thread

  /** Nothing about the end of a thread differs. */
  predicate SameLife(a: Thread, b: Thread) {
    a.dead == b.dead && a.mustjoin == b.mustjoin && a.joined == b.joined
  }

  /** The thread is there, and about its end nothing differs from `e`. */
  ghost predicate Lives(threads: map<Tid, Thread>, t: Tid, e: Thread) {
    t in threads && SameLife(threads[t], e)
  }

  /**
    What a step makes of a thread, as far as its end is concerned: at its own exit gate it
    dies, or announces its exit when it must be joined; its joiner lets it go.
   */
  ghost function LifeOf(s: State, step: Step, t: Tid): Thread
    requires t in s.threads
  {
    var th := s.threads[t];
    if step.DoGate? && t == s.current then (if th.mustjoin then th.(joined := true) else th.(dead := true))
    else if Releases(s, step, t) then th.(mustjoin := false)
    else th
  }

  lemma LifeStep(s: State, step: Step, t: Tid)
    requires Inv(s) && Enabled(s, step) && t in s.threads && !(step.DoReturn? && s.threads[t].dead)
    ensures Lives(Apply(s, step).threads, t, LifeOf(s, step, t))
  {
    match step
    case DoWake(u) => LiveWakeable(s, u); WakeLife(s, u, t);
    case DoGate => GateLife(s, t);
    case DoTest => TestLife(s, t);
    case DoTick(now) => TickLife(s, now, t);
    case DoReturn => ReturnLife(s, t);
    case _ => OtherLife(s, step, t);
  }

  lemma OtherLife(s: State, step: Step, t: Tid)
    requires Inv(s) && Enabled(s, step) && t in s.threads
    requires !step.DoWake? && !step.DoGate? && !step.DoTest? && !step.DoTick? && !step.DoReturn?
    ensures Lives(Apply(s, step).threads, t, s.threads[t])
  {
    match step
    case DoPrepare(deadline) => PrepareLife(s, deadline, t);
    case DoYield => YieldLife(s, t);
    case DoCreate(joinable) => CreateLives(s, joinable, t);
    case DoBlock =>
    case DoExit =>
    case DoJoin(_) =>
  }

  lemma PrepareLife(s: State, deadline: int, t: Tid)
    requires s.current in s.threads && t in s.threads && forall u :: u in s.timeq ==> u in s.threads
    ensures Lives(BlockPrepare(s, deadline).threads, t, s.threads[t])
  {
    PrepareEffect(s, deadline);
  }

  lemma CreateLives(s: State, joinable: bool, t: Tid)
    requires t in s.threads && s.nextId !in s.threads
    ensures Lives(Create(s, joinable).threads, t, s.threads[t])
  {}

  lemma YieldLife(s: State, t: Tid)
    requires s.current in s.threads && t in s.threads
    ensures Lives(Yield(s).threads, t, s.threads[t])
  {}

  lemma WakeLife(s: State, u: Tid, t: Tid)
    requires u in s.threads && Wakeable(s.threads[u]) && t in s.threads
    ensures Lives(Wake(s, u, ByWake).threads, t, s.threads[t])
  {
    WakeEffect(s, u, ByWake);
  }

  lemma WakeJoinerLife(s: State, t: Tid)
    requires Inv(s) && s.mode == Running && s.pc[s.current] == Leaving && t in s.threads
    ensures Joiner(s.joinwq, s.current).Some? ==>
      Joiner(s.joinwq, s.current).value in s.threads && Wakeable(s.threads[Joiner(s.joinwq, s.current).value])
    ensures Lives(WakeJoiner(s).threads, t, s.threads[t])
  {
    WakeJoinerInv(s);
    if Joiner(s.joinwq, s.current).Some? {
      WakeLife(s, Joiner(s.joinwq, s.current).value, t);
    }
  }

  lemma AnnounceLife(s: State, t: Tid)
    requires s.current in s.threads && t in s.threads && forall u :: u in s.timeq ==> u in s.threads
    ensures Lives(Announce(s).threads, t, if t == s.current then s.threads[t].(joined := true) else s.threads[t])
  {
    PrepareEffect(s, INFTIME);
  }

  lemma GateLife(s: State, t: Tid)
    requires Inv(s) && Enabled(s, DoGate) && t in s.threads
    ensures Lives(Apply(s, DoGate).threads, t, LifeOf(s, DoGate, t))
  {
    if s.threads[s.current].mustjoin {
      GateAnnounces(s);
      WakeJoinerLife(s, t);
      AnnounceLife(WakeJoiner(s), t);
    } else {
      DieLife(s, t);
      assert Apply(s, DoGate) == Die(s);
    }
  }

  /** The gate of a thread that must be joined. */
  lemma GateAnnounces(s: State)
    requires Inv(s) && Enabled(s, DoGate) && s.threads[s.current].mustjoin
    ensures Joiner(s.joinwq, s.current).Some? ==>
      Joiner(s.joinwq, s.current).value in s.threads && Wakeable(s.threads[Joiner(s.joinwq, s.current).value])
    ensures WakeJoiner(s).current == s.current && s.current in WakeJoiner(s).threads
    ensures forall u :: u in WakeJoiner(s).timeq ==> u in WakeJoiner(s).threads
    ensures Apply(s, DoGate) == Announce(WakeJoiner(s))
  {
    WakeJoinerInv(s);
  }

  lemma DieLife(s: State, t: Tid)
    requires s.current in s.threads && t in s.threads
    ensures Lives(Die(s).threads, t, if t == s.current then s.threads[t].(dead := true) else s.threads[t])
  {}

  lemma TestLife(s: State, t: Tid)
    requires Inv(s) && Enabled(s, DoTest) && t in s.threads
    ensures Lives(Apply(s, DoTest).threads, t, LifeOf(s, DoTest, t))
  {
    assert JoinerOk(s, s.current);
    if s.threads[s.pc[s.current].target].joined {
      ReleaseInv(s);
      ReleaseLife(s, t);
    } else {
      JoinWaitLife(s, t);
    }
  }

  lemma ReleaseLife(s: State, t: Tid)
    requires s.current in s.pc && s.pc[s.current].Joining? && t in s.threads
    requires s.pc[s.current].target in s.threads && Wakeable(s.threads[s.pc[s.current].target])
    ensures Lives(Release(s).threads, t,
                  if t == s.pc[s.current].target then s.threads[t].(mustjoin := false) else s.threads[t])
  {
    WakeLife(s, s.pc[s.current].target, t);
    WakeEffect(s, s.pc[s.current].target, ByWake);
  }

  lemma JoinWaitLife(s: State, t: Tid)
    requires s.current in s.threads && s.current in s.pc && s.pc[s.current].Joining? && t in s.threads
    requires forall u :: u in s.timeq ==> u in s.threads
    ensures Lives(JoinWait(s).threads, t, s.threads[t])
  {
    PrepareEffect(s, INFTIME);
  }

  lemma TickLife(s: State, now: int, t: Tid)
    requires Inv(s) && s.mode == Scheduling && t in s.threads
    ensures Lives(Tick(s, now).threads, t, s.threads[t])
  {
    var s1 := Expire(s, now);
    ExpireRecord(s, now, t);
    if s1.runq != [] {
      assert s1.runq[0] in s1.runq && Bit(s1.threads[s1.runq[0]], Runq);
      DispatchLife(s1, t);
    }
  }

  lemma DispatchLife(s: State, t: Tid)
    requires s.runq != [] && s.runq[0] in s.threads && s.current in s.threads && t in s.threads
    ensures Lives(Dispatch(s).threads, t, s.threads[t])
  {}

  lemma ReturnLife(s: State, t: Tid)
    requires Inv(s) && Enabled(s, DoReturn) && t in s.threads && !s.threads[t].dead
    ensures Lives(Apply(s, DoReturn).threads, t, s.threads[t])
  {
    assert t !in s.zombieq;
    assert ThreadOk(s, s.current);
  }

  /** A thread that has run before frees all dead threads when it gets the CPU back. */
  lemma FreesTheDead(s: State, t: Tid)
    requires Inv(s) && Enabled(s, DoReturn) && t in s.threads && s.threads[t].dead
    ensures s.current in s.pc
    ensures s.pc[s.current] != Virgin ==> t !in Apply(s, DoReturn).threads && t in Apply(s, DoReturn).freed
  {
    assert t in s.zombieq && ThreadOk(s, s.current);
  }

  // ----- Joinable threads

  ghost predicate MustLive(s: State, t: Tid) {
    t in s.threads && !s.threads[t].dead && s.threads[t].mustjoin
  }

  lemma {:induction false} MustRun(from: State, steps: seq<Step>, s: State, t: Tid)
    requires Inv(from) && Run(from, steps, s) && MustLive(from, t) && !ReleasedIn(from, steps, t)
    ensures MustLive(s, t)
    decreases |steps|
  {
    if steps != [] {
      LifeStep(from, steps[0], t);
      StepInv(from, steps[0]);
      MustRun(Apply(from, steps[0]), steps[1..], s, t);
    }
  }

  /** A thread created joinable is neither dead nor freed until a joiner has released it. */
  lemma JoinableLives(s: State, steps: seq<Step>, s2: State)
    requires Inv(s) && Enabled(s, DoCreate(true)) && Inv(Apply(s, DoCreate(true)))
    requires Run(Apply(s, DoCreate(true)), steps, s2)
    ensures
      var t, from := s.nextId, Apply(s, DoCreate(true));
      ReleasedIn(from, steps, t) || (t in s2.threads && !s2.threads[t].dead && t !in s2.freed)
  {
    var t, from := s.nextId, Apply(s, DoCreate(true));
    CreatesThread(s, true);
    if !ReleasedIn(from, steps, t) {
      MustRun(from, steps, s2, t);
      RunInv(from, steps, s2);
    }
  }

  // ----- Threads nobody joins

  /** Not to be joined, now or ever: thread numbers are not used again. */
  ghost predicate Unjoinable(s: State, t: Tid) {
    t < s.nextId && (t in s.threads ==> !s.threads[t].mustjoin)
  }

  lemma NumbersGrow(s: State, step: Step, t: Tid)
    requires Inv(s) && Enabled(s, step) && t < s.nextId
    ensures t < Apply(s, step).nextId && (t !in s.threads ==> t !in Apply(s, step).threads)
  {
    match step
    case DoWake(u) => LiveWakeable(s, u); WakeEffect(s, u, ByWake);
    case DoGate => GateNumbers(s);
    case DoTest => TestNumbers(s);
    case DoTick(now) => TickNumbers(s, now);
    case _ =>
  }

  lemma GateNumbers(s: State)
    requires Inv(s) && Enabled(s, DoGate)
    ensures Gate(s).nextId == s.nextId && Gate(s).threads.Keys == s.threads.Keys
  {
    if s.threads[s.current].mustjoin {
      WakeJoinerInv(s);
      if Joiner(s.joinwq, s.current).Some? {
        WakeEffect(s, Joiner(s.joinwq, s.current).value, ByWake);
      }
    }
  }

  lemma TestNumbers(s: State)
    requires Inv(s) && Enabled(s, DoTest)
    ensures JoinTest(s).nextId == s.nextId && JoinTest(s).threads.Keys == s.threads.Keys
  {
    assert JoinerOk(s, s.current);
    if s.threads[s.pc[s.current].target].joined {
      ReleaseInv(s);
      WakeEffect(s, s.pc[s.current].target, ByWake);
    } else {
      PrepareEffect(s, INFTIME);
    }
  }

  lemma TickNumbers(s: State, now: int)
    requires Inv(s) && s.mode == Scheduling
    ensures Tick(s, now).nextId == s.nextId && Tick(s, now).threads.Keys == s.threads.Keys
  {
    var s1 := Expire(s, now);
    ExpireMovesDue(s, now);
    if s1.runq != [] {
      assert s1.runq[0] in s1.runq && Bit(s1.threads[s1.runq[0]], Runq);
      DispatchNumbers(s1);
    }
  }

  lemma DispatchNumbers(s: State)
    requires s.runq != [] && s.runq[0] in s.threads && s.current in s.threads
    ensures Dispatch(s).nextId == s.nextId && Dispatch(s).threads.Keys == s.threads.Keys
  {}

  lemma UnjoinableStep(s: State, step: Step, t: Tid)
    requires Inv(s) && Enabled(s, step) && Unjoinable(s, t)
    ensures Unjoinable(Apply(s, step), t)
  {
    NumbersGrow(s, step, t);
    if t in s.threads {
      StaysUnjoinable(s, step, t);
    }
  }

  lemma StaysUnjoinable(s: State, step: Step, t: Tid)
    requires Inv(s) && Enabled(s, step) && t in s.threads && !s.threads[t].mustjoin
    ensures t in Apply(s, step).threads ==> !Apply(s, step).threads[t].mustjoin
  {
    if step.DoReturn? && s.threads[t].dead {
      ReturnsDead(s, t);
    } else {
      LifeStep(s, step, t);
      LifeUnjoinable(s, step, t, Apply(s, step).threads);
    }
  }

  lemma LifeUnjoinable(s: State, step: Step, t: Tid, threads: map<Tid, Thread>)
    requires t in s.threads && !s.threads[t].mustjoin && Lives(threads, t, LifeOf(s, step, t))
    ensures !threads[t].mustjoin
  {}

  lemma NeverJoined(s: State, t: Tid)
    requires Unjoinable(s, t)
    ensures !Enabled(s, DoJoin(t))
  {}

  lemma ReturnsDead(s: State, t: Tid)
    requires Inv(s) && Enabled(s, DoReturn) && t in s.threads && s.threads[t].dead
    ensures t in Apply(s, DoReturn).threads ==> SameLife(Apply(s, DoReturn).threads[t], s.threads[t])
  {
    assert t in s.zombieq && ThreadOk(s, s.current);
  }

  lemma {:induction false} UnjoinableRun(from: State, steps: seq<Step>, s: State, t: Tid)
    requires Inv(from) && Run(from, steps, s) && Unjoinable(from, t)
    ensures Unjoinable(s, t)
    decreases |steps|
  {
    if steps != [] {
      UnjoinableStep(from, steps[0], t);
      StepInv(from, steps[0]);
      UnjoinableRun(Apply(from, steps[0]), steps[1..], s, t);
    }
  }

  lemma GateKills(s: State)
    requires Inv(s) && Enabled(s, DoGate) && Unjoinable(s, s.current)
    ensures s.current in Apply(s, DoGate).threads && Apply(s, DoGate).threads[s.current].dead
  {
    LifeStep(s, DoGate, s.current);
  }

  /** A thread not created joinable is never joined, and dies at its exit gate at once. */
  lemma DetachedDies(s: State, steps: seq<Step>, s2: State)
    requires Inv(s) && Enabled(s, DoCreate(false)) && Inv(Apply(s, DoCreate(false)))
    requires Run(Apply(s, DoCreate(false)), steps, s2) && Inv(s2)
    ensures !Enabled(s2, DoJoin(s.nextId))
    ensures s2.current == s.nextId && Enabled(s2, DoGate) ==>
      s.nextId in Apply(s2, DoGate).threads && Apply(s2, DoGate).threads[s.nextId].dead
  {
    var t, from := s.nextId, Apply(s, DoCreate(false));
    CreatesThread(s, false);
    UnjoinableRun(from, steps, s2, t);
    NeverJoined(s2, t);
    if s2.current == t && Enabled(s2, DoGate) {
      GateKills(s2);
    }
  }

  // ----- Joining

  /** A thread that leaves comes to its gate with nothing in between. */
  lemma ExitReachesGate(s: State)
    requires Inv(s) && Enabled(s, DoExit)
    ensures Apply(s, DoExit).current == s.current && Enabled(Apply(s, DoExit), DoGate)
  {}

  /** Waiting for `t` in the join loop, on the CPU or off it. */
  ghost predicate JoinsOn(s: State, j: Tid, t: Tid) {
    j in s.pc && (s.pc[j] == Joining(t) || s.pc[j] == InJoin(t))
  }

  lemma JoinStep(s: State, step: Step, j: Tid, t: Tid)
    requires Inv(s) && Enabled(s, step) && JoinsOn(s, j, t) && !Releases(s, step, t)
    ensures JoinsOn(Apply(s, step), j, t)
  {
    assert ThreadOk(s, j);
    if j == s.current {
      JoinerStep(s, step, t);
    } else {
      PcKept(s, step, j);
    }
  }

  lemma JoinerStep(s: State, step: Step, t: Tid)
    requires Inv(s) && Enabled(s, step) && JoinsOn(s, s.current, t) && !Releases(s, step, t)
    ensures JoinsOn(Apply(s, step), s.current, t)
  {
    assert ThreadOk(s, s.current);
    match step
    case DoWake(u) => LiveWakeable(s, u); WakeEffect(s, u, ByWake);
    case DoTest =>
      assert JoinerOk(s, s.current);
      PrepareEffect(s, INFTIME);
    case DoTick(now) => ExpireMovesDue(s, now);
    case DoReturn => assert s.current !in s.zombieq;
  }

  lemma {:induction false} JoinRun(from: State, steps: seq<Step>, s: State, j: Tid, t: Tid)
    requires Inv(from) && Run(from, steps, s) && JoinsOn(from, j, t) && !ReleasedIn(from, steps, t)
    ensures JoinsOn(s, j, t)
    decreases |steps|
  {
    if steps != [] {
      JoinStep(from, steps[0], j, t);
      StepInv(from, steps[0]);
      JoinRun(Apply(from, steps[0]), steps[1..], s, j, t);
    }
  }

  /** `bmk_sched_join(t)` does not return before `t` has announced its exit and been released. */
  lemma JoinWaits(s: State, t: Tid, steps: seq<Step>, s2: State)
    requires Inv(s) && Enabled(s, DoJoin(t)) && Inv(Apply(s, DoJoin(t))) && Run(Apply(s, DoJoin(t)), steps, s2)
    ensures ReleasedIn(Apply(s, DoJoin(t)), steps, t) || JoinsOn(s2, s.current, t)
  {
    if !ReleasedIn(Apply(s, DoJoin(t)), steps, t) {
      JoinRun(Apply(s, DoJoin(t)), steps, s2, s.current, t);
    }
  }

  // ----- Blocking

  /** Blocked, or about to block, until the deadline. */
  ghost predicate Sleeps(s: State, t: Tid, deadline: int) {
    && t in s.threads && t in s.pc && (s.pc[t] == InUser || s.pc[t] == InBlock)
    && s.threads[t].wakeup == deadline
    && if deadline == INFTIME then s.threads[t].blockq else s.threads[t].timeq
  }

  /** Made runnable again, or running already, by a wakeup or by the passing of the deadline. */
  ghost predicate Roused(s: State, t: Tid, why: Cause) {
    && t in s.threads && !s.threads[t].timeq && !s.threads[t].blockq && s.threads[t].cause == why
    && (s.threads[t].timedout <==> why == ByTimeout)
    && (s.threads[t].runq || (s.current == t && s.mode == Resuming))
  }

  lemma PreparesToSleep(s: State, deadline: int)
    requires Inv(s) && Enabled(s, DoPrepare(deadline))
    ensures Sleeps(Apply(s, DoPrepare(deadline)), s.current, deadline)
  {}

  /** The step ends the sleep: a wakeup, or a round of the scheduler not before the deadline. */
  predicate Rouses(step: Step, t: Tid, deadline: int) {
    step == DoWake(t) || (step.DoTick? && deadline != INFTIME && step.now >= deadline)
  }

  /** What a step does to a sleeping thread. */
  ghost predicate SleepGoes(s': State, step: Step, t: Tid, deadline: int) {
    if Rouses(step, t, deadline) then Roused(s', t, if step.DoWake? then ByWake else ByTimeout)
    else Sleeps(s', t, deadline)
  }

  /** Nothing else ends it, in particular no deadline that has not passed. */
  lemma SleepStep(s: State, step: Step, t: Tid, deadline: int)
    requires Inv(s) && Enabled(s, step) && Sleeps(s, t, deadline)
    ensures SleepGoes(Apply(s, step), step, t, deadline)
  {
    match step
    case DoWake(u) => SleepWake(s, u, t, deadline);
    case DoTick(now) => SleepTick(s, now, t, deadline);
    case DoGate => SleepGate(s, t, deadline);
    case DoTest => SleepTest(s, t, deadline);
    case DoReturn => SleepReturn(s, t, deadline);
    case _ => SleepOther(s, step, t, deadline);
  }

  lemma SleepWake(s: State, u: Tid, t: Tid, deadline: int)
    requires Inv(s) && Enabled(s, DoWake(u)) && Sleeps(s, t, deadline)
    ensures SleepGoes(Apply(s, DoWake(u)), DoWake(u), t, deadline)
  {
    assert ThreadOk(s, t);
    LiveWakeable(s, u);
    WakeEffect(s, u, ByWake);
  }

  lemma SleepOther(s: State, step: Step, t: Tid, deadline: int)
    requires Inv(s) && Enabled(s, step) && Sleeps(s, t, deadline)
    requires step.DoPrepare? || step.DoBlock? || step.DoYield? || step.DoCreate? || step.DoExit? || step.DoJoin?
    ensures Sleeps(Apply(s, step), t, deadline)
  {
    assert ThreadOk(s, t) && ThreadOk(s, s.current);
    if step.DoPrepare? {
      PrepareEffect(s, step.deadline);
    }
  }

  lemma SleepReturn(s: State, t: Tid, deadline: int)
    requires Inv(s) && Enabled(s, DoReturn) && Sleeps(s, t, deadline)
    ensures Sleeps(Apply(s, DoReturn), t, deadline)
  {
    assert ThreadOk(s, t) && ThreadOk(s, s.current) && t !in s.zombieq;
  }

  lemma SleepGate(s: State, t: Tid, deadline: int)
    requires Inv(s) && Enabled(s, DoGate) && Sleeps(s, t, deadline)
    ensures Sleeps(Apply(s, DoGate), t, deadline)
  {
    assert ThreadOk(s, s.current) && ThreadOk(s, t);
    if s.threads[s.current].mustjoin {
      GateAnnounces(s);
      SleepJoiner(s, t, deadline);
      PrepareEffect(WakeJoiner(s), INFTIME);
    }
  }

  /** The joiner that is woken is inside the join loop. */
  lemma SleepJoiner(s: State, t: Tid, deadline: int)
    requires Inv(s) && s.mode == Running && s.pc[s.current] == Leaving && Sleeps(s, t, deadline)
    requires Joiner(s.joinwq, s.current).Some? ==>
      Joiner(s.joinwq, s.current).value in s.threads && Wakeable(s.threads[Joiner(s.joinwq, s.current).value])
    ensures Sleeps(WakeJoiner(s), t, deadline) && WakeJoiner(s).threads[t] == s.threads[t]
  {
    JoinerFound(s.joinwq, s.current);
    if Joiner(s.joinwq, s.current).Some? {
      var j := Joiner(s.joinwq, s.current).value;
      assert (j, s.current) in s.joinwq && s.pc[j] == InJoin(s.current);
      WakeEffect(s, j, ByWake);
    }
  }

  lemma SleepTest(s: State, t: Tid, deadline: int)
    requires Inv(s) && Enabled(s, DoTest) && Sleeps(s, t, deadline)
    ensures Sleeps(Apply(s, DoTest), t, deadline)
  {
    assert JoinerOk(s, s.current) && ThreadOk(s, s.current) && ThreadOk(s, t);
    var u := s.pc[s.current].target;
    if s.threads[u].joined {
      ReleaseInv(s);
      assert ThreadOk(s, u);
      WakeEffect(s, u, ByWake);
    } else {
      PrepareEffect(s, INFTIME);
    }
  }

  lemma SleepTick(s: State, now: int, t: Tid, deadline: int)
    requires Inv(s) && s.mode == Scheduling && Sleeps(s, t, deadline)
    ensures SleepGoes(Apply(s, DoTick(now)), DoTick(now), t, deadline)
  {
    assert ThreadOk(s, t);
    TickCases(s, now);
    TickIsStep(s, now);
    SleepExpire(s, now, t, deadline);
    if Expire(s, now).runq != [] {
      SleepDispatch(Expire(s, now), DoTick(now), t, deadline);
    }
  }

  lemma TickCases(s: State, now: int)
    requires Inv(s) && s.mode == Scheduling
    ensures
      var s1 := Expire(s, now);
      && s1.mode == Scheduling && s1.current in s1.threads
      && if s1.runq == [] then Tick(s, now) == s1
         else s1.runq[0] in s1.threads && s1.threads[s1.runq[0]].runq && Tick(s, now) == Dispatch(s1)
  {
    HeadRunnable(Expire(s, now));
  }

  lemma TickIsStep(s: State, now: int)
    requires Inv(s) && s.mode == Scheduling
    ensures Apply(s, DoTick(now)) == Tick(s, now)
  {}

  lemma HeadRunnable(s: State)
    requires Inv(s)
    ensures s.current in s.threads
    ensures s.runq != [] ==> s.runq[0] in s.threads && s.threads[s.runq[0]].runq
  {
    if s.runq != [] {
      assert s.runq[0] in s.runq && Bit(s.threads[s.runq[0]], Runq);
    }
  }

  lemma SleepDispatch(s: State, step: Step, t: Tid, deadline: int)
    requires s.runq != [] && s.runq[0] in s.threads && s.threads[s.runq[0]].runq && s.current in s.threads
    requires SleepGoes(s, step, t, deadline) && t in s.threads && step.DoTick? && s.mode == Scheduling
    requires s.threads[t].runq ==> !s.threads[t].timeq && !s.threads[t].blockq
    ensures SleepGoes(Dispatch(s), step, t, deadline)
  {
    if !Rouses(step, t, deadline) {
      SleepDispatched(s, t, deadline);
    }
  }

  lemma SleepDispatched(s: State, t: Tid, deadline: int)
    requires s.runq != [] && s.runq[0] in s.threads && s.threads[s.runq[0]].runq && s.current in s.threads
    requires Sleeps(s, t, deadline) && !s.threads[t].runq
    ensures Sleeps(Dispatch(s), t, deadline)
  {}

  lemma SleepExpire(s: State, now: int, t: Tid, deadline: int)
    requires Inv(s) && s.mode == Scheduling && Sleeps(s, t, deadline) && ThreadOk(s, t)
    ensures SleepGoes(Expire(s, now), DoTick(now), t, deadline) && t in Expire(s, now).threads
    ensures
      var th := Expire(s, now).threads[t];
      th.runq ==> !th.timeq && !th.blockq
  {
    DueExpires(s, now, t);
    SleepMoved(s, Expire(s, now), now, t, deadline);
  }

  lemma DueExpires(s: State, now: int, t: Tid)
    requires Inv(s) && s.mode == Scheduling && t in s.threads
    ensures
      var s1, th := Expire(s, now), s.threads[t];
      && s1.pc == s.pc && t in s1.threads
      && s1.threads[t] == if th.timeq && th.wakeup <= now then Expired(th) else th
  {
    ExpireMovesDue(s, now);
    assert Bit(s.threads[t], Timeq) == s.threads[t].timeq;
    DueFirst(s.timeq, s.threads, now, t);
  }

  lemma SleepMoved(s: State, s1: State, now: int, t: Tid, deadline: int)
    requires Sleeps(s, t, deadline) && s1.pc == s.pc && t in s1.threads && ThreadOk(s, t)
    requires s1.threads[t] ==
      if s.threads[t].timeq && s.threads[t].wakeup <= now then Expired(s.threads[t]) else s.threads[t]
    ensures SleepGoes(s1, DoTick(now), t, deadline)
    ensures s1.threads[t].runq ==> !s1.threads[t].timeq && !s1.threads[t].blockq
  {}

  /** In a sorted queue the due threads are the ones in front of the place of `now`. */
  lemma DueFirst(q: seq<Tid>, threads: map<Tid, Thread>, now: int, t: Tid)
    requires Sorted(q, threads) && NoDup(q) && (forall u :: u in q ==> u in threads)
    ensures t in q[..TimeqPlace(q, threads, now)] <==> t in q && threads[t].wakeup <= now
  {
    var n := TimeqPlace(q, threads, now);
    if t in q {
      var i :| 0 <= i < |q| && q[i] == t;
      assert i < n ==> q[..n][i] == t;
      if n < |q| {
        assert q[n] in q && q[i] in q;
      }
    }
  }

  lemma {:induction false} SleepRun(from: State, steps: seq<Step>, s: State, t: Tid, deadline: int)
    requires Inv(from) && Run(from, steps, s) && Sleeps(from, t, deadline)
    requires forall i :: 0 <= i < |steps| ==> !Rouses(steps[i], t, deadline)
    ensures Sleeps(s, t, deadline)
    decreases |steps|
  {
    if steps != [] {
      SleepStep(from, steps[0], t, deadline);
      StepInv(from, steps[0]);
      SleepRun(Apply(from, steps[0]), steps[1..], s, t, deadline);
    }
  }

  /**
    From `blockprepare` on: a thread sleeps until it is woken or a round of the scheduler comes
    at or after its deadline, whichever is first, and each of the two ends the sleep, the
    second as a timeout. Without a deadline only a wakeup does.
   */
  lemma SleepsUntil(s: State, deadline: int, steps: seq<Step>, s2: State, last: Step)
    requires Inv(s) && Enabled(s, DoPrepare(deadline)) && Inv(Apply(s, DoPrepare(deadline)))
    requires Run(Apply(s, DoPrepare(deadline)), steps, s2) && Inv(s2) && Enabled(s2, last)
    requires forall i :: 0 <= i < |steps| ==> !Rouses(steps[i], s.current, deadline)
    ensures Sleeps(s2, s.current, deadline)
    ensures Rouses(last, s.current, deadline) ==>
      Roused(Apply(s2, last), s.current, if last.DoWake? then ByWake else ByTimeout)
  {
    PreparesToSleep(s, deadline);
    SleepRun(Apply(s, DoPrepare(deadline)), steps, s2, s.current, deadline);
    SleepStep(s2, last, s.current, deadline);
  }
}
