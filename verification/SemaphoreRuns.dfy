/**
  Semaphores over whole runs.  Each property is about one semaphore `m` and the way it is
  used; everything else a safe run does in between is arbitrary.
 */
module SemaphoreRuns {
  import opened Threads
  import opened Scheduler
  import opened SchedulerInvariant
  import opened SchedulerEffects
  import opened SchedulerRuns
  import opened SchedulerLives

  /** What a step does to the record of `m`. */
  function NextSem(s: State, e: Event, m: Semaphore): Sem
    requires Enabled(s, e) && m in s.sems
  {
    var sem := s.sems[m];
    if e == Lock(m) then
      if sem.count >= sem.maxCount then sem.(waiters := sem.waiters + [s.cpu.tcb])
      else sem.(count := sem.count + 1)
    else if e == Unlock(m) then
      if sem.waiters != [] then sem.(waiters := sem.waiters[1..]) else sem.(count := sem.count - 1)
    else if e == Wait(m) then
      if sem.count - 1 < sem.maxCount then Sem(sem.maxCount, sem.count - 1, sem.waiters + [s.cpu.tcb])
      else sem.(count := sem.count - 1)
    else if (e == Post(m) || e == Key(m)) && sem.waiters != [] then
      Sem(sem.maxCount, sem.count + 1, sem.waiters[1..])
    else sem
  }

  lemma SectionSem(s: State, e: Event, m: Semaphore)
    requires Enabled(s, e) && IsSection(e) && m in s.sems
    ensures var x := AtRelease(s, e); m in x.sems && x.sems[m] == NextSem(s, e, m)
  {
  }

  lemma SectionStepSem(s: State, e: Event, m: Semaphore)
    requires Enabled(s, e) && IsSection(e) && m in s.sems
    ensures m in Step(s, e).sems && Step(s, e).sems[m] == NextSem(s, e, m)
  {
    StepShape(s, e);
    SectionSem(s, e, m);
    ReleaseKept(AtRelease(s, e));
  }

  lemma StepSem(s: State, e: Event, m: Semaphore)
    requires Inv(s) && Enabled(s, e) && Safe(s, e) && m in s.sems
    ensures m in Step(s, e).sems && Step(s, e).sems[m] == NextSem(s, e, m)
  {
    if IsSection(e) {
      SectionStepSem(s, e, m);
    } else {
      OtherStepSem(s, e, m);
    }
  }

  lemma OtherStepSem(s: State, e: Event, m: Semaphore)
    requires Enabled(s, e) && !IsSection(e) && m in s.sems
    ensures m in Step(s, e).sems && Step(s, e).sems[m] == NextSem(s, e, m)
  {
    if e.HltReturns? {
      IdleTestKept(s);
    }
  }

  // ---------------------------------------------------------------- lock and unlock

  /** Who holds `m`, who ever blocked in locking it, and to whom of those it was handed over, in order. */
  datatype Use = Use(holders: multiset<Tcb>, blocked: seq<Tcb>, granted: seq<Tcb>)

  const Unused := Use(multiset{}, [], [])

  function NextUse(s: State, e: Event, m: Semaphore, u: Use): Use
    requires Enabled(s, e) && m in s.sems
  {
    var sem := s.sems[m];
    if e == Lock(m) then
      if sem.count < sem.maxCount then u.(holders := u.holders + multiset{s.cpu.tcb})
      else u.(blocked := u.blocked + [s.cpu.tcb])
    else if e == Unlock(m) then
      if sem.waiters == [] then u.(holders := u.holders - multiset{s.cpu.tcb})
      else u.(holders := u.holders - multiset{s.cpu.tcb} + multiset{sem.waiters[0]},
              granted := u.granted + [sem.waiters[0]])
    else u
  }

  /** `m` is used through lock and unlock only, and unlocked only by a holder. */
  predicate Disciplined(s: State, e: Event, m: Semaphore, u: Use)
    requires Enabled(s, e)
  {
    && e != Wait(m) && e != Post(m) && e != Key(m)
    && (e == Unlock(m) ==> s.cpu.tcb in u.holders)
  }

  predicate DisciplinedThroughout(s: State, es: seq<Event>, m: Semaphore, u: Use)
    requires Possible(s, es) && m in s.sems
    decreases |es|
  {
    es == [] ||
    (&& Disciplined(s, es[0], m, u)
     && m in Step(s, es[0]).sems
     && DisciplinedThroughout(Step(s, es[0]), es[1..], m, NextUse(s, es[0], m, u)))
  }

  function RunUse(s: State, es: seq<Event>, m: Semaphore, u: Use): Use
    requires Possible(s, es) && m in s.sems && DisciplinedThroughout(s, es, m, u)
    decreases |es|
  {
    if es == [] then u else RunUse(Step(s, es[0]), es[1..], m, NextUse(s, es[0], m, u))
  }

  /** The waiters are those that blocked and were not granted the semaphore, in order. */
  predicate Exclusive(sem: Sem, u: Use) {
    && sem.count == |u.holders|
    && 0 <= |u.holders| <= sem.maxCount
    && (sem.waiters != [] ==> |u.holders| == sem.maxCount)
    && u.blocked == u.granted + sem.waiters
  }

  lemma StepExclusive(s: State, e: Event, m: Semaphore, u: Use)
    requires Enabled(s, e) && m in s.sems && Exclusive(s.sems[m], u) && Disciplined(s, e, m, u)
    ensures var sem, next, v := s.sems[m], NextSem(s, e, m), NextUse(s, e, m, u);
      && Exclusive(next, v) && u.blocked <= v.blocked && u.granted <= v.granted
      && (e == Unlock(m) && sem.waiters != [] ==> next.count == sem.count)
  {
    var sem := s.sems[m];
    if e == Unlock(m) && sem.waiters != [] {
      assert sem.waiters == [sem.waiters[0]] + sem.waiters[1..];
    }
  }

  /** `t` is neither on the CPU nor ready to get it. */
  predicate Stopped(s: State, t: Tcb) {
    StatusOf(s, t) == Paused && s.cpu != Thread(t) && t !in s.ready
  }

  /** Whoever blocked in locking and was not granted the semaphore yet has not returned from it. */
  predicate BlockedStopped(s: State, u: Use) {
    forall i :: |u.granted| <= i < |u.blocked| ==> Stopped(s, u.blocked[i])
  }

  lemma WaitersAreStopped(s: State, m: Semaphore)
    requires Inv(s) && m in s.sems
    ensures var q := s.sems[m].waiters; forall i :: 0 <= i < |q| ==> Stopped(s, q[i])
  {
    var q := s.sems[m].waiters;
    assert QueueOk(s, q, Paused);
    forall i | 0 <= i < |q|
      ensures Stopped(s, q[i])
    {
      assert q[i] in q;
    }
  }

  lemma WaitersStopped(s: State, m: Semaphore, u: Use)
    requires Inv(s) && m in s.sems && Exclusive(s.sems[m], u)
    ensures BlockedStopped(s, u)
  {
    WaitersAreStopped(s, m);
    forall i | |u.granted| <= i < |u.blocked|
      ensures Stopped(s, u.blocked[i])
    {
      assert u.blocked[i] == s.sems[m].waiters[i - |u.granted|];
    }
  }

  /**
    Throughout a disciplined, safe run the count is the number of holders, which never
    exceeds the maximum, and threads wait only while it is reached.  Blocked threads are
    granted the semaphore in the order in which they blocked, and until then they do not run.
   */
  lemma {:induction false} SemaphoreExclusion(s: State, es: seq<Event>, m: Semaphore, u: Use)
    requires Inv(s) && Possible(s, es) && SafeThroughout(s, es)
    requires m in s.sems && Exclusive(s.sems[m], u) && DisciplinedThroughout(s, es, m, u)
    ensures var r, v := Run(s, es), RunUse(s, es, m, u);
      && m in r.sems && r.sems[m].maxCount == s.sems[m].maxCount
      && Exclusive(r.sems[m], v)
      && u.blocked <= v.blocked && u.granted <= v.granted
      && BlockedStopped(r, v)
    decreases |es|
  {
    if es == [] {
      WaitersStopped(s, m, u);
    } else {
      StepSem(s, es[0], m);
      StepKeeps(s, es[0]);
      StepExclusive(s, es[0], m, u);
      SemaphoreExclusion(Step(s, es[0]), es[1..], m, NextUse(s, es[0], m, u));
    }
  }

  /**
    At most one thread holds a mutex, at any time after `create_mutex`, and every other
    thread that called `lock` on it is stopped in that call.
   */
  lemma MutualExclusion(s: State, es: seq<Event>, m: Semaphore, a: Tcb, b: Tcb)
    requires Inv(s) && Enabled(s, NewSemaphore(m, 1))
    requires var s1 := CreateSemaphore(s, m, 1);
      Possible(s1, es) && SafeThroughout(s1, es) && DisciplinedThroughout(s1, es, m, Unused)
    ensures var s1 := CreateSemaphore(s, m, 1); var v := RunUse(s1, es, m, Unused);
      && (a in v.holders && b in v.holders ==> a == b && v.holders[a] == 1)
      && BlockedStopped(Run(s1, es), v)
      && m in Run(s1, es).sems && v.blocked == v.granted + Run(s1, es).sems[m].waiters
  {
    var s1 := CreateSemaphore(s, m, 1);
    var v := RunUse(s1, es, m, Unused);
    NewSemaphoreKeeps(s, m, 1);
    SemaphoreExclusion(s1, es, m, Unused);
    if a in v.holders && b in v.holders {
      var rest := v.holders - multiset{a};
      assert v.holders == rest + multiset{a};
      assert |rest| == 0;
    }
  }

  /**
    A semaphore created with maximum `max` and used like this admits exactly `max` threads:
    a `lock` takes the CPU from its caller if and only if that many hold it already.
   */
  lemma AdmitsMaximum(s: State, es: seq<Event>, m: Semaphore, max: nat)
    requires Inv(s) && Enabled(s, NewSemaphore(m, max))
    requires var s1 := CreateSemaphore(s, m, max);
      Possible(s1, es) && SafeThroughout(s1, es) && DisciplinedThroughout(s1, es, m, Unused)
    ensures var s1 := CreateSemaphore(s, m, max); var r, n := Run(s1, es), |RunUse(s1, es, m, Unused).holders|;
      && n <= max
      && (Enabled(r, Lock(m)) ==> (Step(r, Lock(m)).cpu != r.cpu <==> n == max))
  {
    var s1 := CreateSemaphore(s, m, max);
    NewSemaphoreKeeps(s, m, max);
    SemaphoreExclusion(s1, es, m, Unused);
    RunKeeps(s1, es);
    if Enabled(Run(s1, es), Lock(m)) {
      LosesCpu(Run(s1, es), Lock(m));
    }
  }

  // ---------------------------------------------------------------- wait and post

  /** Who ever waited on `m` and who of those was woken, in order. */
  datatype Turns = Turns(waited: seq<Tcb>, woken: seq<Tcb>)

  function NextTurns(s: State, e: Event, m: Semaphore, w: Turns): Turns
    requires Enabled(s, e)
  {
    var q := SemOf(s, m).waiters;
    if e == Wait(m) then w.(waited := w.waited + [s.cpu.tcb])
    else if (e == Post(m) || e == Key(m)) && q != [] then w.(woken := w.woken + [q[0]])
    else w
  }

  predicate OnlyWaitAndPost(es: seq<Event>, m: Semaphore) {
    forall i :: 0 <= i < |es| ==> es[i] != Lock(m) && es[i] != Unlock(m)
  }

  /** The waiters are those that waited and were not woken, in order, and the count is minus their number. */
  predicate WaitQueue(sem: Sem, w: Turns) {
    sem.maxCount >= 0 && sem.count == -|sem.waiters| && w.waited == w.woken + sem.waiters
  }

  /**
    Used with wait and post only, the count is minus the number of waiters, every wait
    blocks, and a post (or key press) wakes exactly the longest waiter or does nothing.
   */
  lemma StepWaitQueue(s: State, e: Event, m: Semaphore, w: Turns)
    requires Enabled(s, e) && m in s.sems && WaitQueue(s.sems[m], w)
    requires e != Lock(m) && e != Unlock(m)
    ensures var old_, new_, v := s.sems[m].waiters, NextSem(s, e, m).waiters, NextTurns(s, e, m, w);
      && WaitQueue(NextSem(s, e, m), v) && w.waited <= v.waited && w.woken <= v.woken
      && (e == Wait(m) ==> new_ == old_ + [s.cpu.tcb])
      && (e == Post(m) || e == Key(m) ==> new_ == if old_ == [] then [] else old_[1..])
      && (e != Wait(m) && e != Post(m) && e != Key(m) ==> new_ == old_)
  {
    var q := s.sems[m].waiters;
    assert q != [] ==> q == [q[0]] + q[1..];
  }

  lemma WaitQueueStep(s: State, e: Event, m: Semaphore, w: Turns)
    requires Inv(s) && Enabled(s, e) && Safe(s, e)
    requires m in s.sems && WaitQueue(s.sems[m], w) && e != Lock(m) && e != Unlock(m)
    ensures var r, v := Step(s, e), NextTurns(s, e, m, w);
      Inv(r) && m in r.sems && WaitQueue(r.sems[m], v) && w.waited <= v.waited && w.woken <= v.woken
  {
    StepSem(s, e, m);
    StepKeeps(s, e);
    StepWaitQueue(s, e, m, w);
  }

  function RunTurns(s: State, es: seq<Event>, m: Semaphore, w: Turns): Turns
    requires Possible(s, es)
    decreases |es|
  {
    if es == [] then w else RunTurns(Step(s, es[0]), es[1..], m, NextTurns(s, es[0], m, w))
  }

  /** Whoever waited and was not woken yet has not returned from the call. */
  predicate UnwokenStopped(s: State, w: Turns) {
    forall i :: |w.woken| <= i < |w.waited| ==> Stopped(s, w.waited[i])
  }

  /**
    Over any safe run that uses `m` with wait and post only: every wait blocks its caller,
    who stays paused and off the CPU until it is woken, and those woken are the ones that
    waited first, in order.
   */
  lemma {:induction false} WaitQueueKept(s: State, es: seq<Event>, m: Semaphore, w: Turns)
    requires Inv(s) && Possible(s, es) && SafeThroughout(s, es)
    requires m in s.sems && WaitQueue(s.sems[m], w) && OnlyWaitAndPost(es, m)
    ensures var r, v := Run(s, es), RunTurns(s, es, m, w);
      && m in r.sems && WaitQueue(r.sems[m], v) && w.waited <= v.waited && w.woken <= v.woken
      && UnwokenStopped(r, v)
    decreases |es|
  {
    if es == [] {
      UnwokenWait(s, m, w);
    } else {
      WaitQueueStep(s, es[0], m, w);
      WaitQueueKept(Step(s, es[0]), es[1..], m, NextTurns(s, es[0], m, w));
    }
  }

  lemma UnwokenWait(s: State, m: Semaphore, w: Turns)
    requires Inv(s) && m in s.sems && WaitQueue(s.sems[m], w)
    ensures UnwokenStopped(s, w)
  {
    WaitersAreStopped(s, m);
    forall i | |w.woken| <= i < |w.waited|
      ensures Stopped(s, w.waited[i])
    {
      assert w.waited[i] == s.sems[m].waiters[i - |w.woken|];
    }
  }

  /** The posted thread goes to the ready queue, or straight to the CPU. */
  lemma PostWakesFirst(s: State, m: Semaphore)
    requires Enabled(s, Key(m)) && s.sems[m].waiters != []
    requires s.cpu.Thread? ==> StatusOf(s, s.cpu.tcb) == Running
    ensures var r, t := PostSemaphore(s, m), s.sems[m].waiters[0];
      && r.sems[m].waiters == s.sems[m].waiters[1..] && r.ready == s.ready + [t] && StatusOf(r, t) == Running
  {
    PostShape(s, m);
  }

  /** A post nobody waits for leaves no trace. */
  lemma PostIsDropped(s: State, m: Semaphore)
    requires Enabled(s, Key(m)) && s.sems[m].waiters == []
    ensures PostSemaphore(s, m) == s
  {
    PostShape(s, m);
  }

  lemma FirstWaitShape(s: State, m: Semaphore, max: int)
    requires Inv(s) && Enabled(s, NewSemaphore(m, max))
    ensures var x, c := WaitBody(LockPostpone(CreateSemaphore(s, m, max)), m), s.cpu.tcb;
      && m in x.sems && x.sems[m].waiters == (if max >= 0 then [c] else [])
      && x.flag == (max >= 0) && StatusOf(x, c) == (if max >= 0 then Paused else Running)
      && x.ready == s.ready && x.cpu == s.cpu && x.postpone == 1
  {
    WaitShape(CreateSemaphore(s, m, max), m);
  }

  /**
    The first wait on a new semaphore blocks exactly when its maximum is not negative: the
    caller is then its one waiter, paused and off the CPU.
   */
  lemma FirstWaitBlocks(s: State, m: Semaphore, max: int)
    requires Inv(s) && Enabled(s, NewSemaphore(m, max))
    ensures var r, c := WaitSemaphore(CreateSemaphore(s, m, max), m), s.cpu.tcb;
      && m in r.sems
      && (max >= 0 <==> r.sems[m].waiters == [c])
      && (max >= 0 <==> StatusOf(r, c) == Paused)
      && (max >= 0 <==> r.cpu != Thread(c))
  {
    FirstWaitShape(s, m, max);
    if s.ready != [] {
      assert s.ready[0] in s.ready;
    }
  }
}
