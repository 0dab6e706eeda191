/**
  Every lock section in closed form: the state at its release, with the nested sections
  of `block_task` and `unblock_task` worked out, and what a release then leaves alone.
 */
module SchedulerEffects {
  import opened Threads
  import opened Scheduler
  import opened SchedulerInvariant

  function Blocking(s: State, reason: Status): State
    requires s.cpu.Thread?
  {
    SetStatus(LockPostpone(s), s.cpu.tcb, reason).(flag := true)
  }

  function Unblocking(s: State, t: Tcb): State {
    SetStatus(LockPostpone(s), t, Running).(ready := s.ready + [t])
  }

  predicate IsSection(e: Event) {
    !e.NewSemaphore? && !e.HltReturns?
  }

  function AtRelease(s: State, e: Event): (x: State)
    requires Enabled(s, e) && IsSection(e)
    ensures x.postpone == 1 && x.irq == s.irq + 1 && x.cpu == s.cpu && (x.flag ==> x.cpu.Thread?)
    ensures x.dispatched == s.dispatched && s.ready <= x.ready
    ensures x.butler == s.butler && x.lastRead == s.lastRead && x.idleTime == s.idleTime
  {
    match e
    case Lock(m) =>
      var sem := SemOf(s, m);
      if sem.count >= sem.maxCount then
        Blocking(s, Paused).(sems := s.sems[m := sem.(waiters := sem.waiters + [s.cpu.tcb])])
      else LockPostpone(s).(sems := s.sems[m := sem.(count := sem.count + 1)])
    case Wait(m) =>
      var sem := SemOf(s, m).(count := SemOf(s, m).count - 1);
      if sem.count < sem.maxCount then
        Blocking(s, Paused).(sems := s.sems[m := sem.(waiters := sem.waiters + [s.cpu.tcb])])
      else LockPostpone(s).(sems := s.sems[m := sem])
    case Unlock(m) =>
      var sem := SemOf(s, m);
      if sem.waiters != [] then
        Unblocking(s, sem.waiters[0]).(sems := s.sems[m := sem.(waiters := sem.waiters[1..])])
      else LockPostpone(s).(sems := s.sems[m := sem.(count := sem.count - 1)])
    case Post(m) => Posted(s, m)
    case Key(m) => Posted(s, m)
    case SleepUntil(until) =>
      if until < s.tick then LockPostpone(s)
      else
        var c := s.cpu.tcb;
        Blocking(s, Sleeping).(
          info := s.info[c := InfoOf(s, c).(pausedUntil := until, status := Sleeping)],
          sleeping := s.sleeping + [c], sleepSize := s.sleepSize + 1)
    case Create(t) =>
      LockPostpone(s).(
        info := s.info[t := Info(Running, 0, 0)], created := s.created + [t], ready := s.ready + [t])
    case Terminate =>
      Unblocking(SetStatus(s, s.cpu.tcb, Terminated), s.butler).(
        flag := true, terminated := s.terminated + [s.cpu.tcb])
    case Butler =>
      if s.terminated == [] then Blocking(s, Paused)
      else LockPostpone(s).(terminated := s.terminated[1..], freed := s.freed + {s.terminated[0]})
    case Tick => Ticked(s)
  }

  function Posted(s: State, m: Semaphore): State {
    var sem := SemOf(s, m);
    if sem.waiters != [] then
      Unblocking(s, sem.waiters[0]).(
        sems := s.sems[m := sem.(waiters := sem.waiters[1..], count := sem.count + 1)])
    else LockPostpone(s)
  }

  lemma LockShape(s: State, m: Semaphore)
    requires Enabled(s, Lock(m))
    ensures LockBody(LockPostpone(s), m) == AtRelease(s, Lock(m))
  {
  }

  lemma WaitShape(s: State, m: Semaphore)
    requires Enabled(s, Wait(m))
    ensures WaitBody(LockPostpone(s), m) == AtRelease(s, Wait(m))
  {
    var sem := SemOf(s, m).(count := SemOf(s, m).count - 1);
    var next := sem.(waiters := sem.waiters + [s.cpu.tcb]);
    assert s.sems[m := sem][m := next] == s.sems[m := next];
  }

  lemma UnlockShape(s: State, m: Semaphore)
    requires Enabled(s, Unlock(m))
    ensures UnlockBody(LockPostpone(s), m) == AtRelease(s, Unlock(m))
  {
  }

  lemma PostShape(s: State, m: Semaphore)
    requires Enabled(s, Key(m))
    ensures PostBody(LockPostpone(s), m) == Posted(s, m)
  {
  }

  lemma SleepShape(s: State, until: int)
    requires Enabled(s, SleepUntil(until))
    ensures MiliSleepUntil(s, until) == UnlockPostponeAndSchedule(AtRelease(s, SleepUntil(until)))
  {
    if until >= s.tick {
      var c := s.cpu.tcb;
      var s1 := QueueSleeper(s, until);
      assert s1 == s.(info := s.info[c := InfoOf(s, c).(pausedUntil := until)],
                      sleeping := s.sleeping + [c], sleepSize := s.sleepSize + 1);
      assert Schedule(SetStatus(LockPostpone(s1), c, Sleeping)) == AtRelease(s, SleepUntil(until));
    }
  }

  lemma TerminateShape(s: State)
    requires Enabled(s, Terminate)
    ensures TerminateBody(LockPostpone(s)) == AtRelease(s, Terminate)
  {
  }

  lemma ButlerShape(s: State)
    requires Enabled(s, Butler)
    ensures ButlerBody(LockPostpone(s)) == AtRelease(s, Butler)
  {
  }

  /** Every section step is the release of its closed form. */
  lemma StepShape(s: State, e: Event)
    requires Enabled(s, e) && IsSection(e)
    ensures Step(s, e) == UnlockPostponeAndSchedule(AtRelease(s, e))
  {
    match e
    case Lock(m) => LockShape(s, m);
    case Wait(m) => WaitShape(s, m);
    case Unlock(m) => UnlockShape(s, m);
    case Post(m) => PostShape(s, m);
    case Key(m) => PostShape(s, m);
    case SleepUntil(until) => SleepShape(s, until);
    case Create(t) =>
    case Terminate => TerminateShape(s);
    case Butler => ButlerShape(s);
    case Tick => PitShape(s);
  }

  /** Neither a release nor the idle loop's test touches these. */
  predicate Kept(x: State, r: State) {
    && r.sleeping == x.sleeping && r.sleepSize == x.sleepSize && r.terminated == x.terminated
    && r.sems == x.sems && r.tick == x.tick && r.created == x.created && r.freed == x.freed
    && r.butler == x.butler && x.info.Keys <= r.info.Keys
    && (forall t :: t in x.info ==>
          && r.info[t].status == x.info[t].status
          && r.info[t].pausedUntil == x.info[t].pausedUntil)
  }

  lemma ReleaseKept(x: State)
    requires x.postpone == 1 && (x.flag ==> x.cpu.Thread?)
    ensures Kept(x, UnlockPostponeAndSchedule(x))
  {
  }

  lemma IdleTestKept(s: State)
    requires s.cpu.Idle? && s.postpone == 0
    ensures Kept(s, IdleTest(s))
  {
  }
}
