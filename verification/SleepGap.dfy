/**
  `mili_sleep_until` leaves its section before it blocks, so interrupts can come in between,
  when the thread is in the sleep queue and still running.  They are harmless exactly when
  no tick among them wakes the thread or switches.
 */
module SleepGap {
  import opened Common
  import opened Threads
  import opened Scheduler
  import opened SchedulerInvariant
  import opened SchedulerEffects

  /** `g` without the thread that was queued last. */
  function Before(g: State): State
    requires g.sleeping != []
  {
    var q := g.sleeping[..|g.sleeping| - 1];
    g.(sleeping := q, sleepSize := |q|)
  }

  /** Thread `c` is running and last in the sleep queue; all else is as between two sections. */
  predicate InGap(g: State, c: Tcb) {
    && g.sleeping != [] && g.sleeping[|g.sleeping| - 1] == c && g.sleepSize >= |g.sleeping|
    && g.cpu == Thread(c) && Inv(Before(g))
  }

  /** `size` may be corrected to the length of the chain. */
  lemma SizeIsFree(s: State, r: State)
    requires Inv(s) && SameThreads(s, r) && r.sems == s.sems
    requires r.cpu == s.cpu && r.ready == s.ready && r.sleeping == s.sleeping && r.terminated == s.terminated
    requires r.sleepSize == |r.sleeping| && r.postpone == s.postpone && r.flag == s.flag && r.irq == s.irq
    ensures Inv(r)
  {
    SameThreadsKeep(s, r);
    forall t | Live(r, t)
      ensures Settled(r, t)
    {
      assert Settled(s, t);
    }
  }

  /** What the section of the sleep call leaves; blocking next completes the call. */
  lemma GapIsReached(s: State, until: int)
    requires Inv(s) && Enabled(s, SleepUntil(until)) && until >= s.tick
    ensures var g, c := QueueSleeper(s, until), s.cpu.tcb;
      && InGap(g, c) && g.sleeping == s.sleeping + [c] && StatusOf(g, c) == Running
      && InfoOf(g, c).pausedUntil == until && MiliSleepUntil(s, until) == BlockTask(g, Sleeping)
  {
    var g, c := QueueSleeper(s, until), s.cpu.tcb;
    assert g == s.(info := s.info[c := InfoOf(s, c).(pausedUntil := until)],
                   sleeping := s.sleeping + [c], sleepSize := s.sleepSize + 1);
    assert g.sleeping[..|g.sleeping| - 1] == s.sleeping;
    SizeIsFree(s, Before(g));
  }

  /** From the gap the thread goes to sleep properly. */
  lemma SleepsWell(g: State, c: Tcb)
    requires InGap(g, c)
    ensures Inv(BlockTask(g, Sleeping))
  {
    var x := Schedule(SetStatus(LockPostpone(g), c, Sleeping));
    assert g.sleeping == Before(g).sleeping + [c];
    AsleepKeeps(Before(g), x);
    ReleaseKeeps(x);
  }

  // ---------------------------------------------------------------- harmless interrupts

  /** The tick finds the thread itself first among the expired sleepers. */
  predicate WakesItself(g: State) {
    NextWoken(g) == |g.sleeping| - 1
  }

  predicate SwitchesAway(g: State) {
    (g.tick + 1) % 3 == 0 && (g.ready != [] || NextWoken(g) < |g.sleeping|)
  }

  predicate Harmless(g: State, e: Event) {
    e == Tick ==> !WakesItself(g) && !SwitchesAway(g)
  }

  predicate IsInterrupt(e: Event) {
    e.Tick? || e.Key?
  }

  /** A post, in closed form. */
  function KeyPressed(s: State, m: Semaphore): State
    requires m in s.sems
  {
    var sem := s.sems[m];
    if sem.waiters == [] then s
    else
      SetStatus(s, sem.waiters[0], Running).(
        ready := s.ready + [sem.waiters[0]],
        sems := s.sems[m := sem.(waiters := sem.waiters[1..], count := sem.count + 1)])
  }

  lemma KeyShape(s: State, m: Semaphore)
    requires Enabled(s, Key(m))
    ensures PostSemaphore(s, m) == KeyPressed(s, m)
  {
    PostShape(s, m);
  }

  lemma KeyBefore(g: State, m: Semaphore)
    requires g.sleeping != [] && m in g.sems
    ensures Before(KeyPressed(g, m)) == KeyPressed(Before(g), m)
  {
  }

  lemma KeyInGap(g: State, c: Tcb, m: Semaphore)
    requires InGap(g, c) && m in g.sems
    ensures InGap(PostSemaphore(g, m), c)
  {
    PostKeeps(Before(g), m);
    KeyShape(g, m);
    KeyShape(Before(g), m);
    KeyBefore(g, m);
  }

  lemma FirstExpiredBefore(g: State, b: State, i: nat)
    requires i <= |b.sleeping| < |g.sleeping| && b.sleeping == g.sleeping[..|b.sleeping|]
    requires b.info == g.info && b.tick == g.tick
    ensures FirstExpired(g, i) < |b.sleeping| ==> FirstExpired(b, i) == FirstExpired(g, i)
    ensures FirstExpired(g, i) >= |b.sleeping| ==> FirstExpired(b, i) == |b.sleeping|
    decreases |b.sleeping| - i
  {
    if i < |b.sleeping| {
      FirstExpiredBefore(g, b, i + 1);
    }
  }

  /** A release that finds no request, or nobody to switch to. */
  lemma QuietRelease(x: State)
    requires x.postpone == 1
    requires x.flag ==> x.cpu.Thread? && x.ready == [] && StatusOf(x, x.cpu.tcb) == Running
    ensures UnlockPostponeAndSchedule(x) == x.(irq := x.irq - 1, postpone := 0, flag := false)
  {
  }

  /** A tick that does not switch. */
  function Ticks(s: State): State {
    var i := NextWoken(s);
    (if s.sleepSize > 0 && i < |s.sleeping| then Awoken(s, i) else s).(tick := s.tick + 1)
  }

  lemma QuietTick(s: State)
    requires s.postpone == 0 && !s.flag && s.cpu.Thread? && StatusOf(s, s.cpu.tcb) == Running
    requires (s.tick + 1) % 3 == 0 ==> s.ready == [] && NextWoken(s) == |s.sleeping|
    ensures PitInterrupt(s) == Ticks(s)
  {
    PitShape(s);
    QuietRelease(Ticked(s));
  }

  /** Such a tick does to the other sleepers what it does without the thread in the gap. */
  lemma WakingBefore(g: State, i: nat)
    requires i < |g.sleeping| - 1
    ensures var r, b := Awoken(g, i), Awoken(Before(g), i);
      r.sleeping != [] && r.sleeping[|r.sleeping| - 1] == g.sleeping[|g.sleeping| - 1]
      && Before(r) == b.(sleepSize := |b.sleeping|)
  {
    var n := |g.sleeping| - 1;
    assert Without(g.sleeping, i)[..n - 1] == Without(g.sleeping[..n], i);
  }

  lemma NextWokenBefore(g: State)
    requires g.sleeping != []
    ensures var i, n := NextWoken(g), |g.sleeping| - 1;
      NextWoken(Before(g)) == if i < n then i else n
  {
    FirstExpiredBefore(g.(tick := g.tick + 1), Before(g).(tick := g.tick + 1), 0);
  }

  lemma TicksBefore(g: State, c: Tcb)
    requires InGap(g, c) && !WakesItself(g)
    ensures var r, b := Ticks(g), Ticks(Before(g));
      r.sleeping != [] && r.sleeping[|r.sleeping| - 1] == c && r.sleepSize >= |r.sleeping|
      && Before(r) == b.(sleepSize := |b.sleeping|)
  {
    NextWokenBefore(g);
    if NextWoken(g) < |g.sleeping| - 1 {
      WakingBefore(g, NextWoken(g));
    }
  }

  lemma TicksKeep(b: State, r: State)
    requires Inv(b) && r == b.(sleepSize := |b.sleeping|)
    ensures Inv(r)
  {
    SizeIsFree(b, r);
  }

  lemma GapQuiet(g: State, c: Tcb)
    requires InGap(g, c) && Harmless(g, Tick)
    ensures PitInterrupt(g) == Ticks(g)
  {
    QuietTick(g);
  }

  lemma BeforeQuiet(g: State, c: Tcb)
    requires InGap(g, c) && Harmless(g, Tick)
    ensures PitInterrupt(Before(g)) == Ticks(Before(g))
  {
    NextWokenBefore(g);
    QuietTick(Before(g));
  }

  lemma HarmlessTick(g: State, c: Tcb)
    requires InGap(g, c) && Harmless(g, Tick)
    ensures InGap(PitInterrupt(g), c)
  {
    GapQuiet(g, c);
    BeforeQuiet(g, c);
    TickKeeps(Before(g));
    TicksBefore(g, c);
    TicksKeep(Ticks(Before(g)), Before(Ticks(g)));
  }

  /** The thread has lost the CPU, or is on the ready queue while it runs. */
  lemma HarmfulTick(g: State, c: Tcb)
    requires InGap(g, c) && !Harmless(g, Tick)
    ensures var r := PitInterrupt(g); r.cpu != g.cpu || c in r.ready
  {
    PitShape(g);
    var x, i := Ticked(g), NextWoken(g);
    assert c !in g.ready;
    if i < |g.sleeping| {
      assert x.ready == g.ready + [g.sleeping[i]];
    }
    HarmfulRelease(x, c);
  }

  lemma HarmfulRelease(x: State, c: Tcb)
    requires x.postpone == 1 && x.cpu == Thread(c) && StatusOf(x, c) == Running
    requires if x.flag then x.ready != [] else c in x.ready
    ensures var r := UnlockPostponeAndSchedule(x); r.cpu != Thread(c) || c in r.ready
  {
    if x.flag {
      assert UnlockPostponeAndSchedule(x).ready == x.ready[1..] + [c];
    }
  }

  /** What a tick that wakes the thread has done to the queues at its release. */
  lemma WokenTicked(g: State, c: Tcb)
    requires InGap(g, c) && WakesItself(g)
    ensures var x := Ticked(g);
      && x.ready == g.ready + [c] && x.cpu == Thread(c) && StatusOf(x, c) == Running && x.postpone == 1
      && c !in g.ready
  {
    assert c !in g.ready;
  }

  lemma WokenReleases(x: State, q: seq<Tcb>, c: Tcb)
    requires x.ready == q + [c] && c !in q && x.cpu == Thread(c) && StatusOf(x, c) == Running && x.postpone == 1
    ensures var r := UnlockPostponeAndSchedule(x);
      && r.postpone == 0 && !r.flag
      && (r.cpu == Thread(c) ==> c in r.ready)
      && (r.cpu != Thread(c) ==> !NoDup(r.ready))
  {
    var r := UnlockPostponeAndSchedule(x);
    if x.flag {
      assert r.ready == x.ready[1..] + [c];
      if q != [] {
        var n := |r.ready|;
        assert r.ready[n - 2] == c && r.ready[n - 1] == c;
      }
    }
  }

  lemma BlockedWhileReady(t: State, c: Tcb)
    requires t.cpu == Thread(c) && c in t.ready && t.postpone == 0 && !t.flag
    ensures !Inv(BlockTask(t, Sleeping))
  {
    var r := BlockTask(t, Sleeping);
    assert t.ready == [t.ready[0]] + t.ready[1..];
    assert r.ready == t.ready[1..] && r.cpu == Thread(t.ready[0]) && StatusOf(r, c) == Sleeping;
    if t.ready[0] != c {
      assert c in r.ready;
    }
  }

  /** A tick that wakes the thread itself always does harm: at once, or when the thread then blocks. */
  lemma WokenInGap(g: State, c: Tcb)
    requires InGap(g, c) && WakesItself(g)
    ensures var r := PitInterrupt(g);
      if r.cpu == Thread(c) then !Inv(BlockTask(r, Sleeping)) else !Inv(r)
  {
    PitShape(g);
    WokenTicked(g, c);
    WokenReleases(Ticked(g), g.ready, c);
    if PitInterrupt(g).cpu == Thread(c) {
      BlockedWhileReady(PitInterrupt(g), c);
    }
  }

  /** An interrupt leaves the thread in the gap exactly when it is harmless. */
  lemma GapStep(g: State, c: Tcb, e: Event)
    requires InGap(g, c) && Enabled(g, e) && IsInterrupt(e)
    ensures InGap(Step(g, e), c) <==> Harmless(g, e)
  {
    if e.Key? {
      KeyInGap(g, c, e.m);
    } else if Harmless(g, e) {
      HarmlessTick(g, c);
    } else {
      HarmfulTick(g, c);
    }
  }

  // ---------------------------------------------------------------- any number of them

  predicate HarmlessThroughout(g: State, es: seq<Event>)
    requires Possible(g, es)
    decreases |es|
  {
    es == [] || (Harmless(g, es[0]) && HarmlessThroughout(Step(g, es[0]), es[1..]))
  }

  /** `es` are interrupts, and none does harm. */
  predicate OnlyHarmless(g: State, es: seq<Event>) {
    (forall e <- es :: IsInterrupt(e)) && Possible(g, es) && HarmlessThroughout(g, es)
  }

  predicate InGapThroughout(g: State, c: Tcb, es: seq<Event>)
    requires Possible(g, es)
    decreases |es|
  {
    InGap(g, c) && (es == [] || InGapThroughout(Step(g, es[0]), c, es[1..]))
  }

  lemma {:induction false} GapRun(g: State, c: Tcb, es: seq<Event>)
    requires InGap(g, c) && Possible(g, es) && forall e <- es :: IsInterrupt(e)
    ensures InGapThroughout(g, c, es) <==> HarmlessThroughout(g, es)
    ensures HarmlessThroughout(g, es) ==> InGap(Run(g, es), c)
    decreases |es|
  {
    if es != [] {
      GapStep(g, c, es[0]);
      if Harmless(g, es[0]) {
        GapRun(Step(g, es[0]), c, es[1..]);
      }
    }
  }

  /**
    Whatever interrupts come in the gap of a sleep call, the thread stays in it, running and
    queued as a sleeper, exactly when none of them is a tick that wakes it or switches; it
    then goes to sleep properly.
   */
  lemma SleepInterrupted(s: State, until: int, es: seq<Event>)
    requires Inv(s) && Enabled(s, SleepUntil(until)) && until >= s.tick
    requires Possible(QueueSleeper(s, until), es) && forall e <- es :: IsInterrupt(e)
    ensures var g := QueueSleeper(s, until);
      && (InGapThroughout(g, s.cpu.tcb, es) <==> HarmlessThroughout(g, es))
      && (HarmlessThroughout(g, es) ==> Run(g, es).cpu == s.cpu && Inv(BlockTask(Run(g, es), Sleeping)))
  {
    var g, c := QueueSleeper(s, until), s.cpu.tcb;
    GapIsReached(s, until);
    GapRun(g, c, es);
    if HarmlessThroughout(g, es) {
      SleepsWell(Run(g, es), c);
    }
  }
}
