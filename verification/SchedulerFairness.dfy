/**
  Properties of whole runs: the order of dispatching, when sleepers wake, and where the
  time goes.
 */
module SchedulerFairness {
  import opened Common
  import opened Threads
  import opened Scheduler
  import opened SchedulerInvariant
  import opened SchedulerEffects
  import opened SchedulerRuns

  // ---------------------------------------------------------------- round robin

  /** The threads dispatched so far, then those still to come if nothing else happens. */
  function Order(s: State): seq<Tcb> {
    s.dispatched + s.ready
  }

  lemma ReleaseOrder(x: State)
    requires x.postpone == 1 && (x.flag ==> x.cpu.Thread?)
    ensures Order(x) <= Order(UnlockPostponeAndSchedule(x))
    ensures x.dispatched <= UnlockPostponeAndSchedule(x).dispatched
  {
    if x.flag && x.ready != [] {
      assert x.dispatched + x.ready == (x.dispatched + [x.ready[0]]) + x.ready[1..];
    }
  }

  lemma StepOrder(s: State, e: Event)
    requires Enabled(s, e)
    ensures Order(s) <= Order(Step(s, e)) && s.dispatched <= Step(s, e).dispatched
  {
    if IsSection(e) {
      StepShape(s, e);
      ReleaseOrder(AtRelease(s, e));
    } else if e.HltReturns? && s.ready != [] {
      assert s.dispatched + s.ready == (s.dispatched + [s.ready[0]]) + s.ready[1..];
    }
  }

  /** At most one thread was dispatched, and it then has the CPU. */
  ghost predicate DispatchedOne(s: State, r: State) {
    r.dispatched == s.dispatched || exists t :: r.dispatched == s.dispatched + [t] && r.cpu == Thread(t)
  }

  lemma ReleaseDispatches(x: State, r: State)
    requires x.postpone == 1 && (x.flag ==> x.cpu.Thread?) && r == UnlockPostponeAndSchedule(x)
    ensures DispatchedOne(x, r)
  {
    if x.flag && x.ready != [] {
      assert r.dispatched == x.dispatched + [x.ready[0]] && r.cpu == Thread(x.ready[0]);
    }
  }

  /** A step dispatches at most one thread, and that thread then has the CPU. */
  lemma StepDispatches(s: State, e: Event)
    requires Inv(s) && Enabled(s, e) && Safe(s, e)
    ensures DispatchedOne(s, Step(s, e))
  {
    var r := Step(s, e);
    if IsSection(e) {
      StepShape(s, e);
      ReleaseDispatches(AtRelease(s, e), r);
    } else if e.HltReturns? && s.ready != [] {
      assert r.dispatched == s.dispatched + [s.ready[0]] && r.cpu == Thread(s.ready[0]);
    }
  }

  /** Whatever a safe run does, threads are dispatched in the order in which they became ready. */
  lemma {:induction false} DispatchOrder(s: State, es: seq<Event>)
    requires Inv(s) && Possible(s, es) && SafeThroughout(s, es)
    ensures Order(s) <= Order(Run(s, es)) && s.dispatched <= Run(s, es).dispatched
    decreases |es|
  {
    if es != [] {
      StepOrder(s, es[0]);
      StepKeeps(s, es[0]);
      DispatchOrder(Step(s, es[0]), es[1..]);
    }
  }

  /**
    Between `s` and `r` the threads at the first positions of the ready queue were dispatched,
    the one at `i` by the (i+1)-th dispatch; until then it moves up by one with every dispatch.
   */
  predicate Served(s: State, r: State, i: nat)
    requires i < |s.ready|
  {
    var n := |r.dispatched| - |s.dispatched|;
    && n >= 0
    && (n > i ==> r.dispatched[|s.dispatched| + i] == s.ready[i])
    && (n <= i ==> i - n < |r.ready| && r.ready[i - n] == s.ready[i])
  }

  lemma OrderServes(s: State, r: State, i: nat)
    requires Order(s) <= Order(r) && s.dispatched <= r.dispatched && i < |s.ready|
    ensures Served(s, r, i)
  {
    assert Order(s)[|s.dispatched| + i] == s.ready[i] == Order(r)[|s.dispatched| + i];
  }

  /** A thread at position `i` of the ready queue is taken by exactly the (i+1)-th dispatch from here on. */
  lemma RoundRobin(s: State, es: seq<Event>, i: nat)
    requires Inv(s) && Possible(s, es) && SafeThroughout(s, es) && i < |s.ready|
    ensures Served(s, Run(s, es), i)
  {
    DispatchOrder(s, es);
    OrderServes(s, Run(s, es), i);
  }

  // ---------------------------------------------------------------- sleeping

  function Deadline(s: State, t: Tcb): int {
    InfoOf(s, t).pausedUntil
  }

  /** What the sleep queue needs from the invariant. */
  predicate SleepOk(s: State) {
    && (s.sleeping == [] <==> s.sleepSize == 0)
    && (forall t :: t in s.sleeping ==> t in s.info && s.cpu != Thread(t))
    && NoDup(s.sleeping)
    && (s.cpu.Thread? ==> StatusOf(s, s.cpu.tcb) == Running)
  }

  lemma InvSleepOk(s: State)
    requires Inv(s)
    ensures SleepOk(s)
  {
  }

  /** `t` has the CPU or will get it. */
  predicate Runnable(s: State, t: Tcb) {
    t in s.ready || s.cpu == Thread(t)
  }

  /**
    A tick wakes exactly the first sleeper in queue order whose deadline it reaches, so
    none early, and no other.
   */
  predicate WokeFirstExpired(s: State, r: State) {
    var i := NextWoken(s);
    && r.tick == s.tick + 1
    && (forall j :: 0 <= j < i ==> Deadline(s, s.sleeping[j]) > r.tick)
    && (if i == |s.sleeping| then r.sleeping == s.sleeping
        else
          && Deadline(s, s.sleeping[i]) <= r.tick
          && r.sleeping == Without(s.sleeping, i) && Runnable(r, s.sleeping[i]))
    && (forall t :: t in s.info ==> t in r.info && Deadline(r, t) == Deadline(s, t))
  }

  lemma TickedWakes(s: State)
    requires SleepOk(s) && Enabled(s, Tick)
    ensures WokeFirstExpired(s, Ticked(s))
  {
    if NextWoken(s) < |s.sleeping| {
      assert s.sleeping[NextWoken(s)] in s.sleeping;
    }
  }

  /** A switch never loses a runnable thread: the one taken off the CPU is queued if it is running. */
  lemma RunnableGoesOn(x: State)
    requires x.postpone == 1 && (x.flag ==> x.cpu.Thread? && StatusOf(x, x.cpu.tcb) == Running)
    ensures forall t :: Runnable(x, t) ==> Runnable(UnlockPostponeAndSchedule(x), t)
  {
    if x.flag && x.ready != [] {
      assert x.ready == [x.ready[0]] + x.ready[1..];
    }
  }

  lemma ReleaseWakes(s: State, x: State)
    requires WokeFirstExpired(s, x)
    requires x.postpone == 1 && (x.flag ==> x.cpu.Thread? && StatusOf(x, x.cpu.tcb) == Running)
    ensures WokeFirstExpired(s, UnlockPostponeAndSchedule(x))
  {
    ReleaseKept(x);
    RunnableGoesOn(x);
  }

  lemma TickWakes(s: State)
    requires Inv(s)
    ensures WokeFirstExpired(s, PitInterrupt(s))
  {
    InvSleepOk(s);
    PitShape(s);
    TickedWakes(s);
    ReleaseWakes(s, Ticked(s));
  }

  lemma SectionLetsSleep(s: State, e: Event)
    requires SleepOk(s) && Enabled(s, e) && e != Tick && IsSection(e)
    ensures var x := AtRelease(s, e);
      && s.sleeping <= x.sleeping && x.tick == s.tick
      && forall t :: t in s.sleeping ==> t in x.info && Deadline(x, t) == Deadline(s, t)
  {
  }

  /** Nothing but a tick takes a thread off the sleep queue or moves its deadline. */
  lemma OthersLetSleep(s: State, e: Event)
    requires Inv(s) && Enabled(s, e) && Safe(s, e) && e != Tick
    ensures var r := Step(s, e);
      && s.sleeping <= r.sleeping && r.tick == s.tick
      && forall t :: t in s.sleeping ==> Deadline(r, t) == Deadline(s, t)
  {
    InvSleepOk(s);
    if IsSection(e) {
      StepShape(s, e);
      SectionLetsSleep(s, e);
      ReleaseKept(AtRelease(s, e));
    } else if e.HltReturns? {
      IdleTestKept(s);
    }
  }

  function Ticks(es: seq<Event>): nat {
    if es == [] then 0 else (if es[0] == Tick then 1 else 0) + Ticks(es[1..])
  }

  predicate WokenBy(s: State, e: Event, t: Tcb) {
    e == Tick && NextWoken(s) < |s.sleeping| && s.sleeping[NextWoken(s)] == t
  }

  /** Some tick of the run wakes `t`. */
  predicate WakesDuring(s: State, es: seq<Event>, t: Tcb)
    requires Possible(s, es)
    decreases |es|
  {
    && es != []
    && (WokenBy(s, es[0], t) || WakesDuring(Step(s, es[0]), es[1..], t))
  }

  /** Sleeper `i` is in the queue and the next tick is not before its deadline. */
  predicate Due(s: State, t: Tcb, i: int) {
    0 <= i < |s.sleeping| && s.sleeping[i] == t && Deadline(s, t) <= s.tick + 1
  }

  /** A sleeper at index `i` whose deadline the next tick reaches is woken within i + 1 ticks. */
  lemma {:induction false} SleepBound(s: State, es: seq<Event>, i: nat)
    requires Inv(s) && Possible(s, es) && SafeThroughout(s, es)
    requires i < |s.sleeping| && Deadline(s, s.sleeping[i]) <= s.tick + 1
    requires Ticks(es) >= i + 1
    ensures WakesDuring(s, es, s.sleeping[i])
    decreases |es|
  {
    var e, r, t := es[0], Step(s, es[0]), s.sleeping[i];
    SleeperMoves(s, e, i, r);
    if !WokenBy(s, e, t) {
      SleepBound(r, es[1..], if e == Tick then i - 1 else i);
    }
  }

  /** A step that does not wake the sleeper moves it up by one if it is a tick, and not at all otherwise. */
  lemma SleeperMoves(s: State, e: Event, i: nat, r: State)
    requires Inv(s) && Enabled(s, e) && Safe(s, e) && r == Step(s, e)
    requires i < |s.sleeping| && Deadline(s, s.sleeping[i]) <= s.tick + 1
    ensures Inv(r)
    ensures !WokenBy(s, e, s.sleeping[i]) ==> Due(r, s.sleeping[i], if e == Tick then i - 1 else i)
  {
    StepKeeps(s, e);
    if e == Tick {
      SleeperTicks(s, i, r);
    } else {
      SleeperStays(s, e, i, r);
    }
  }

  lemma SleeperTicks(s: State, i: nat, r: State)
    requires Inv(s) && r == PitInterrupt(s) && i < |s.sleeping| && Deadline(s, s.sleeping[i]) <= s.tick + 1
    ensures NextWoken(s) != i ==> Due(r, s.sleeping[i], i - 1)
  {
    TickWakes(s);
    TickMoves(s, i, r);
  }

  lemma SleeperStays(s: State, e: Event, i: nat, r: State)
    requires Inv(s) && Enabled(s, e) && Safe(s, e) && r == Step(s, e) && e != Tick
    requires i < |s.sleeping| && Deadline(s, s.sleeping[i]) <= s.tick + 1
    ensures Due(r, s.sleeping[i], i)
  {
    OthersLetSleep(s, e);
    StaysAt(s, i, r);
  }

  lemma TickMoves(s: State, i: nat, r: State)
    requires WokeFirstExpired(s, r) && (forall t :: t in s.sleeping ==> t in s.info)
    requires i < |s.sleeping| && Deadline(s, s.sleeping[i]) <= s.tick + 1
    ensures NextWoken(s) != i ==>
      && 0 < i <= |r.sleeping| && r.sleeping[i - 1] == s.sleeping[i]
      && Deadline(r, s.sleeping[i]) <= r.tick + 1
  {
    assert s.sleeping[i] in s.sleeping;
  }

  lemma StaysAt(s: State, i: nat, r: State)
    requires i < |s.sleeping| && s.sleeping <= r.sleeping && r.tick == s.tick
    requires forall t :: t in s.sleeping ==> Deadline(r, t) == Deadline(s, t)
    ensures i < |r.sleeping| && r.sleeping[i] == s.sleeping[i] && Deadline(r, r.sleeping[i]) == Deadline(s, s.sleeping[i])
  {
    assert s.sleeping[i] in s.sleeping;
  }

  // ---------------------------------------------------------------- round robin in time

  /** Time moves with ticks only. */
  lemma StepTick(s: State, e: Event)
    requires Inv(s) && Enabled(s, e) && Safe(s, e)
    ensures Step(s, e).tick == s.tick + if e == Tick then 1 else 0
  {
    if e == Tick {
      TickWakes(s);
    } else {
      OthersLetSleep(s, e);
    }
  }

  /** Every third tick makes a request, and the release behind it switches if a thread is ready. */
  lemma ThirdTickDispatches(s: State)
    requires Inv(s) && s.cpu.Thread? && (s.tick + 1) % 3 == 0 && s.ready != []
    ensures |PitInterrupt(s).dispatched| == |s.dispatched| + 1
  {
    PitShape(s);
    TickedAsks(s);
    AskedReleases(Ticked(s));
  }

  lemma TickedAsks(s: State)
    requires s.postpone == 0 && s.cpu.Thread? && (s.tick + 1) % 3 == 0 && s.ready != []
    ensures var x := Ticked(s);
      x.postpone == 1 && x.flag && x.cpu.Thread? && x.ready != [] && x.dispatched == s.dispatched
  {
  }

  lemma AskedReleases(x: State)
    requires x.postpone == 1 && x.flag && x.cpu.Thread? && x.ready != []
    ensures |UnlockPostponeAndSchedule(x).dispatched| == |x.dispatched| + 1
  {
  }

  /** The event is a third tick that finds the kernel idle. */
  predicate IdleThird(s: State, e: Event) {
    e == Tick && (s.tick + 1) % 3 == 0 && s.cpu.Idle?
  }

  /** No third tick of the run finds the kernel idle. */
  predicate BusyThirds(s: State, es: seq<Event>)
    requires Possible(s, es)
    decreases |es|
  {
    es == [] || (!IdleThird(s, es[0]) && BusyThirds(Step(s, es[0]), es[1..]))
  }

  /** Some step of the run ends with `t` on the CPU. */
  predicate GetsCpu(s: State, es: seq<Event>, t: Tcb)
    requires Possible(s, es)
    decreases |es|
  {
    es != [] && (Step(s, es[0]).cpu == Thread(t) || GetsCpu(Step(s, es[0]), es[1..], t))
  }

  /** `t` is at index `i` of the ready queue. */
  predicate Waiting(s: State, t: Tcb, i: int) {
    0 <= i < |s.ready| && s.ready[i] == t
  }

  /** A ready thread that was not dispatched keeps its place if none was, and moves up otherwise. */
  lemma ReadyMoves(s: State, r: State, i: nat)
    requires i < |s.ready| && Served(s, r, i) && DispatchedOne(s, r)
    ensures r.cpu == Thread(s.ready[i]) || Waiting(r, s.ready[i], if r.dispatched == s.dispatched then i else i - 1)
  {
    if r.dispatched != s.dispatched {
      var t :| r.dispatched == s.dispatched + [t] && r.cpu == Thread(t);
      assert r.dispatched[|s.dispatched|] == t;
    }
  }

  lemma StepServes(s: State, e: Event, i: nat, r: State)
    requires Inv(s) && Enabled(s, e) && Safe(s, e) && r == Step(s, e) && i < |s.ready|
    ensures Served(s, r, i) && DispatchedOne(s, r)
  {
    StepOrder(s, e);
    StepDispatches(s, e);
    OrderServes(s, r, i);
  }

  /** The ticks until the (i+1)-th third tick from now. */
  function TicksTo(s: State, i: int): int {
    3 * i + 3 - s.tick % 3
  }

  /** What a step does to a ready thread and to the time. */
  ghost predicate Proceeds(s: State, e: Event, r: State, i: nat)
    requires i < |s.ready|
  {
    && Served(s, r, i) && DispatchedOne(s, r) && r.tick == s.tick + (if e == Tick then 1 else 0)
    && (e == Tick && (s.tick + 1) % 3 == 0 ==> r.dispatched != s.dispatched)
  }

  lemma StepProceeds(s: State, e: Event, i: nat, r: State)
    requires Inv(s) && Enabled(s, e) && Safe(s, e) && r == Step(s, e) && i < |s.ready| && !IdleThird(s, e)
    ensures Proceeds(s, e, r, i)
  {
    StepServes(s, e, i, r);
    StepTick(s, e);
    if e == Tick && (s.tick + 1) % 3 == 0 {
      ThirdTickDispatches(s);
    }
  }

  /** So it gets the CPU or comes as much closer to it as time passes. */
  lemma Closer(s: State, e: Event, i: nat, r: State) returns (j: int)
    requires i < |s.ready| && Proceeds(s, e, r, i)
    ensures r.cpu == Thread(s.ready[i]) ||
      (Waiting(r, s.ready[i], j) && TicksTo(r, j) <= TicksTo(s, i) - if e == Tick then 1 else 0)
  {
    ReadyMoves(s, r, i);
    j := if r.dispatched == s.dispatched then i else i - 1;
  }

  lemma {:induction false} ReachesCpu(s: State, es: seq<Event>, i: nat)
    requires Inv(s) && Possible(s, es) && SafeThroughout(s, es) && BusyThirds(s, es)
    requires i < |s.ready| && Ticks(es) >= TicksTo(s, i)
    ensures GetsCpu(s, es, s.ready[i])
    decreases |es|
  {
    var e, r := es[0], Step(s, es[0]);
    StepProceeds(s, e, i, r);
    var j := Closer(s, e, i, r);
    StepKeeps(s, e);
    if r.cpu != Thread(s.ready[i]) {
      ReachesCpu(r, es[1..], j);
    }
  }

  /**
    While the kernel is busy at every third tick, a thread at index `i` of the ready queue
    gets the CPU within 3 * (i + 1) ticks.
   */
  lemma RoundRobinInTime(s: State, es: seq<Event>, i: nat)
    requires Inv(s) && Possible(s, es) && SafeThroughout(s, es) && BusyThirds(s, es)
    requires i < |s.ready| && Ticks(es) >= 3 * (i + 1)
    ensures GetsCpu(s, es, s.ready[i])
  {
    ReachesCpu(s, es, i);
  }
}
