/** When a thread loses the CPU, how long it sleeps, and how it ends. */
module SchedulerLives {
  import opened Common
  import opened Threads
  import opened Scheduler
  import opened SchedulerInvariant
  import opened SchedulerEffects
  import opened SchedulerRuns
  import opened SchedulerFairness

  // ---------------------------------------------------------------- losing the CPU

  /** The call by the current thread blocks it. */
  predicate Blocks(s: State, e: Event)
    requires Enabled(s, e)
  {
    match e
    case Lock(m) => s.sems[m].count >= s.sems[m].maxCount
    case Wait(m) => s.sems[m].count <= s.sems[m].maxCount
    case SleepUntil(until) => until >= s.tick
    case Terminate => true
    case Butler => s.terminated == []
    case _ => false
  }

  /** Every third tick takes the CPU away if another thread is ready, or woken by this tick. */
  predicate Preempts(s: State, e: Event) {
    e == Tick && (s.tick + 1) % 3 == 0 && (s.ready != [] || NextWoken(s) < |s.sleeping|)
  }

  function Reason(e: Event): Status {
    match e
    case SleepUntil(_) => Sleeping
    case Terminate => Terminated
    case _ => Paused
  }

  /** Whether a section asks for a switch, and in what state it leaves the caller for its release. */
  predicate Asks(s: State, e: Event, x: State)
    requires Enabled(s, e) && s.cpu.Thread?
  {
    && x.postpone == 1 && x.cpu == s.cpu
    && (x.flag <==> Blocks(s, e) || (e == Tick && (s.tick + 1) % 3 == 0))
    && StatusOf(x, s.cpu.tcb) == (if Blocks(s, e) then Reason(e) else Running)
  }

  lemma SectionAsks(s: State, e: Event)
    requires Inv(s) && Enabled(s, e) && Safe(s, e) && IsSection(e) && s.cpu.Thread?
    ensures Asks(s, e, AtRelease(s, e))
  {
    if e == Tick && NextWoken(s) < |s.sleeping| {
      assert s.sleeping[NextWoken(s)] in s.sleeping;
    }
    if (e.Post? || e.Key? || e.Unlock?) && s.sems[e.m].waiters != [] {
      FirstWaiterKnown(s, e.m);
    }
  }

  /** The caller is not the first of the ready queue then. */
  predicate OthersFirst(s: State, e: Event, x: State)
    requires s.cpu.Thread?
  {
    && (x.ready != [] ==> x.ready[0] != s.cpu.tcb)
    && (e == Tick ==> (x.ready != [] <==> s.ready != [] || NextWoken(s) < |s.sleeping|))
  }

  lemma SectionOthersFirst(s: State, e: Event)
    requires Inv(s) && Enabled(s, e) && Safe(s, e) && IsSection(e) && s.cpu.Thread? && AtRelease(s, e).flag
    ensures OthersFirst(s, e, AtRelease(s, e))
  {
    if s.ready != [] {
      assert s.ready[0] in s.ready;
    } else if e == Tick && NextWoken(s) < |s.sleeping| {
      assert s.sleeping[NextWoken(s)] in s.sleeping;
    }
  }

  lemma ReleaseLeaves(x: State, c: Tcb)
    requires x.postpone == 1 && x.cpu == Thread(c) && (x.flag && x.ready != [] ==> x.ready[0] != c)
    ensures var r := UnlockPostponeAndSchedule(x);
      && (r.cpu != x.cpu <==> x.flag && (x.ready != [] || StatusOf(x, c) != Running))
      && StatusOf(r, c) == StatusOf(x, c)
      && (r.cpu != x.cpu && StatusOf(x, c) == Running ==> r.ready != [] && r.ready[|r.ready| - 1] == c)
  {
  }

  /** How the CPU was lost, or not. */
  predicate Outcome(s: State, e: Event, r: State)
    requires Enabled(s, e) && s.cpu.Thread?
  {
    var c := s.cpu.tcb;
    && (r.cpu != s.cpu <==> Blocks(s, e) || Preempts(s, e))
    && StatusOf(r, c) == (if Blocks(s, e) then Reason(e) else Running)
    && (Preempts(s, e) ==> r.ready != [] && r.ready[|r.ready| - 1] == c)
  }

  lemma SectionOutcome(s: State, e: Event, x: State)
    requires Enabled(s, e) && s.cpu.Thread? && Asks(s, e, x) && (x.flag ==> OthersFirst(s, e, x))
    ensures Outcome(s, e, UnlockPostponeAndSchedule(x))
  {
    ReleaseLeaves(x, s.cpu.tcb);
  }

  /**
    The current thread loses the CPU exactly if its call blocks, or to another thread at a
    third tick.  If it blocked its state says why; if not, it is the last of the ready queue.
   */
  lemma LosesCpu(s: State, e: Event)
    requires Inv(s) && Enabled(s, e) && Safe(s, e) && s.cpu.Thread?
    ensures Outcome(s, e, Step(s, e))
  {
    if IsSection(e) {
      StepShape(s, e);
      SectionAsks(s, e);
      if AtRelease(s, e).flag {
        SectionOthersFirst(s, e);
      }
      SectionOutcome(s, e, AtRelease(s, e));
    }
  }

  /** The idle loop ends exactly when `hlt` returns and a thread is ready, and the first one runs. */
  lemma IdleEnds(s: State, e: Event)
    requires Inv(s) && Enabled(s, e) && Safe(s, e) && s.cpu.Idle?
    ensures var r := Step(s, e);
      && (r.cpu != s.cpu <==> e.HltReturns? && s.ready != [])
      && (r.cpu != s.cpu ==> r.cpu == Thread(s.ready[0]) && r.ready == s.ready[1..])
  {
    if IsSection(e) {
      StepShape(s, e);
    }
  }

  // ---------------------------------------------------------------- sleeping at least as long

  /** Where a sleep call leaves the caller: last in the sleep queue with its deadline, or as if nothing was called. */
  lemma SleepQueues(s: State, until: int)
    requires Inv(s) && Enabled(s, SleepUntil(until))
    ensures var r, c := Step(s, SleepUntil(until)), s.cpu.tcb;
      if until < s.tick then r == s
      else r.sleeping == s.sleeping + [c] && Deadline(r, c) == until && r.tick == s.tick
  {
    var x := AtRelease(s, SleepUntil(until));
    StepShape(s, SleepUntil(until));
    if until >= s.tick {
      ReleaseKept(x);
    }
  }

  predicate SleepsTill(s: State, c: Tcb, until: int) {
    c in s.sleeping && Deadline(s, c) == until
  }

  lemma StepSleeps(s: State, e: Event, c: Tcb, until: int)
    requires Inv(s) && Enabled(s, e) && Safe(s, e) && SleepsTill(s, c, until)
    ensures var r := Step(s, e); SleepsTill(r, c, until) || r.tick >= until
  {
    if e == Tick {
      TickWakes(s);
      StillAsleep(s, Step(s, e), c, until);
    } else {
      OthersLetSleep(s, e);
    }
  }

  lemma StillAsleep(s: State, r: State, c: Tcb, until: int)
    requires WokeFirstExpired(s, r) && SleepsTill(s, c, until) && c in s.info
    ensures SleepsTill(r, c, until) || r.tick >= until
  {
    var i := NextWoken(s);
    if i < |s.sleeping| && c != s.sleeping[i] {
      var j :| 0 <= j < |s.sleeping| && s.sleeping[j] == c;
      assert Without(s.sleeping, i)[if j < i then j else j - 1] == c;
    }
  }

  /** A sleeper stays asleep until its deadline, whatever a safe run does. */
  lemma {:induction false} SleepsUntil(s: State, es: seq<Event>, c: Tcb, until: int)
    requires Inv(s) && Possible(s, es) && SafeThroughout(s, es)
    requires SleepsTill(s, c, until) || s.tick >= until
    ensures var r := Run(s, es); SleepsTill(r, c, until) || r.tick >= until
    decreases |es|
  {
    if es != [] {
      if SleepsTill(s, c, until) {
        StepSleeps(s, es[0], c, until);
      }
      StepTick(s, es[0]);
      StepKeeps(s, es[0]);
      SleepsUntil(Step(s, es[0]), es[1..], c, until);
    }
  }

  // ---------------------------------------------------------------- the order of ends

  /** Who ended and who of those was reclaimed, in order. */
  datatype Ends = Ends(ended: seq<Tcb>, reclaimed: seq<Tcb>)

  function NextEnds(s: State, e: Event, w: Ends): Ends
    requires Enabled(s, e)
  {
    if e == Terminate then w.(ended := w.ended + [s.cpu.tcb])
    else if e == Butler && s.terminated != [] then w.(reclaimed := w.reclaimed + [s.terminated[0]])
    else w
  }

  predicate Later(w: Ends, v: Ends) {
    w.ended <= v.ended && w.reclaimed <= v.reclaimed
  }

  function RunEnds(s: State, es: seq<Event>, w: Ends): Ends
    requires Possible(s, es)
    decreases |es|
  {
    if es == [] then w else RunEnds(Step(s, es[0]), es[1..], NextEnds(s, es[0], w))
  }

  /** Those that ended and were not reclaimed are in the terminated queue; the reclaimed ones are freed. */
  ghost predicate EndsHold(s: State, w: Ends) {
    && w.ended == w.reclaimed + s.terminated
    && forall t :: t in s.freed <==> t in w.reclaimed
  }

  lemma SectionEnds(s: State, e: Event, w: Ends)
    requires Enabled(s, e) && IsSection(e) && EndsHold(s, w)
    ensures EndsHold(AtRelease(s, e), NextEnds(s, e, w))
  {
    if e == Butler && s.terminated != [] {
      assert s.terminated == [s.terminated[0]] + s.terminated[1..];
    }
  }

  lemma StepEnds(s: State, e: Event, w: Ends)
    requires Inv(s) && Enabled(s, e) && Safe(s, e) && EndsHold(s, w)
    ensures EndsHold(Step(s, e), NextEnds(s, e, w)) && Inv(Step(s, e))
  {
    StepKeeps(s, e);
    if IsSection(e) {
      StepShape(s, e);
      SectionEnds(s, e, w);
      ReleaseKept(AtRelease(s, e));
    } else if e.HltReturns? {
      IdleTestKept(s);
    }
  }

  /** A thread that ended runs no more, so it does not end again. */
  lemma EndsOnce(s: State, e: Event, w: Ends)
    requires Inv(s) && Enabled(s, e) && EndsHold(s, w) && NoDup(w.ended)
    ensures NoDup(NextEnds(s, e, w).ended)
  {
    if e == Terminate {
      assert forall t <- w.ended :: t in w.reclaimed || t in s.terminated;
    }
  }

  /**
    Over any safe run threads are reclaimed in the order in which they ended, each once,
    and no other thread is freed.
   */
  lemma {:induction false} ReclaimedInOrder(s: State, es: seq<Event>, w: Ends)
    requires Inv(s) && Possible(s, es) && SafeThroughout(s, es) && EndsHold(s, w) && NoDup(w.ended)
    ensures var v := RunEnds(s, es, w);
      EndsHold(Run(s, es), v) && Later(w, v) && NoDup(v.ended)
    decreases |es|
  {
    if es != [] {
      EndsOnce(s, es[0], w);
      StepEnds(s, es[0], w);
      ReclaimedInOrder(Step(s, es[0]), es[1..], NextEnds(s, es[0], w));
    }
  }
}
