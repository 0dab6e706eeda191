/** Whole runs of the scheduler: where every thread is, and how the invariant can be lost. */
module SchedulerRuns {
  import opened Common
  import opened Threads
  import opened Scheduler
  import opened SchedulerInvariant

  // ---------------------------------------------------------------- the invariant over runs

  predicate SafeThroughout(s: State, es: seq<Event>)
    requires Possible(s, es)
    decreases |es|
  {
    es == [] || (Safe(s, es[0]) && SafeThroughout(Step(s, es[0]), es[1..]))
  }

  predicate InvThroughout(s: State, es: seq<Event>)
    requires Possible(s, es)
    decreases |es|
  {
    Inv(s) && (es == [] || InvThroughout(Step(s, es[0]), es[1..]))
  }

  lemma InitInv(kernel: Tcb)
    ensures Inv(Init(kernel))
  {
  }

  /** A run keeps the invariant in all its states exactly when all its steps are safe. */
  lemma {:induction false} RunKeeps(s: State, es: seq<Event>)
    requires Inv(s) && Possible(s, es)
    ensures InvThroughout(s, es) <==> SafeThroughout(s, es)
    ensures SafeThroughout(s, es) ==> Inv(Run(s, es))
    decreases |es|
  {
    if es != [] {
      StepKeeps(s, es[0]);
      if Safe(s, es[0]) {
        RunKeeps(Step(s, es[0]), es[1..]);
      }
    }
  }

  // ---------------------------------------------------------------- one place each

  datatype Place = OnCpu | InReady | InSleeping | InTerminated | WaitingFor(m: Semaphore) | Parked

  predicate At(s: State, t: Tcb, p: Place) {
    match p
    case OnCpu => s.cpu == Thread(t)
    case InReady => t in s.ready
    case InSleeping => t in s.sleeping
    case InTerminated => t in s.terminated
    case WaitingFor(m) => m in s.sems && t in s.sems[m].waiters
    case Parked => t == s.butler && ButlerParked(s)
  }

  function PlaceStatus(p: Place): Status {
    match p
    case OnCpu => Running
    case InReady => Running
    case InSleeping => Sleeping
    case InTerminated => Terminated
    case WaitingFor(_) => Paused
    case Parked => Paused
  }

  lemma PlaceTellsStatus(s: State, t: Tcb, p: Place)
    requires Inv(s) && At(s, t, p)
    ensures Live(s, t) && StatusOf(s, t) == PlaceStatus(p)
  {
    if p.WaitingFor? {
      assert QueueOk(s, s.sems[p.m].waiters, Paused);
    }
  }

  /**
    In every state a safe run reaches, every thread that was created and not reclaimed is
    in exactly one place; its state is RUNNING exactly on the CPU and in the ready queue.
    A reclaimed thread is nowhere.
   */
  lemma OnePlace(kernel: Tcb, es: seq<Event>, t: Tcb)
    requires Possible(Init(kernel), es) && SafeThroughout(Init(kernel), es)
    ensures var s := Run(Init(kernel), es);
      && (t in s.created && t !in s.freed ==>
          && (exists p :: At(s, t, p))
          && (StatusOf(s, t) == Running <==> At(s, t, OnCpu) || At(s, t, InReady)))
      && (forall p, q :: At(s, t, p) && At(s, t, q) ==> p == q)
      && (t in s.freed ==> forall p :: !At(s, t, p))
      && NoDup(s.ready) && NoDup(s.sleeping) && NoDup(s.terminated)
      && (forall m :: m in s.sems ==> NoDup(s.sems[m].waiters))
  {
    InitInv(kernel);
    RunKeeps(Init(kernel), es);
    var s := Run(Init(kernel), es);
    forall p | At(s, t, p)
      ensures Live(s, t) && StatusOf(s, t) == PlaceStatus(p)
    {
      PlaceTellsStatus(s, t, p);
    }
    if t in s.created && t !in s.freed {
      assert Settled(s, t);
      if Waits(s, t) {
        var m :| m in s.sems && t in s.sems[m].waiters;
        assert At(s, t, WaitingFor(m));
      } else if StatusOf(s, t) == Paused {
        assert At(s, t, Parked);
      } else if StatusOf(s, t) == Sleeping {
        assert At(s, t, InSleeping);
      } else if StatusOf(s, t) == Terminated {
        assert At(s, t, InTerminated);
      } else {
        assert At(s, t, OnCpu) || At(s, t, InReady);
      }
    }
  }

  /** Between sections the counters are at rest: 0, 0, no request; 1 while idling. */
  lemma CountersAtRest(kernel: Tcb, es: seq<Event>)
    requires Possible(Init(kernel), es) && SafeThroughout(Init(kernel), es)
    ensures var s := Run(Init(kernel), es);
      s.postpone == 0 && !s.flag && s.irq == if s.cpu.Idle? then 1 else 0
  {
    InitInv(kernel);
    RunKeeps(Init(kernel), es);
  }
}
