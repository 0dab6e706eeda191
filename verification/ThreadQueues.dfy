/**
  The queues of a kernel state over the one `next` link of each thread: the ready, sleeping
  and terminated lists and the waiters of every semaphore are disjoint chains.
 */
module ThreadQueues {
  import opened Common
  import opened Threads
  import opened Scheduler

  /** A queue. */
  datatype Slot = Ready | Asleep | Dead | Waiters(s: Semaphore)

  /** The queue a thread is in. */
  datatype Tag = Off | On(k: Slot)

  function QueueOf(m: State, k: Slot): seq<Tcb> {
    match k
    case Ready => m.ready
    case Asleep => m.sleeping
    case Dead => m.terminated
    case Waiters(s) => SemOf(m, s).waiters
  }

  /**
    Queue `k` is a null-terminated chain without duplicates, and its threads are tagged with
    it, so they are in no other queue.
   */
  ghost predicate Slotted(m: State, tags: map<Tcb, Tag>, next: map<Tcb, Option<Tcb>>, k: Slot) {
    IsChain(next, QueueOf(m, k)) && forall t <- QueueOf(m, k) :: t in tags && tags[t] == On(k)
  }

  /** A tagged thread is in its queue. */
  predicate Found(m: State, tags: map<Tcb, Tag>, t: Tcb)
    requires t in tags
  {
    tags[t].On? ==> t in QueueOf(m, tags[t].k)
  }

  ghost predicate Chained(m: State, tags: map<Tcb, Tag>, next: map<Tcb, Option<Tcb>>) {
    && tags.Keys == m.info.Keys && next.Keys == m.info.Keys
    && (forall k {:trigger Slotted(m, tags, next, k)} :: Slotted(m, tags, next, k))
    && (forall t {:trigger Found(m, tags, t)} :: t in tags ==> Found(m, tags, t))
  }

  /** `r` is `m` with queue `k` replaced by `q`. */
  ghost predicate Requeued(m: State, r: State, k: Slot, q: seq<Tcb>) {
    && r.info.Keys == m.info.Keys
    && QueueOf(r, k) == q
    && forall h {:trigger QueueOf(r, h)} :: h != k ==> QueueOf(r, h) == QueueOf(m, h)
  }

  predicate InNoQueue(m: State, t: Tcb) {
    && t !in m.ready && t !in m.sleeping && t !in m.terminated
    && forall s {:trigger m.sems[s]} :: s in m.sems ==> t !in m.sems[s].waiters
  }

  /** A thread is tagged `Off` exactly when it is in no queue. */
  lemma OffIsNowhere(m: State, tags: map<Tcb, Tag>, next: map<Tcb, Option<Tcb>>, t: Tcb)
    requires Chained(m, tags, next) && t in tags
    ensures tags[t] == Off <==> InNoQueue(m, t)
  {
    assert Found(m, tags, t);
    assert Slotted(m, tags, next, Ready) && Slotted(m, tags, next, Asleep) && Slotted(m, tags, next, Dead);
    forall s | s in m.sems ensures t in m.sems[s].waiters ==> tags[t] == On(Waiters(s)) {
      assert Slotted(m, tags, next, Waiters(s));
    }
  }

  /** So a thread is in at most one queue. */
  lemma OneQueue(m: State, tags: map<Tcb, Tag>, next: map<Tcb, Option<Tcb>>, k: Slot, h: Slot, t: Tcb)
    requires Chained(m, tags, next) && t in QueueOf(m, k) && t in QueueOf(m, h)
    ensures k == h
  {
    assert Slotted(m, tags, next, k) && Slotted(m, tags, next, h);
  }

  /** Putting a thread that is in no queue at the end of one keeps all the chains. */
  lemma PushKeeps(m: State, r: State, tags: map<Tcb, Tag>, next: map<Tcb, Option<Tcb>>, k: Slot, t: Tcb)
    requires Chained(m, tags, next) && t in tags && tags[t] == Off
    requires Requeued(m, r, k, QueueOf(m, k) + [t])
    ensures Chained(r, tags[t := On(k)], Pushed(next, QueueOf(m, k), t))
  {
    var tags1, next1, q := tags[t := On(k)], Pushed(next, QueueOf(m, k), t), QueueOf(m, k);
    assert Slotted(m, tags, next, k);
    PushedIsChain(next, q, t);
    forall h ensures Slotted(r, tags1, next1, h) {
      if h != k {
        assert Slotted(m, tags, next, h);
        ChainKept(next, next1, QueueOf(m, h));
      }
    }
    forall u | u in tags1 ensures Found(r, tags1, u) {
      assert u != t ==> Found(m, tags, u);
    }
    assert q != [] ==> q[|q| - 1] in q;
  }

  /** Taking a thread out of its queue keeps all the chains. */
  lemma RemoveKeeps(m: State, r: State, tags: map<Tcb, Tag>, next: map<Tcb, Option<Tcb>>, k: Slot, i: nat)
    requires Chained(m, tags, next) && i < |QueueOf(m, k)|
    requires Requeued(m, r, k, Without(QueueOf(m, k), i))
    ensures Chained(r, tags[QueueOf(m, k)[i] := Off], Unlinked(next, QueueOf(m, k), i))
  {
    var q := QueueOf(m, k);
    var t, tags1, next1 := q[i], tags[q[i] := Off], Unlinked(next, q, i);
    assert Slotted(m, tags, next, k);
    assert t in q && (i > 0 ==> q[i - 1] in q);
    UnlinkedIsChain(next, q, i);
    WithoutDistinct(q, i);
    forall h ensures Slotted(r, tags1, next1, h) {
      if h != k {
        assert Slotted(m, tags, next, h);
        ChainKept(next, next1, QueueOf(m, h));
      }
    }
    forall u | u in tags1 ensures Found(r, tags1, u) {
      assert Found(m, tags, u);
    }
  }

  /** The first thread of a queue leaves; no link changes. */
  lemma PopKeeps(m: State, r: State, tags: map<Tcb, Tag>, next: map<Tcb, Option<Tcb>>, k: Slot)
    requires Chained(m, tags, next) && QueueOf(m, k) != []
    requires Requeued(m, r, k, QueueOf(m, k)[1..])
    ensures var t := QueueOf(m, k)[0]; t in m.info && Chained(r, tags[t := Off], next)
  {
    assert Slotted(m, tags, next, k) && QueueOf(m, k)[0] in QueueOf(m, k);
    assert Without(QueueOf(m, k), 0) == QueueOf(m, k)[1..];
    RemoveKeeps(m, r, tags, next, k, 0);
  }

  /** What leaves the queues and the threads alone keeps the chains. */
  lemma RestatedChained(m: State, r: State, tags: map<Tcb, Tag>, next: map<Tcb, Option<Tcb>>)
    requires Chained(m, tags, next) && r.info.Keys == m.info.Keys
    requires r.ready == m.ready && r.sleeping == m.sleeping && r.terminated == m.terminated
    requires r.sems == m.sems || forall s {:trigger SemOf(r, s)} :: SemOf(r, s).waiters == SemOf(m, s).waiters
    ensures Chained(r, tags, next)
  {
    forall h ensures Slotted(r, tags, next, h) {
      assert Slotted(m, tags, next, h);
    }
    forall u | u in tags ensures Found(r, tags, u) {
      assert Found(m, tags, u);
    }
  }

  /** A new thread is in no queue. */
  lemma AdmitKeeps(m: State, r: State, tags: map<Tcb, Tag>, next: map<Tcb, Option<Tcb>>, t: Tcb)
    requires Chained(m, tags, next) && t !in m.info && r.info.Keys == m.info.Keys + {t}
    requires forall h {:trigger QueueOf(r, h)} :: QueueOf(r, h) == QueueOf(m, h)
    ensures Chained(r, tags[t := Off], next[t := None])
  {
    var tags1, next1 := tags[t := Off], next[t := None];
    forall h ensures Slotted(r, tags1, next1, h) {
      assert Slotted(m, tags, next, h);
      ChainKept(next, next1, QueueOf(m, h));
    }
    forall u | u in tags1 ensures Found(r, tags1, u) {
      assert u != t ==> Found(m, tags, u);
    }
  }
}
