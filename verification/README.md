# BartOS: verified core

A Dafny model of the parts of the BartOS kernel that carry invariants over unbounded runs, with proofs of what they
keep. `dafny verify dfyconfig.toml` checks everything.

## The system

BartOS is a 32-bit x86 kernel for one processor.

**Threads.** `schedule`, the semaphores, the timer and the thread reaper share one `next` field per thread control
block, two nesting counters and a postponed-switch flag. `Threads` has the intrusive list over these links.
`Scheduler` is the whole kernel state as a value, with one function per kernel function and an event for everything
that can happen between two lock sections: calls by the current thread, timer ticks, key presses (which post a
semaphore) and the return of `hlt` in the idle loop. `ThreadQueues` says what it means that all queues of such a state
are disjoint, null-terminated chains through the one `next` field, and what each operation does to them.
`Multitask.Kernel` is the imperative kernel over global counters, the fields of control blocks and semaphores, and the
links; each method is proved to do what the function of the same name does and to keep every queue a chain of its own,
and `Multitask.Kernel.Run` lifts this to whole runs. `LockProtocol` looks inside sections: it follows single calls,
nesting in any way and interleaved with interrupts and switches.

Two events can break the queues, `SchedulerInvariant.StepKeeps` says exactly when, and both are reachable from boot.
The theorems about whole runs are about *safe* runs, in which they do not occur: there the sequences of the abstract
state are the chains of the code. `Threads` and `QueueSafety` say what the two events do to the links.

**Heap.** `HeapBlocks` is the boundary-tagged heap as the list of its blocks. `HeapRuns` is about ownership and runs.
`KernelHeap.Allocator` does the same to headers in a word-addressed memory, through `p_prev` and `p_next`, and
`AllocatorRuns` adds the owners' stores to whole runs.

**Frames and paging.** `FramePool` is the stack of free frames beside the status of every frame, `FrameBoot` the pool
`init_kalloc` builds, `FrameBitmap` the packing of sixteen 2-bit fields in a word, and
`KernelKalloc.FrameAllocator` the allocator in place. `Paging` is physical memory with the 32-bit page walk of
section 4.3 of the Intel SDM, Volume 3A; `VirtualMemory.PageTables` edits the tables through their virtual alias, and
`BootMemory.BootTables` builds them.

**Library.** `DlList` is the doubly linked list template over nodes, `NumberFormat` is `utoa` and `itoa`.

## Where the code departs from its intent

Contracts follow the code. Where a property one would expect is false, the lemma named here says exactly when it holds
or gives the run that breaks it.

- `list_thread_remove` leaves `size` one too large after removing an interior node, and decrements it when it finds
  nothing (`Threads.ThreadList.Remove`). Once `size` is too large, draining the sleep queue leaves it claiming a
  sleeper (`SchedulerWitnesses.SleepQueueGoesStale`); a tick keeps the kernel's invariant exactly when it does not drain
  such a queue. After such a drain `head` is null and `tail` left over, for ever (`Threads.ThreadList.PushBack`): later
  sleepers are never found, and the left-over thread's link, wherever it is queued now, leads to them
  (`Threads.CutByStaleTail`).
- A tick wakes one sleeper at most, because waking clears the link the walk follows (`Multitask.Kernel.WakeSleeper`).
- `terminate_task` puts the butler on the ready queue whether or not it is parked
  (`SchedulerWitnesses.ButlerQueuedTwice`); it keeps the invariant exactly when the butler is in no queue
  (`QueueSafety.SafeTerminate`). Otherwise the queue the butler was in ends behind it and the threads that followed are
  lost (`QueueSafety.TerminateCuts`), which a run from boot reaches (`QueueSafety.ThreadIsLost`).
- `mili_sleep_until` leaves its section before it blocks. The thread stays in that gap, running and queued, exactly
  while no tick wakes it or switches, and then goes to sleep properly (`SleepGap.SleepInterrupted`). A tick that wakes
  the thread itself always does harm (`SleepGap.WokenInGap`).
- `idleCPUTime` never changes (`SchedulerTime.TimeConserved`).
- A post nobody waits for is lost (`SemaphoreRuns.PostIsDropped`); waiting on a new semaphore with a negative maximum
  does not block (`SemaphoreRuns.FirstWaitBlocks`).
- Holding `lock_scheduler` across a switch leaves the next thread running with interrupts off
  (`LockProtocol.HeldAcrossSwitch`).
- `find_worst_fit` starts from the first block even if it is allocated, and then can miss every free block: after one
  request of more than about half of the heap no request succeeds, unless the request leaves a rest of 4 or 12 bytes
  (`HeapBlocks.FirstRequestStarves`).
- `init_heap` makes the first free block 16 bytes too large, so the last block before the tail always ends past the
  tail's header. The heap is sound after `malloc` exactly when the block taken is not that last one or keeps room for
  two headers (`HeapBlocks.MallocKeeps`); otherwise a caller owns the tail's header, or the rest's header is
  overwritten at once (`KernelHeap.SmallRestCorrupts`), and the first request can do this
  (`KernelHeap.FirstRequestCanCorrupt`). With 12 bytes left the next search never ends (`KernelHeap.RestOf12`); with 4
  it finds the rest, which then claims nearly the whole address space as its size (`KernelHeap.RestOf4`).
- `free` does not reject the payload address of the head sentinel: it marks the head free, joins it with a free first
  block, and then reads through the head's null link (`KernelHeap.Allocator.Free`, `HeapRuns.FreeOfHead`).
- `ALIGN_SIZE` wraps to zero for requests above 2^32 - 8 (`HeapRuns.HugeRequestsWrap`), and `calloc` multiplies in 32
  bits (`KernelHeap.Allocator.Calloc`).
- `init_kalloc` pushes the frame of the multiboot record, although it marks it SYSTEM, if a usable region contains it
  (`FrameBoot.BootAgrees`).
- `boot_init_mem` maps only whole pages of the frame stack; cells behind them are out of reach
  (`BootMemory.StackReach`), though `init_kalloc` never gets that far (`FrameBoot.BootedInReach`).
- `boot_init_mem` computes the bitmap a byte short when the number of frames is 1 to 3 more than a multiple of 16384: the
  bitmap word of the last frames is then the first of the frame stack (`BootMemory.BitmapRoom`).
- `list_remove_node` returns the zero value, not the removed one, for an interior node (`DlList.List.RemoveNode`).
- `getPhysicalAddress` answers 0 both for an unmapped page and for a page mapped to frame 0.

## Model

| member | source | states |
|---|---|---|
| Threads.ThreadList.PushFront | src/multitask/thread_list.c:16-34 | for every thread and a stale list too: the links and ends afterwards; for a thread that is not in the list the chain becomes it followed by the old chain; size grows by one |
| Threads.ThreadList.PushBack | src/multitask/thread_list.c:35-52 | for every thread: the links afterwards; for one that is not in the list the chain becomes the old chain followed by it, and size grows by one; a stale list stays stale and the link of its left-over tail is overwritten |
| Threads.ThreadList.PopFront | src/multitask/thread_list.c:53-71 | takes the first of the chain; the list stays consistent exactly when it was not the only one under a size above one, and then it is stale: `head` null, `tail` at the thread that went |
| Threads.ThreadList.PopBack | src/multitask/thread_list.c:72-97 | takes the last of the chain, found by walking to its predecessor; from a stale list of size one, the thread left over |
| Threads.ThreadList.Remove | src/multitask/thread_list.c:117-137 | the chain loses exactly that thread; size is right only at the ends, is decremented on a miss, and the list stays consistent exactly under the condition stated for each case |
| Threads.CutByPush | src/multitask/thread_list.c:35-52 | pushing a thread that is already in the list ends the chain behind it, or makes it link to itself if it was the last |
| Threads.CutByStaleTail | src/multitask/thread_list.c:41-46 | pushing onto a stale list makes the chain that the left-over thread has joined since lead to the thread pushed; what followed is out of reach |
| ThreadQueues.OneQueue | src/include/multitask/thread_list.h:13-29 | with all queues chained through the one link, a thread is in at most one of ready, sleeping, terminated and the waiters of each semaphore |
| ThreadQueues.OffIsNowhere | src/include/multitask/thread_list.h:13-29 | a thread is tagged as queued exactly when it is in some queue |
| ThreadQueues.PushKeeps | src/multitask/thread_list.c:35-52 | the two link writes that append a thread that is in no queue leave all queues disjoint, null-terminated chains |
| ThreadQueues.RemoveKeeps | src/multitask/thread_list.c:53-137 | so do the link writes that take a thread out of its queue, at either end or inside |
| ThreadQueues.AdmitKeeps | src/multitask/thread_create.c:26-60 | so does a new control block with a null link |
| QueueSafety.CpuFree | src/multitask/thread_schedule.c:43-77 | between sections the thread on the CPU is in no queue |
| QueueSafety.SafeTerminate | src/multitask/thread_terminate.c:13-13 | a termination is safe if and only if the butler is in no queue |
| QueueSafety.QueuedPushCuts | src/multitask/thread_list.c:35-52 | what pushing a thread of any queue onto the ready list leaves of its own queue and of the ready list |
| QueueSafety.TerminateCuts | src/multitask/thread_terminate.c:5-16 | after an unsafe termination, whichever queue the butler was in ends behind it, or it links to itself |
| QueueSafety.ThreadIsLost | src/multitask/thread_terminate.c:13-13 | a concrete run from boot after which a termination cuts a ready thread off the ready list |
| Multitask.Kernel.constructor | src/multitask/threads.c:19-34 | starts in the initial state: the kernel thread runs and is the butler |
| Multitask.Kernel.LockPostpone | src/multitask/thread_schedule.c:78-82 | both counters rise by one |
| Multitask.Kernel.UpdateTimeUsed | src/multitask/thread_time.c:41-50 | charges the ticks since the last reading to the current thread, or to idling if there is none |
| Multitask.Kernel.PushReady | src/multitask/thread_list.c:35-52 | for every thread the links, head and size afterwards; for one in no queue, the end of the ready queue with all queues still chains |
| Multitask.Kernel.SwitchToThread | src/multitask/thread_switch.asm:24-53 | charges the time, then changes the current thread; with switching postponed it sets the counter to 1 and returns |
| Multitask.Kernel.Schedule | src/multitask/thread_schedule.c:43-77 | on the links: request remembered, next thread taken off the ready list and the running one put at its end, same thread kept, or idle; all queues still chains |
| Multitask.Kernel.UnlockPostponeAndSchedule | src/multitask/thread_schedule.c:83-94 | the outermost release performs a postponed switch exactly once and lowers the interrupt counter; without a request, or inside, it writes no link in whatever state the queues are |
| Multitask.Kernel.IdleTest | src/multitask/thread_schedule.c:66-76 | after `hlt`, stays idle on an empty queue, else restores the owner and switches |
| Multitask.Kernel.BlockTask | src/multitask/thread_schedule.c:96-103 | the state is set and a switch requested or made; all queues still chains |
| Multitask.Kernel.UnblockTask | src/multitask/thread_schedule.c:104-111 | for every thread the links afterwards; one in no queue becomes RUNNING at the end of the ready list, all queues still chains |
| Multitask.Kernel.CreateSemaphore | src/multitask/semaphore/thread_semaphore.c:13-25 | a new semaphore with count 0 and no waiters, or null and nothing changed |
| Multitask.Kernel.Enqueue | src/multitask/semaphore/thread_semaphore.c:40-47 | the two link writes put a thread that is in no queue behind the last waiter, whatever a left-over last link points to |
| Multitask.Kernel.Dequeue | src/multitask/semaphore/thread_semaphore.c:82-84 | gives the longest waiter, which is then in no queue; the rest keep their order |
| Multitask.Kernel.WaitSemaphore | src/multitask/semaphore/thread_semaphore.c:34-52 | count lowered; below the maximum the caller is linked behind the last waiter and blocked; all queues still chains |
| Multitask.Kernel.LockSemaphore | src/multitask/semaphore/thread_semaphore.c:53-69 | at the maximum the caller is linked behind the last waiter and blocked, else counted in; all queues still chains |
| Multitask.Kernel.PostSemaphore | src/multitask/semaphore/thread_semaphore.c:78-89 | the longest waiter is unlinked and woken and the count raised, or nothing; all queues still chains |
| Multitask.Kernel.UnlockSemaphore | src/multitask/semaphore/thread_semaphore.c:90-100 | the longest waiter is unlinked and woken with the count unchanged, or the count lowered; all queues still chains |
| Multitask.Kernel.WakeSleeper | src/multitask/thread_time.c:19-33 | the walk over the links moves the first expired sleeper, in queue order, to the ready list and no other |
| Multitask.Kernel.RemoveSleeper | src/multitask/thread_list.c:117-137 | any sleeper is unlinked and in no queue, all queues still chains; the only one under a larger size leaves the list stale with `tail` at it |
| Multitask.Kernel.PitInterrupt | src/multitask/thread_time.c:14-39 | every tick over the links, also one that drains a sleep list whose size is too large, with a scheduling request every third tick while a thread is current |
| Multitask.Kernel.QueueSleeper | src/multitask/thread_time.c:54-65 | the section of the sleep call: queued with its deadline, not blocked yet; refused for a past deadline |
| Multitask.Kernel.MiliSleepUntil | src/multitask/thread_time.c:52-69 | refines the whole sleep call when nothing comes in between |
| Multitask.Kernel.MiliSleepInterrupted | src/multitask/thread_time.c:52-69 | the whole sleep call on the links with any sequence of harmless ticks and key presses between its section and its block: the abstract result, the invariant, all queues chains |
| Multitask.Kernel.TerminateTask | src/multitask/thread_terminate.c:5-16 | the end of a thread with the butler parked: terminated, butler woken, another thread or idling; all queues still chains |
| Multitask.Kernel.TerminateBody | src/multitask/thread_terminate.c:7-14 | wherever the butler is, the links its section leaves; with the butler in no queue the abstract section, all queues still chains |
| Multitask.Kernel.ButlerTurn | src/multitask/thread_terminate.c:22-39 | one turn of the reaper: unlinks the first terminated thread to free it, or parks |
| Multitask.Kernel.ThreadCreate | src/multitask/thread_create.c:26-60 | a new RUNNING thread at the end of the ready list, or null and nothing changed if the allocation failed |
| Multitask.Kernel.Perform | src/multitask/thread_schedule.c:43-111 | every safe event, on the links: the abstract step, the invariant and all queues chains |
| Multitask.Kernel.Run | src/multitask/thread_schedule.c:43-111 | every safe run on the links ends where the abstract run ends, with the invariant and every queue a chain of its own |
| Multitask.Kernel.LinksInOrder | src/multitask/thread_list.c:7-15 | what this means: from each head exactly that queue, null-terminated and duplicate-free, sizes as stated, no thread in two queues |
| SchedulerInvariant.ReleaseKeeps | src/multitask/thread_schedule.c:83-94 | releasing an outermost section from a well-formed state re-establishes the invariant between sections |
| SchedulerInvariant.LockKeeps | src/multitask/semaphore/thread_semaphore.c:53-69 | locking keeps every thread in exactly one place with the matching state, and the counters at rest |
| SchedulerInvariant.WaitKeeps | src/multitask/semaphore/thread_semaphore.c:34-52 | the same for waiting |
| SchedulerInvariant.PostKeeps | src/multitask/semaphore/thread_semaphore.c:78-89 | the same for posting, by a thread or from an interrupt during idling |
| SchedulerInvariant.UnlockKeeps | src/multitask/semaphore/thread_semaphore.c:90-100 | the same for unlocking |
| SchedulerInvariant.SleepKeeps | src/multitask/thread_time.c:52-69 | the same for sleeping |
| SchedulerInvariant.CreateKeeps | src/multitask/thread_create.c:26-60 | the same for creating a thread |
| SchedulerInvariant.ButlerKeeps | src/multitask/thread_terminate.c:22-39 | the same for a turn of the reaper, whether it reclaims or parks |
| SchedulerInvariant.IdleTestKeeps | src/multitask/thread_schedule.c:62-76 | the same for leaving the idle loop |
| SchedulerInvariant.TerminateKeeps | src/multitask/thread_terminate.c:5-16 | ending a thread keeps the invariant if the butler is parked |
| SchedulerInvariant.TerminateBreaks | src/multitask/thread_terminate.c:13-13 | and always breaks it if the butler is not |
| SchedulerInvariant.TickKeeps | src/multitask/thread_time.c:14-39 | a tick keeps the invariant unless it drains a sleep queue whose size is too large |
| SchedulerInvariant.TickBreaks | src/multitask/thread_list.c:126-136 | and always breaks it then |
| SchedulerInvariant.StepKeeps | src/multitask/thread_schedule.c:43-111 | for every event: the invariant holds afterwards if and only if the event is safe (butler parked for a termination, no stale drain for a tick, nothing for the rest) |
| SchedulerEffects.StepShape | src/multitask/thread_schedule.c:83-103 | every section equals its one-line effect on the queues followed by a single outermost release, however its calls nest |
| SchedulerRuns.InitInv | src/multitask/threads.c:19-34 | the initial state satisfies the invariant |
| SchedulerRuns.RunKeeps | src/multitask/thread_schedule.c:43-111 | for all runs: all states satisfy the invariant if and only if all steps are safe |
| SchedulerRuns.OnePlace | src/multitask/thread_schedule.c:43-111 | in every state a safe run reaches, each live thread is in exactly one of CPU, ready, sleeping, terminated, one semaphore's waiters, or parked butler; RUNNING exactly on the CPU and in ready; reclaimed threads are nowhere; all queues, waiters included, are duplicate-free |
| SchedulerRuns.CountersAtRest | src/multitask/thread_schedule.c:78-94 | between sections of a safe run: postpone 0, no request, interrupt counter 0, or 1 while idling |
| SchedulerFairness.StepDispatches | src/multitask/thread_schedule.c:43-77 | a safe step takes at most one thread off the ready queue, and that thread then has the CPU |
| SchedulerFairness.DispatchOrder | src/multitask/thread_schedule.c:43-77 | over any safe run, threads dispatched so far followed by the ready queue only ever grows at its end |
| SchedulerFairness.RoundRobin | src/multitask/thread_schedule.c:43-77 | in a safe run a thread at index i of the ready queue is taken by exactly the (i+1)-th dispatch, whatever happens in between |
| SchedulerFairness.RoundRobinInTime | src/multitask/thread_time.c:34-37 | in a safe run in which no third tick finds the kernel idle, a thread at index i of the ready queue gets the CPU within 3(i + 1) ticks |
| SchedulerFairness.TickWakes | src/multitask/thread_time.c:14-39 | a tick wakes the first expired sleeper, none early and no other, makes it runnable and moves no deadline |
| SchedulerFairness.OthersLetSleep | src/multitask/thread_time.c:52-69 | no safe event but a tick takes a thread off the sleep queue or moves its deadline |
| SchedulerFairness.SleepBound | src/multitask/thread_time.c:14-39 | in a safe run, a sleeper at index i whose deadline the next tick reaches is woken within i + 1 ticks |
| SchedulerLives.LosesCpu | src/multitask/thread_schedule.c:43-103 | the current thread loses the CPU if and only if its call blocks, or at a third tick with another thread ready or woken; its state says why it blocked, and if it was preempted it is the last of the ready queue |
| SchedulerLives.IdleEnds | src/multitask/thread_schedule.c:62-76 | idling ends if and only if `hlt` returns while a thread is ready, and the first one then runs |
| SchedulerLives.SleepQueues | src/multitask/thread_time.c:52-69 | a sleep call leaves the caller last in the sleep queue with its deadline, or changes nothing for a past one |
| SchedulerLives.SleepsUntil | src/multitask/thread_time.c:14-39 | over any safe run a sleeper stays in the sleep queue with its deadline until the tick reaches it |
| SchedulerLives.ReclaimedInOrder | src/multitask/thread_terminate.c:5-39 | over any safe run threads are reclaimed in the order in which they ended, each once, and no other thread is freed |
| SchedulerTime.StepBalances | src/multitask/thread_time.c:41-50 | each safe step keeps total time used plus idle time minus the last reading, and the idle time itself |
| SchedulerTime.TimeConserved | src/multitask/thread_time.c:41-50 | over any safe run the time charged to all threads ever created equals the advance of `last_read_tick`; `idleCPUTime` does not change |
| SchedulerTime.StepCharges | src/multitask/thread_switch.asm:46-53 | a safe step adds to a thread's time exactly the advance of `last_read_tick` if it had the CPU or owned the idle loop before the step, and nothing otherwise |
| SchedulerTime.StepReads | src/multitask/thread_time.c:41-50 | `last_read_tick` becomes the current tick when the CPU goes to another thread, and does not move otherwise |
| SchedulerTime.EachPaysItsOwn | src/multitask/thread_time.c:41-50 | over any safe run each thread is charged exactly the ticks read in its own turns |
| SchedulerTime.ReachableKnown | src/multitask/thread_create.c:26-60 | in every state a safe run reaches, whatever a queue leads to is a thread that was created |
| SemaphoreRuns.StepSem | src/multitask/semaphore/thread_semaphore.c:34-100 | over safe events the record of a semaphore changes only by calls on that semaphore, and how |
| SemaphoreRuns.StepExclusive | src/multitask/semaphore/thread_semaphore.c:53-100 | one disciplined step keeps count = holders within the maximum and waiters = threads blocked but not yet granted, in order; a handoff leaves the count alone |
| SemaphoreRuns.SemaphoreExclusion | src/multitask/semaphore/thread_semaphore.c:53-100 | over any safe run using lock and unlock only, with unlock by holders: count is the number of holders, at most the maximum; waiters only at the maximum; granted in the order of blocking; a thread blocked in lock is paused, not on the CPU and not ready until it is granted the semaphore |
| SemaphoreRuns.MutualExclusion | src/multitask/semaphore/thread_semaphore.c:26-29 | at most one thread holds a mutex, and holds it once, after any such run; every other thread that called lock on it is stopped in that call |
| SemaphoreRuns.AdmitsMaximum | src/multitask/semaphore/thread_semaphore.c:13-69 | a semaphore created with any maximum >= 0 and used like this admits exactly that many: a lock takes the CPU from its caller if and only if the maximum hold it |
| SemaphoreRuns.StepWaitQueue | src/multitask/semaphore/thread_semaphore.c:34-89 | with maximum >= 0 and wait/post only: count is minus the number of waiters, every wait queues the caller last, every post removes the first waiter or nothing; the waiters are those that waited and were not woken, in order |
| SemaphoreRuns.WaitQueueKept | src/multitask/semaphore/thread_semaphore.c:34-89 | over any safe run using wait and post only: every wait leaves the caller paused, off the CPU and not ready until it is woken, those woken are the ones that waited first, in order, and the count is minus the number that still wait |
| SemaphoreRuns.PostWakesFirst | src/multitask/semaphore/thread_semaphore.c:78-89 | the longest waiter becomes RUNNING at the end of the ready queue |
| SemaphoreRuns.PostIsDropped | src/multitask/semaphore/thread_semaphore.c:81-81 | a post without waiters leaves the whole state unchanged |
| SemaphoreRuns.FirstWaitBlocks | src/multitask/semaphore/thread_semaphore.c:38-38 | after the first wait on a new semaphore the caller is its one waiter, paused and off the CPU, if and only if the maximum is not negative |
| SchedulerWitnesses.ButlerQueuedTwice | src/multitask/thread_terminate.c:13-13 | a concrete run from boot after which the butler runs and is also queued |
| SchedulerWitnesses.SleepQueueGoesStale | src/multitask/thread_list.c:126-136 | a concrete run from boot after which the sleep queue is empty with size 1 |
| SchedulerWitnesses.ButlerInTheMiddle | src/multitask/thread_time.c:34-37 | a concrete safe run from boot after which the butler is ready, neither first nor last, and another thread has the CPU |
| SleepGap.GapIsReached | src/multitask/thread_time.c:61-67 | what the sleep call leaves between its section and its block: the thread runs and is the last sleeper |
| SleepGap.GapStep | src/multitask/thread_time.c:65-67 | an interrupt in that gap, tick or key press, leaves the thread in it if and only if it is not a tick that wakes the thread or switches |
| SleepGap.WokenInGap | src/multitask/thread_time.c:25-29 | a tick in the gap that wakes the thread itself breaks the invariant at once, or when the thread then blocks |
| SleepGap.SleepInterrupted | src/multitask/thread_time.c:52-69 | for any number of interrupts in the gap: the thread stays in it throughout if and only if none is such a tick, and then it goes to sleep properly |
| LockProtocol.StartBalanced | src/multitask/thread_schedule.c:5-7 | the counters start balanced |
| LockProtocol.StepBalances | src/multitask/thread_schedule.c:9-94 | every call keeps the counters equal to what the running thread owes, everyone else owing one decrement, if and only if it does not carry `lock_scheduler` across a switch |
| LockProtocol.RunBalances | src/multitask/thread_schedule.c:9-102 | however sections nest and threads interleave, the counters stay balanced and every switch happens with postpone 0 and interrupt counter 1 |
| LockProtocol.StepTurnsOn | src/multitask/thread_schedule.c:14-19 | a release, or the end of idling, that makes the last decrement leaves interrupts on, and going idle turns them on |
| LockProtocol.InterruptsComeBack | src/multitask/thread_schedule.c:9-94 | over any run, whenever no increment is outstanding, interrupts are off if and only if the last call that turns them on or off was `cli` or an interrupt's entry |
| LockProtocol.ReleaseRuns | src/multitask/thread_schedule.c:83-94 | who runs after a release, and that a thread switched away from can be resumed |
| LockProtocol.InsideSection | src/multitask/thread_schedule.c:45-48 | inside a section the same thread keeps running, `schedule` never passes, and the flag says whether it was asked for |
| LockProtocol.OneSchedulePerSection | src/multitask/thread_schedule.c:83-94 | at an outermost release `schedule` passes exactly once if anything in the section asked for it, else not at all; no request is left, and interrupts are on if nothing is owed |
| LockProtocol.NoInterruptInSection | src/multitask/thread_schedule.c:78-82 | in no reachable state of a run is an interrupt possible inside a section |
| LockProtocol.HeldAcrossSwitch | src/multitask/thread_schedule.c:9-19 | holding `lock_scheduler` across a switch, the next thread owes nothing but runs with interrupts off |
| HeapBlocks.InitIsSound | src/memory/kernel_heap.c:31-59 | the initial heap has the shape every operation keeps |
| HeapBlocks.WorstFitExact | src/memory/kernel_heap_malloc.c:69-85 | a block is found if and only if some free block is large enough and the first block is free or no larger than some free block; it is the last of the largest free blocks |
| HeapBlocks.AlignSizeExact | src/include/memory/kernel_heap_malloc.h:6-7 | rounding up is to a multiple of 8 and exact if and only if the request is at most 2^32 - 8; beyond, zero |
| HeapBlocks.MallocKeeps | src/memory/kernel_heap_malloc.c:23-58 | `malloc` keeps the shape (sentinels, tiling, alignment, no adjacent free blocks, free last block) if and only if the request fits |
| HeapBlocks.FirstRequestStarves | src/memory/kernel_heap_malloc.c:69-85 | after one request from the initial heap that leaves a rest of at least a header, or none, no request of any size succeeds if and only if it took the block and more than half of it; with such a rest the heap is sound and the rest free |
| HeapBlocks.ReleaseMerges | src/memory/kernel_heap_malloc.c:104-109 | freeing merges the block with whichever neighbours are free, into one free block spanning them |
| HeapBlocks.ReleaseKeeps | src/memory/kernel_heap_malloc.c:104-109 | and keeps the shape |
| HeapRuns.Exclusive | src/memory/kernel_heap_malloc.c:34-53 | an allocated block, header and payload, overlaps no other block and lies between the sentinels |
| HeapRuns.FreeOfOthers | src/memory/kernel_heap_malloc.c:93-102 | `free` of anything but a live payload pointer and the head sentinel's payload address changes nothing |
| HeapRuns.FreeOfHead | src/memory/kernel_heap_malloc.c:93-109 | `free` of the head sentinel's payload address frees the head and joins it with a free first block; no heap in order is like this |
| HeapRuns.ReleaseLive | src/memory/kernel_heap_malloc.c:104-109 | freeing ends the life of that pointer and of no other |
| HeapRuns.TakeLive | src/memory/kernel_heap_malloc.c:34-53 | allocating adds that pointer to the live ones and no other |
| HeapRuns.MallocGrants | src/memory/kernel_heap_malloc.c:23-58 | a non-null result is a new pointer, 4 modulo 8, to at least the request and less than 24 bytes more, inside the heap, beside every other block; null leaves the heap alone |
| HeapRuns.MallocUses | src/memory/kernel_heap_malloc.c:34-53 | the free bytes fall by exactly the rounded request and a header, or by a whole free block that holds the request and has no room for a header; by nothing if null |
| HeapRuns.FreeGivesBack | src/memory/kernel_heap_malloc.c:104-109 | the free bytes rise by the payload and a header for each neighbour merged |
| HeapRuns.HugeRequestsWrap | src/include/memory/kernel_heap_malloc.h:7-7 | in every sound heap a request above 2^32 - 8 succeeds if and only if the search finds any free block, with a payload below 16 bytes |
| HeapRuns.FreeUndoesMalloc | src/memory/kernel_heap_malloc.c:23-58 | freeing the result of `malloc` gives back exactly the previous block list |
| HeapRuns.NothingLive | src/memory/kernel_heap.c:48-59 | a sound heap without live pointers is the initial heap |
| HeapRuns.RunKeeps | src/memory/kernel_heap_malloc.c:23-111 | for all runs: the heap is sound throughout if and only if every request fits and the head sentinel is never freed |
| HeapRuns.AllFreed | src/memory/kernel_heap_malloc.c:87-111 | after any fitting run in which everything was freed, in any order, the heap is exactly the initial one |
| KernelHeap.PayloadKept | src/memory/kernel_heap_malloc.c:34-53 | writes confined to headers change no word of a live payload |
| KernelHeap.PayloadWritesKeep | src/memory/kernel_heap_malloc.c:64-65 | an owner's writes to its payload leave the block list represented |
| KernelHeap.SmallRestCorrupts | src/memory/kernel_heap.c:52-52 | splitting the last block with a rest of 4 or 12 bytes overwrites the rest's own header with a link |
| KernelHeap.FirstRequestCanCorrupt | src/memory/kernel_heap.c:52-52 | first requests for which this happens, one for either rest |
| KernelHeap.RestOf12 | src/memory/kernel_heap_malloc.c:69-79 | from any sound heap, after a request that leaves 12 bytes of the last block the search never ends |
| KernelHeap.RestOf4 | src/memory/kernel_heap_malloc.c:69-85 | after one that leaves 4 bytes it ends, and finds the rest for every request up to the rest's own address |
| KernelHeap.SearchFinds | src/memory/kernel_heap_malloc.c:69-85 | in memory that represents a list the search ends, with the block the list search names, or 0 |
| KernelHeap.Allocator.InitHeap | src/memory/kernel_heap.c:31-59 | the memory represents the initial block list |
| KernelHeap.Allocator.FindWorstFit | src/memory/kernel_heap_malloc.c:69-85 | the loop gives the result of the search in any memory in which the search ends |
| KernelHeap.Allocator.Malloc | src/memory/kernel_heap_malloc.c:23-58 | returns the specified pointer and writes exactly the headers of the block and its rest; if the request fits, the headers represent the specified blocks and nothing but headers is written; null changes nothing |
| KernelHeap.Allocator.HeapBlockJoin | src/memory/kernel_heap.c:75-82 | the headers represent the list with the block and its successor joined |
| KernelHeap.Allocator.Free | src/memory/kernel_heap_malloc.c:87-111 | for every pointer the headers represent the specified blocks and nothing but headers is written; for the head sentinel's payload address this is the state before the null link is read |
| KernelHeap.Allocator.Calloc | src/memory/kernel_heap_malloc.c:59-67 | the pointer `malloc` gives for the 32-bit product, all bytes zero up to 2^32 - 8, the list intact if it fits; null changes nothing |
| AllocatorRuns.Run | src/memory/kernel_heap_malloc.c:23-111 | over any run of fitting requests, frees and stores by owners the headers represent the list of the run, and every block not freed keeps its place, size and every word not stored to |
| FrameBitmap.FieldOfWithField | src/memory/physical_memory_bitmap.c:34-37 | writing an even 2-bit field leaves every other even field of the word alone |
| FrameBitmap.UnpackPack | src/memory/physical_memory_bitmap.c:14-37 | reading any frame after writing one gives the new status for it and the old one for the others of its word |
| FrameBitmap.UnpackFromTop | src/memory/physical_memory_bitmap.c:14-20 | sixteen frames to a word from the top, two bits each, statuses numbered in order |
| KernelKalloc.FrameAllocator.BitmapGet | src/memory/physical_memory_bitmap.c:14-20 | the frame's entry of the status table |
| KernelKalloc.FrameAllocator.BitmapSet | src/memory/physical_memory_bitmap.c:27-37 | exactly one frame's status changes |
| KernelKalloc.FrameAllocator.Push | src/memory/physical_memory_stack.c:13-16 | the stack grows by the address |
| KernelKalloc.FrameAllocator.Pop | src/memory/physical_memory_stack.c:18-23 | gives the last address pushed; the rest stays |
| KernelKalloc.FrameAllocator.FreePages | src/memory/physical_memory_stack.c:24-27 | the number of addresses on the stack |
| KernelKalloc.FrameAllocator.KAlloc | src/memory/kernel_kalloc.c:35-40 | stack and packed bitmap change together as the pool does |
| KernelKalloc.FrameAllocator.KFree | src/memory/kernel_kalloc.c:45-51 | stack and packed bitmap change together as the pool does |
| KernelKalloc.FrameAllocator.InitKalloc | src/memory/kernel_kalloc.c:8-29 | the loops end in the pool described by the memory map: usable addresses outside the kernel in order, and SYSTEM for the record, the kernel and low reserved memory; the ACPI address is that of the map |
| FramePool.TakeKeeps | src/memory/kernel_kalloc.c:35-40 | after `k_alloc` stack and bitmap agree if and only if the status is not FREE |
| FramePool.GiveKeeps | src/memory/kernel_kalloc.c:45-51 | after `kfree` they agree if and only if the frame is managed and was not FREE |
| FramePool.TakeGrants | src/memory/kernel_kalloc.c:35-40 | the frame handed out is managed, was free, and is nowhere on the stack afterwards |
| FramePool.GiveThenTake | src/memory/kernel_kalloc.c:35-51 | allocating after freeing gives the same frame |
| FramePool.TakeThenGive | src/memory/kernel_kalloc.c:35-51 | freeing after allocating restores the pool |
| FramePool.Conserved | src/memory/physical_memory_stack.c:24-27 | in every agreeing state free pages and taken frames add up to the managed ones |
| FramePool.RoomToGive | src/boot_memory_init.c:32-32 | a stack of one cell per frame and one more never overflows |
| FramePool.RunKeeps | src/memory/kernel_kalloc.c:35-51 | for all runs: stack and bitmap agree throughout if and only if every call is legal |
| FramePool.RunConserves | src/memory/kernel_kalloc.c:35-51 | over legal runs free and taken frames together are constant |
| FramePool.HeldKept | src/memory/kernel_kalloc.c:35-51 | a frame that is held keeps its status and is not handed out again before it is freed |
| FrameBoot.BootAgrees | src/memory/kernel_kalloc.c:8-29 | `init_kalloc` ends with stack and bitmap in agreement if and only if the frames it offers begin page aligned, are in one region only, in no low reserved region and without the multiboot record |
| FrameBoot.PushedExactly | src/memory/kernel_kalloc.c:15-18 | an address is on the stack if and only if the loop over a usable region below 4 GiB comes to it and it is outside the kernel |
| FrameBoot.BootStatus | src/memory/kernel_kalloc.c:8-29 | a frame is SYSTEM exactly if it is the record's, a usable one of the kernel, or low reserved memory, else FREE |
| FrameBoot.PushesAscend | src/memory/kernel_kalloc.c:16-18 | the addresses of a region are pushed in ascending order |
| FrameBoot.LastAcpi | src/memory/kernel_kalloc.c:25-26 | the ACPI address is that of the last such entry below 4 GiB |
| FrameBoot.OfferedOnceFrames | src/memory/kernel_kalloc.c:10-21 | unless two regions hand out the same frame, no frame is pushed twice |
| FrameBoot.KernelKeptOff | src/memory/kernel_kalloc.c:17-20 | unless two regions hand out the same frame, free frames on the stack and the kernel's own frames are together no more than all frames |
| FrameBoot.BootedInReach | src/boot_memory_init.c:84-85 | with the kernel's structures in place, what `init_kalloc` pushes stays within the mapped pages of the stack |
| Paging.SelfAlias | src/memory/virtual_memory_manager.c:9-14 | 0xF8000000 translates to the directory and 0xF8001000 + 0x1000 * i to the frame of directory entry i |
| Paging.WindowWord | src/memory/virtual_memory_manager.c:11-14 | a write at an offset of the window lands at that offset of the structures the page walk uses |
| Paging.WokenWalk | src/memory/virtual_memory_manager.c:117-118 | setting a directory entry's present bit maps nothing |
| Paging.PutWalk | src/memory/virtual_memory_manager.c:110-123 | only the page mapped translates differently afterwards |
| Paging.PutRefines | src/memory/virtual_memory_manager.c:110-123 | `map` is an update of the finite map from pages to frames |
| Paging.PutWords | src/memory/virtual_memory_manager.c:117-122 | word by word: the directory entry gets its present bit and keeps the others, the page's entry is the frame with the present bit alone, all else stays |
| Paging.PutWindow | src/memory/virtual_memory_manager.c:110-123 | the alias and the sleeping tables survive if and only if the write leaves the window as it is |
| Paging.WriteRefines | src/memory/virtual_memory_manager.c:86-123 | the same for `map` and `remap` as steps |
| Paging.RunRefines | src/memory/virtual_memory_manager.c:86-123 | whole runs of both refine runs on the finite map and keep the alias |
| VirtualMemory.LowClearedRefines | src/memory/virtual_memory_manager.c:46-63 | emptying table 0 and its directory entry unmaps exactly the low 4 MiB and keeps the alias |
| VirtualMemory.ClearBitsExact | src/memory/virtual_memory_manager.c:53-54 | bit by bit: exactly `present` and `acc` are cleared |
| VirtualMemory.PageTables.Map | src/memory/virtual_memory_manager.c:110-123 | through the alias: memory, address space and the exact condition for the alias to survive |
| VirtualMemory.PageTables.Remap | src/memory/virtual_memory_manager.c:86-108 | the new page translates as the old one does, all others as before |
| VirtualMemory.PageTables.GetPhysicalAddress | src/memory/virtual_memory_manager.c:70-84 | the frame's address if the page is mapped, 0 if not |
| VirtualMemory.PageTables.InitPaging | src/memory/virtual_memory_manager.c:46-63 | the address space loses exactly the pages below 4 MiB, and no word outside table 0 and its directory entry changes |
| BootMemory.BootTables.KeAlloc | src/boot_memory_init.c:116-123 | consecutive pieces, page aligned and, while the 32-bit sum does not wrap, long enough |
| BootMemory.BootTables.MapAt | src/boot_memory_init.c:126-143 | one page of the address space changes, both addresses rounded down; only the paging structures are written |
| BootMemory.BootTables.MapUpTo | src/boot_memory_init.c:46-53 | a range of pages shifted in 32-bit arithmetic |
| BootMemory.BootTables.MapPages | src/boot_memory_init.c:61-85 | a range of consecutive pages |
| BootMemory.BootTables.FillDirectory | src/boot_memory_init.c:41-42 | each entry points to its table and is absent |
| BootMemory.BootTables.ClearTables | src/boot_memory_init.c:44-44 | all table words zero, the directory untouched |
| BootMemory.FreshEmpty | src/boot_memory_init.c:41-44 | with fresh directory and cleared tables nothing is mapped |
| BootMemory.BootTables.BootInitMem | src/boot_memory_init.c:12-103 | the resulting address space, no word outside the directory and the tables changed, and the alias in place if and only if the record's page and the pages of low reserved memory leave the window alone |
| BootMemory.RecordMapped | src/boot_memory_init.c:92-92 | the multiboot record is mapped at its own address |
| BootMemory.FinalAt | src/boot_memory_init.c:38-101 | with a kernel ending below 384 MiB, where every page leads: record and reserved memory to themselves, window, bitmap and whole stack pages to the frames behind the kernel, the kernel twice, no other page mapped |
| BootMemory.BitmapRoom | src/boot_memory_init.c:33-33 | which frames have their bitmap word in the bitmap's own pages |
| BootMemory.FinalShows | src/boot_memory_init.c:58-101 | what every window page maps to after all the loops |
| BootMemory.IdentitiesAt | src/boot_memory_init.c:93-101 | the pages of low reserved memory map to themselves whatever was there before, and nothing else changes |
| BootMemory.BootTables.MapReserved | src/boot_memory_init.c:93-101 | the loops over the memory map do this |
| BootMemory.BootReady | src/boot_memory_init.c:38-101 | the if-and-only-if for the alias, from the address space |
| BootMemory.BootKernel | src/boot_memory_init.c:46-53 | a kernel ending below 384 MiB is mapped at its own addresses and again 0xE0000000 higher when paging is switched on |
| BootMemory.StackReach | src/boot_memory_init.c:84-85 | which cells of the frame stack are mapped |
| DlList.InsertRemove | src/include/data_structures/dl_list.h:276-338 | inserting and removing at an index is the identity and gives the value |
| DlList.RemoveInsert | src/include/data_structures/dl_list.h:276-338 | removing and inserting what was removed is the identity |
| DlList.List.IsEmpty | src/include/data_structures/dl_list.h:46-52 | -1 for a malformed list, 1 for an empty one, else 0 |
| DlList.List.PushBack | src/include/data_structures/dl_list.h:54-80 | appends; codes 2 and 1 leave everything unchanged; links stay mirror images |
| DlList.List.PushFront | src/include/data_structures/dl_list.h:82-107 | prepends; the same |
| DlList.List.PopFront | src/include/data_structures/dl_list.h:109-142 | takes the first value, or error 1 and the zero value |
| DlList.List.PopBack | src/include/data_structures/dl_list.h:144-184 | takes the last value, or error 1 and the zero value |
| DlList.List.Size | src/include/data_structures/dl_list.h:217-235 | the length of the sequence, -1 if malformed |
| DlList.List.Get | src/include/data_structures/dl_list.h:237-254 | the value at an index, error 1 exactly out of range |
| DlList.List.NodeAt | src/include/data_structures/dl_list.h:257-274 | the node at an index, error 1 exactly out of range |
| DlList.List.Insert | src/include/data_structures/dl_list.h:276-306 | the sequence with the value inserted, for every index up to the length |
| DlList.List.Remove | src/include/data_structures/dl_list.h:308-338 | the sequence without that index, and its value; error 1 exactly out of range |
| DlList.List.RemoveNode | src/include/data_structures/dl_list.h:341-367 | the sequence without that node; the value only at the ends |
| DlList.List.Clear | src/include/data_structures/dl_list.h:370-378 | terminates with the empty list |
| DlList.List.Display | src/include/data_structures/dl_list.h:23-28 | `next` visits the values in order |
| DlList.List.DisplayReverse | src/include/data_structures/dl_list.h:30-35 | `prev` visits them in reverse order |
| NumberFormat.DivisionIs | src/std/lib.c:125-127 | the quotient and remainder used in the proofs are the operators of the code |
| NumberFormat.DigitsEvaluate | src/std/lib.c:121-128 | the digits evaluate back to the value |
| NumberFormat.NoLeadingZero | src/std/lib.c:121-128 | the first digit is zero only for zero |
| NumberFormat.DigitsLength | src/std/lib.c:121-128 | the number of digits is the least k >= 1 with value below base^k |
| NumberFormat.AtMost32 | src/std/lib.c:107-140 | at most 32 digits for a u32, so 33 cells |
| NumberFormat.WriteBackwards | src/std/lib.c:121-128 | the loop leaves the digits least significant first |
| NumberFormat.ReverseInPlace | src/std/lib.c:131-137 | the swaps reverse exactly the given cells |
| NumberFormat.Utoa | src/std/lib.c:107-140 | the digits in order, the terminator, nothing else written; a reader of the characters, 0 to 9 and A to F, gets the value back; null exactly for an unsupported base |
| NumberFormat.FormattedReads | src/std/lib.c:107-140 | the characters up to the terminator read back as the value |
| NumberFormat.Itoa | src/std/lib.c:80-106 | a reader of the characters gets the value back, with its sign in base 10 and modulo 2^32 in the others; the sign of a negative decimal is in the cell before the returned pointer |
| NumberFormat.ItoaReads | src/std/lib.c:80-106 | what the text evaluates to, and that sign, digits and terminator take at most 33 cells |

## Left out

- Port I/O, interrupt controller, timer, serial and disk set-up, ACPI, interrupt stubs, terminal output, keyboard
  driver, descriptor tables, multiboot parsing, string and memory helpers: hardware effects or simple code. A panic is
  a failed precondition.
- Register saving, stack layout, CR3 loading and TLB invalidation: a context switch is a change of the current thread.
- Null list, semaphore and thread arguments of the list functions, and the front, back, begin and end accessors: they
  add error codes and one-line reads only.
- The demo threads in `src/Kernel.c`: infinite display loops.
- Thread ids, and overflow of the 32-bit tick, time and counter variables: counters are unbounded integers, except
  `size` of a thread list when it is decremented, heap sizes, addresses and number formatting.
- The stacks, keyboard queues and semaphores that belong to a thread: a thread is created and reclaimed as one object.
- Heap use from interrupt handlers, which take no lock: the heap is sequential.
- The loop of `init_heap` that maps the heap's pages: `k_alloc` and `map` are verified on their own.
- The search for the highest usable address in `boot_init_mem`, which is a parameter. The frame bitmap's clearing is
  the constructor of `KernelKalloc.FrameAllocator`.
- Multitask.Kernel.Schedule: the idle loop is cut at `hlt`: the call ends without a current thread, and
  `Multitask.Kernel.IdleTest` is the rest of the loop's turn.
- Multitask.Kernel.constructor: the first thread's time and deadline fields start at 0; the source leaves them as
  `malloc` returned them.
- Multitask.Kernel.ThreadCreate: the address of a reclaimed control block is not given out again.
- Multitask.Kernel.TerminateTask: requires the butler parked. For the other terminations `Multitask.Kernel.TerminateBody`
  and `QueueSafety.TerminateCuts` say what the links are; what the kernel does later on such links is not modelled.
- Multitask.Kernel.PitInterrupt: not for a tick that switches away from a thread in the gap of its sleep call, which is
  then in two queues.
- Multitask.Kernel.QueueSleeper: not after a tick has drained a sleep list whose size was too large;
  `Threads.ThreadList.PushBack` and `Threads.CutByStaleTail` say what the next sleeper then does to the links.
- Multitask.Kernel.MiliSleepUntil: no interrupt between its section and its block; `Multitask.Kernel.MiliSleepInterrupted`
  has the harmless ones.
- SchedulerFairness.RoundRobin: about safe runs, because after an unsafe step the queues of the code are cut.
- SemaphoreRuns.SemaphoreExclusion: about safe runs, for the same reason.
- SemaphoreRuns.WaitQueueKept: about safe runs, for the same reason.
- SchedulerTime.TimeConserved: about safe runs, for the same reason.
- Threads.ThreadList.PopBack: requires the recorded size to be 1 when at most one thread is chained; with a larger size
  the source would follow a null link.
- Threads.ThreadList.PopFront: not on a stale list of a size above one, for the same reason.
- Threads.ThreadList.Remove: on a stale list, only the thread left over and only with size 1, for the same reason.
- Threads.ThreadList.PushBack: `size` does not wrap upwards.
- KernelHeap.Allocator.Free: ends at the read through the null link of the head sentinel.
- FrameBoot.BootAgrees: a usable region whose length is not a multiple of 4 KiB hands out its last, partial frame as the
  code does; nothing is said about memory behind the region.
- KernelHeap.Allocator.Malloc: says nothing about the blocks when the request does not fit, because the tail's header
  is then part of a payload.
- KernelKalloc.FrameAllocator.KFree: requires room on the stack; `FramePool.RoomToGive` derives it for every call that
  keeps stack and bitmap in agreement.
- KernelHeap.Allocator.Calloc: says nothing about the memory for a product above 2^32 - 8, where the loop that clears
  it leaves the block and goes round the whole address space.
- KernelKalloc.FrameAllocator.InitKalloc: requires every region's frames to have a bitmap entry, below 4 GiB, and
  lengths the 32-bit loop counter can reach; otherwise the source writes outside the bitmap or never ends.
- BootMemory.BootTables.BootInitMem: requires the kernel and its structures to end below 4 GiB, and reserved lengths the
  32-bit loop counter can reach.
- DlList.List.RemoveNode: the position of the node is a ghost argument; a node of another list is excluded, because the
  source would run off the end of the list.
