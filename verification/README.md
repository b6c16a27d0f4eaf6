# Verified model of the lightweight-thread library and its kernel scheduler

The repository holds a user-level thread library (`lwt.c`) with channels (`channel.c`), a free-list
allocator (`kalloc.c`) and a ring buffer (`rbuf.c`), and, under `scheddev/`, the variants of these that
share a kernel scheduler library (`sl.h`, `sl.c`) with a fixed-priority round-robin policy and a periodic
timer.  This project models that code in Dafny 4.11 and proves what it promises.

## How the model is built

Code that changes things step by step is modelled twice, and the two are connected.

* *On the heap.*  `Lwt.dfy`, `Fprr.dfy`, `Kalloc.dfy`, `RingBuffer.dfy`, `Channel.dfy`, `Timer.dfy` and
  `PsList.dfy` have the classes, pointers, arrays and loops of the C files.  A ghost field `model` (`runs`
  for the allocator) says what the heap stands for; each method ensures the class invariant and that the new
  value is the value-level step of the old one.
* *On values.*  `LwtModel`, `SlModel`, `FreeList`, `Arena`, `ChannelModel` and `Migration` define the steps
  as functions, and the theorems over all runs are proved about them by induction.
* *Interleavings.*  The lock of the scheduler (`CsLock.dfy`) and the ring buffer between kernel threads
  (`CasRing.dfy`) are protocols between threads that run in any order.  Every load, store and
  compare-and-swap is a step of its own; memory is sequentially consistent.  For the lock that includes the
  bodies of the critical sections: `SlMemory.dfy` writes them as sequences of single loads and stores of
  states, priorities and list links, any of which may be interleaved with any step of any other thread.

| file | models |
|---|---|
| `PsList.dfy` | `ps_list.h` |
| `LwtModel.dfy`, `LwtInvariant.dfy`, `LwtCounters.dfy`, `LwtRuns.dfy`, `LwtEffects.dfy`, `LwtReached.dfy` | `lwt.c` as a state machine, its invariant, its counters, its runs, what each call does, and runs into the states where it fails |
| `Lwt.dfy` | `lwt.c` on the heap |
| `SlModel.dfy`, `SlInvariant.dfy`, `SlOrder.dfy`, `SlEffects.dfy` | blocking, waking and scheduling in `scheddev/sl.c` and `sl_mod_fprr.c`, who is scheduled first, and what each operation does |
| `Fprr.dfy` | the same on the heap |
| `SlMemory.dfy` | the words the critical sections work on, and their bodies as loads and stores |
| `CsLock.dfy`, `CsCalls.dfy` | the critical section of `scheddev/sl.h` and `scheddev/sl.c`, and what becomes of a call |
| `FreeList.dfy`, `Arena.dfy` | the free list as a value, and runs of the allocator |
| `Kalloc.dfy` | `kalloc.c` in memory, the list threaded through the free bytes |
| `RingBuffer.dfy` | `rbuf.c` |
| `CasRing.dfy`, `CasCalls.dfy` | `scheddev/rbuf.c`, and what its calls return |
| `ChannelModel.dfy`, `Channel.dfy` | channels and groups of `channel.c` |
| `Migration.dfy`, `MigrationMoves.dfy`, `MigrationReached.dfy` | `lwt_snd_thd` and `lwt_rcv_thd` of `scheddev/channel.c`, with the rings, joins and deaths of `scheddev/lwt.c` |
| `Options.dfy` | optional values |
| `Timer.dfy` | the periodic timer and the timeout functions |

## Contracts that the code relies on

The code checks little of what it needs.  The models make these demands explicit, as `Allowed` predicates
or preconditions.

* `lwt.c`: the initial thread never dies; a joinable thread is joined by another thread, at most once, and
  not while it is itself BLOCKED in a join.  `lwt_create` does not set `joinedfrom`, and `lwt_init` does not
  set `flag`: a fresh control block is assumed to hold a null `joinedfrom`, and the flag of the initial
  thread is a parameter of the initial state.
* `sl.c`: a thread that is WOKEN is not woken again, a BLOCKED thread's priority is not set, only a thread
  that runs blocks or yields; capabilities are non-zero, distinct and below 2^31.  `sl_thd_param_set` and
  `sl_thd_alloc` do not take the lock; they are steps of the policy model but not of the lock protocol.
* `kalloc.c`: a block that is freed is at least 8 bytes long, the size of a free run's header; it is freed
  once, with the length it was allocated with; and the run that serves a request is used up or keeps at
  least 8 bytes, since what is left of it keeps its header in its own first bytes (`Kalloc` itself has a
  contract for every request).  The code does not see to the last demand, and the library's own requests do
  not all respect it: a group takes 12 bytes, a channel 36 and the default ring buffer 4100.  Whether it is
  met depends on the run that serves the request; it always is if all lengths are multiples of 8.
* `scheddev/rbuf.c`: one writer and one reader.  The slot is stored before the compare-and-swap, which is
  right for one writer only.
* Threads that travel between kernel threads are not DEAD, not inside a join and not already on their way,
  and the thread that runs a kernel thread's loop does not travel, join or die.  A thread that is BLOCKED
  because it has been sent is not joined, just as one that is BLOCKED in a join; no thread is received from a
  channel that has been dropped; and a thread dies only where its ring holds another RUNNABLE thread.
* Between two yields `lwt.c` and `channel.c` run undisturbed.  `cos_defswitch` may run any thread next; the
  time and the result of `cos_defswitch` are inputs.

## What the proofs found

* A join of a thread that is itself BLOCKED never passes control on.  The loop of `lwt_join` then spins and
  moves one counter into another for ever (`BlockedTargetSpins`); `SpinReached` is a run from the start that
  gets there in five calls and a join.  A join of a live thread switches exactly when its target is RUNNABLE
  (`JoinSwitchesIff`).
* None of the three counters is what its name promises.  `CounterConservation` says what they count:
  LWT_INFO_NTHD_RUNNABLE also counts the DEAD threads that nobody joins and the LWT_NOJOIN threads that have
  died, LWT_INFO_NTHD_BLOCKED the DEAD threads that have a joiner, LWT_INFO_NTHD_ZOMBIES every thread but one
  and the LWT_NOJOIN threads that have died.  `CountersTrueIff` is the exact condition for each of them, and
  `CountersDiffer` a run from the start for each.
* A control block that is reused with an old `joinedfrom` in it does harm when its thread dies unjoined: the
  thread named there returns from another join too early exactly if it is BLOCKED, and runs again exactly if
  it is DEAD (`StaleJoinerWakes`).  `StaleJoinerReached` is a run into the first case; the allocator hands a
  block of the same size out again where it was (`SameBlockAgain`).
* A request that leaves less than 8 bytes of the run that serves it damages the free list, and only such a
  request does (`SplitsIff`).  Taking a group's 12 bytes from a run of 16 hands out the word in which the
  run keeps its length (`GroupBreaksList`).
* The allocator's size limit does not protect `rbuf_init`: the byte count is computed in 32 bits, and a
  request of 2^30 cells gets the room of one (`LimitMissesWrap`).  The room suffices exactly for requests
  below 2^30 - 1 (`RoomIff`).
* `scheddev/README.md:41` promises that a thread is not executed before its parameters are set.  It is: a
  directed yield picks any RUNNABLE thread it asks for.  `UnplacedThreadRuns` is the run.  A thread that is
  in no queue is picked if and only if it is asked for (`UnqueuedPickedIff`).  Over any run in which such a
  thread has not run yet it is switched to only after a directed yield asked for it (`OnlyAskedRuns`), and a
  directed yield that asks for it and is not disturbed does switch to it (`DirectedYieldRuns`).  Once it has
  run it may also get into a queue, by the operations of `FirstQueuedIff` (`OnlyAskedOrQueuedRuns`).
* Setting the priority of a BLOCKED thread queues it (`ParamSetIff`), and the scheduler may then pick it
  (`BlockedThreadPicked`).
* `sl_mod_schedule` fails its assertion exactly when no thread is queued (`AssertionFailsIff`), which happens
  as soon as the only thread with a priority blocks (`AssertionFails`).  `Schedule` returns null there, which
  `sl.h` would take to mean the idle thread.
* `lwt_snd_thd` marks the thread BLOCKED before it looks at the channel.  If the receiver has given the
  channel up, the send fails and the thread is stranded (`SentIff`).  From then on it runs again if and only
  if somebody sends it once more, on a channel that is open, and it is received (`StrandedRunsIff`).
  `StrandedReached` is a run from the start that strands a thread, and goes on to rescue it.
* A thread that dies scans its ring for another one to run; nothing else bounds the scan.  It leads to another
  RUNNABLE thread exactly if the ring holds one (`DyingScanIff`), which is always so in the ring of a kernel
  thread's loop (`LoopRingScansEnd`).  In another ring sending a thread away can undo it: in the state of
  `EndlessScanReached` the thread that runs has sent the only other one away and cannot die.
* `lwt_cgrp_rem` leaves the channel naming its group.  A later `lwt_cgrp_add` to that group reports success
  and links nothing (`AddAfterRemove`); `Group.Add` states exactly when success means that the channel is
  linked.
* `scheddev/lwt.c:34` and `scheddev/lwt.c:55` allocate 100 bytes more than `scheddev/lwt.c:105` frees.  Each
  join loses them (`JoinLoses`), so that creating and joining one thread at a time exhausts a closed arena
  (`JoinsRunOut`).

## Model

| member | source | states |
|---|---|---|
| PsList.Link.constructor | ps_list.h:67-69 | a new link is a circular list of its own |
| PsList.Empty | ps_list.h:75-77 | true exactly when the list holds its head alone |
| PsList.Add | ps_list.h:83-90 | inserting after position i of a circular list leaves a circular list with the new link at i + 1 and everything else in order |
| PsList.Rem | ps_list.h:92-98 | removing a link closes the list around it and leaves the link a list of its own, also when it was alone |
| LwtInvariant.ChainEnds | lwt.c:73-95 | from every thread that is not DEAD the `joiningto` chain has no cycle, is mirrored by `joinedfrom`, and ends at a RUNNABLE thread in the ring |
| LwtInvariant.ScanEnds | lwt.c:191-193 | the do-while scan of `__lwt_schedule`, which has no bound, stops within one lap at a RUNNABLE thread |
| LwtInvariant.NoJoinPicksAnother | lwt.c:112-122 | a dying LWT_NOJOIN thread, still marked RUNNABLE, never picks itself as its successor |
| LwtInvariant.LeaveShape | lwt.c:112-122 | after its scan and removal the current thread is another one, RUNNABLE and in the ring |
| LwtInvariant.ScheduleInv | lwt.c:179-202 | whenever the scheduler is entered its early return is unreachable, and the invariant holds after it |
| LwtInvariant.StepInv | lwt.c:40-158 | every create, yield, join, return from a join and death keeps the ring, the join links, their acyclicity and the counters in step |
| LwtRuns.ReachableScansEnd | lwt.c:191-193 | in every state any run from `lwt_init` reaches, the current thread is RUNNABLE, every join chain ends, and the scan ends within a lap |
| LwtRuns.RunnablePositive | lwt.c:184-186 | NTHD_RUNNABLE is at least 1 in every invariant state |
| LwtCounters.CountersAre | lwt.c:36-130 | what the three counters are in terms of the numbers of RUNNABLE, BLOCKED and DEAD threads, in every invariant state |
| LwtRuns.CounterConservation | lwt.c:36-130 | the same after any run from `lwt_init`, with NTHD_RUNNABLE + NTHD_BLOCKED = 1 + NTHD_ZOMBIES |
| LwtRuns.CountersTrueIff | lwt.c:36-130 | after any run, exactly when each counter is the number of threads in the state it is named after |
| LwtReached.CountersDiffer | lwt.c:36-130 | for each counter a run from `lwt_init` after which it is not |
| LwtRuns.ResumeReturns | lwt.c:91-106 | a blocked join continues only when its target is DEAD, so the loop body runs exactly once, and returns the target's value |
| LwtRuns.BlockedTargetSpins | lwt.c:91-95 | joining a BLOCKED target iterates for ever and drains the counters |
| LwtReached.SpinReached | lwt.c:63-95 | a run from `lwt_init` after which a join of a BLOCKED thread spins, for any number of iterations |
| LwtRuns.JoinSwitchesIff | lwt.c:89-95 | a join of a live thread passes control on if and only if the target is RUNNABLE |
| LwtRuns.StaleJoinerWakes | lwt.c:43-52 | a `joinedfrom` left in a reused block wakes the wrong thread at death: exactly when that ends a join too early, revives a dead thread, or changes nothing |
| LwtReached.StaleJoinerReached | lwt.c:40-107 | a run from `lwt_init` in which a joined block names its joiner when it is freed, and the thread created in it then ends another join of that joiner too early |
| FreeList.SameBlockAgain | kalloc.c:27-96 | a block that is freed and asked for again is handed out again at the same place |
| LwtRuns.PhaseStep | lwt.c:62-141 | a DEAD thread keeps its value and leaves only by a join that returns it; no live joinable thread disappears |
| LwtRuns.DeadNeverRuns | lwt.c:128-137 | no step dispatches a DEAD thread or makes it RUNNABLE again |
| LwtRuns.JoinDelivers | lwt.c:80-106 | over any run from any invariant state deaths and joins of a thread tally: at most one of each, in that order, with the same value |
| LwtRuns.JoinsFromStart | lwt.c:62-107 | over any run from the start the values joined are the values died with, once each, and an unjoined DEAD thread still holds its value |
| LwtRuns.BypassStep | lwt.c:57 | creates put the new thread behind everybody, and each schedule brings a waiting RUNNABLE thread nearer |
| LwtRuns.BoundedBypass | lwt.c:179-202 | a RUNNABLE thread at ring distance d is dispatched within d schedules |
| LwtEffects.Creates | lwt.c:40-60 | a create adds one RUNNABLE thread with the next tid and the flag asked for, behind all others, and nothing else |
| LwtEffects.YieldsOn | lwt.c:179-202 | an undirected yield moves on to the next RUNNABLE thread |
| LwtEffects.YieldsTo | lwt.c:149-155 | a directed yield goes to its target if that is RUNNABLE, and does nothing otherwise |
| LwtEffects.JoinsNothing | lwt.c:67-69 | a join of a LWT_NOJOIN thread returns at once and changes nothing |
| LwtEffects.JoinsDead | lwt.c:80-87 | a join of a DEAD thread removes that thread and nothing else |
| LwtEffects.JoinWaits | lwt.c:74-95 | a join of a live thread leaves the caller BLOCKED in it and the target running |
| LwtEffects.ReturnsFromJoin | lwt.c:97-107 | a join that continues removes its target, and the caller is back in its own code |
| LwtEffects.Dies | lwt.c:128-137 | a joinable thread that dies is DEAD with its value, its joiner RUNNABLE, and the next RUNNABLE thread goes on |
| LwtEffects.Vanishes | lwt.c:112-125 | a LWT_NOJOIN thread that dies leaves nothing, and the next RUNNABLE thread goes on |
| LwtEffects.FlagsKept | lwt.c:52 | over any run every thread has the flag it was created with |
| LwtEffects.NoJoinFromStart | lwt.c:67-69 | in any run from the start a thread created LWT_NOJOIN is never DEAD, a join of it returns at once, and its death leaves nothing |
| LwtEffects.JoinableFromStart | lwt.c:128-137 | one created joinable is DEAD with its value after its death |
| LwtEffects.JoinerWaits | lwt.c:91-95 | over any run a thread BLOCKED in a join stays so, and is not dispatched, until its target dies |
| LwtEffects.JoinReturnsAfterDeath | lwt.c:62-95 | from the call of a join of a live thread on, the caller is not dispatched before that thread has died |
| Lwt.Scheduler.constructor | lwt.c:23-37 | the state `lwt_init` leaves |
| Lwt.Scheduler.ScanRing | lwt.c:191-193 | the loop over the links terminates and stops where the model's scan does |
| Lwt.Scheduler.Schedule | lwt.c:179-202 | the pointer code takes the model's scheduling step |
| Lwt.Scheduler.Create | lwt.c:40-60 | the pointer code takes the model's create step; the new thread has the flag asked for, and its link is just behind the current thread's |
| Lwt.Scheduler.Yield | lwt.c:143-148 | the undirected yield is the model's |
| Lwt.Scheduler.YieldTo | lwt.c:149-155 | the directed yield is the model's, switching only to a RUNNABLE thread |
| Lwt.Scheduler.JoinLoop | lwt.c:91-106 | one test of the join loop and what follows it, counters and unlinking included |
| Lwt.Scheduler.Join | lwt.c:62-95 | the pointer code takes the model's join step and returns the dead target's value |
| Lwt.Scheduler.Resume | lwt.c:94-106 | a dispatched joiner returns the value its target died with and unlinks the target |
| Lwt.Scheduler.LeaveRing | lwt.c:112-122 | scan and unlink of a dying LWT_NOJOIN thread |
| Lwt.Scheduler.Die | lwt.c:109-141 | the pointer code takes the model's death step in both cases |
| SlInvariant.StepInv | scheddev/sl.c:51-120 | every operation keeps each thread on at most one queue, that of its priority, and states, counts and queues in step |
| SlInvariant.WokenThreadIsAlone | scheddev/sl_mod_fprr.c:43 | the assertion of `sl_mod_wakeup` holds: a thread put back is in no queue |
| SlInvariant.StateIsBalance | scheddev/sl.c:61-94 | a thread is BLOCKED, RUNNABLE or WOKEN exactly when wakeups minus blocks is -1, 0 or 1, and once placed it is queued exactly when not BLOCKED |
| SlInvariant.WakeupsNeverLost | scheddev/sl.c:51-101 | the same over any run, for the calls counted in the run |
| SlInvariant.ParamSetIff | scheddev/sl_mod_fprr.c:70-77 | setting a priority keeps the queues right if and only if the thread is not BLOCKED |
| SlInvariant.FirstQueuedIff | scheddev/sl_mod_fprr.c:40-77 | exactly which operations first put a thread in a queue whose priority was never set; when it runs is `CsLock.OnlyAskedOrQueuedRuns` |
| SlInvariant.BestFirst | scheddev/sl_mod_fprr.c:17-32 | the loop picks the first thread of the best queue that is not empty, and none exactly if all are |
| SlOrder.StampIsLast | scheddev/sl_mod_fprr.c:34-77 | a thread's stamp is the position in the run of the last operation that put it in a queue |
| SlOrder.RunInOrder | scheddev/sl_mod_fprr.c:34-77 | in every state a run reaches every queue is in strictly rising order of stamps |
| SlOrder.LongestQueuedFirst | scheddev/sl_mod_fprr.c:17-32 | in every reachable state the scheduler picks the thread queued longest in the best non-empty queue |
| SlOrder.AssertionFailsIff | scheddev/sl_mod_fprr.c:23-31 | the assertion after the loop fails if and only if no thread is queued |
| SlOrder.BlockedThreadPicked | scheddev/sl_mod_fprr.c:70-77 | a run after which setting the priority of a BLOCKED thread makes the scheduler pick it |
| SlOrder.AssertionFails | scheddev/sl_mod_fprr.c:29 | a run after which it fails |
| SlInvariant.RoundRobin | scheddev/sl_mod_fprr.c:48-55 | n yields run the first n threads of the best queue in order and rotate it by n; a full round restores the queues |
| SlEffects.OthersUntouched | scheddev/sl_mod_fprr.c:34-77 | an operation leaves the other threads' states, priorities and order in their queues alone |
| SlEffects.Creates | scheddev/sl_mod_fprr.c:57-64 | a new thread is RUNNABLE, at the lowest priority, and in no queue |
| SlEffects.SetsPriority | scheddev/sl_mod_fprr.c:70-77 | a thread whose priority is set has that priority and is the last of the queue for it, and in no other |
| SlEffects.Blocks | scheddev/sl.c:60-69 | a block uses up an earlier wakeup, or takes the thread out of its queue |
| SlEffects.Wakes | scheddev/sl.c:80-94 | a wakeup is remembered, or puts a BLOCKED thread at the end of its queue |
| SlEffects.YieldsTurn | scheddev/sl_mod_fprr.c:48-55 | a yield puts the thread at the end of its queue |
| SlEffects.PriorityFromStart | scheddev/sl_mod_fprr.c:57-77 | after any run a thread has the priority last set for it, the lowest if none was, and is queued there and nowhere else |
| SlEffects.BestPriorityPicked | scheddev/sl_mod_fprr.c:17-32 | after any run the thread picked has, by what was last set, a priority at least as good as any queued one |
| Fprr.Thread.constructor | scheddev/sl_mod_fprr.c:57-64 | a new thread is RUNNABLE, at the lowest priority, linked to itself |
| Fprr.Policy.constructor | scheddev/sl_mod_fprr.c:79-88 | 32 empty circular lists with heads of their own |
| Fprr.Policy.Remove | ps_list.h:92-98 | taking a thread out of whatever list it is in, or is alone in, keeps all 32 lists circular and disjoint and is the model's dequeue |
| Fprr.Policy.Append | ps_list.h:134 | appending at the head's predecessor keeps them so and is the model's enqueue |
| Fprr.Policy.Schedule | scheddev/sl_mod_fprr.c:17-32 | the loop over the heads returns the thread the model schedules |
| Fprr.Policy.ThdBlock | scheddev/sl.c:60-70 | the section of `sl_thd_block` is the model's block; it reschedules unless a wakeup was in store |
| Fprr.Policy.ThdWakeup | scheddev/sl.c:84-99 | the section of `sl_thd_wakeup` is the model's wakeup; an unknown tid changes nothing |
| Fprr.Policy.ThdYield | scheddev/sl_mod_fprr.c:48-55 | the undirected yield is the model's |
| Fprr.Policy.ThdParamSet | scheddev/sl_mod_fprr.c:70-77 | the thread has the priority asked for, its state is as it was, and the change is the model's |
| Fprr.Policy.ThdCreate | scheddev/sl.c:122-139 | the new thread is the model's, in no queue |
| SlMemory.RemovedIs | ps_list.h:92-98 | the loads and stores of the removal, on a memory that stands for the queues, take a thread out of whatever list it is in |
| SlMemory.AppendedIs | ps_list.h:83-90 | those of the append put it at the end of the list of its priority |
| SlMemory.BodyIsOperation | scheddev/sl.c:60-116 | the body of a block, wakeup or yield, load by load and store by store, is one operation of the policy if nothing comes between |
| SlMemory.PlacedWords | scheddev/sl_mod_fprr.c:70-77 | after a change of priority the thread's priority word holds the new one and its link is the last of that list |
| CsLock.PackedIsInjective | scheddev/sl.h:43-51 | comparing machine words compares owner and contention bit |
| CsLock.LockInv | scheddev/sl.h:92-137 | every step of any thread keeps the lock protocol |
| CsLock.MutualExclusion | scheddev/sl.h:110-113 | at most one thread is in the section, the one the lock word names |
| CsLock.PolicyNeedsOwner | scheddev/sl.h:167-206 | states, priorities and links are loaded and stored only by the owner, in first tries and retries alike |
| CsLock.NeverRecursive | scheddev/sl.c:27 | the assertion against recursive locking holds |
| CsLock.SectionSteps | scheddev/sl.h:126-136 | while a section lasts the owner stays and the contention bit only rises; only the owner releases, and goes by way of the scheduler thread exactly if the bit is set |
| CsLock.ReleaseRetriesOnce | scheddev/sl.h:126-136 | a release's compare-and-swap fails at most once, and only because a contender set the bit |
| CsLock.StepInv | scheddev/sl.h:92-206 | every step keeps the memory on its way to a policy state that moves by whole operations |
| CsLock.ChoiceIsCurrent | scheddev/sl.h:194-206 | when the lock is released for a switch, the thread chosen is the policy's first, or after a directed yield the RUNNABLE thread asked for |
| CsLock.RunInv | scheddev/sl.c:51-120 | the same over any run from any such state |
| CsLock.SectionsAreAtomic | scheddev/sl.c:51-120 | from a free lock, every interleaving of single loads and stores leaves, whenever the lock is free, the memory that the operations begun leave one after the other |
| CsLock.WakeupsSurviveContention | scheddev/sl.c:51-120 | under any interleaving a thread's state word and whether its link is in a list are what the wakeups and blocks say |
| CsLock.SafeUnderAllInterleavings | scheddev/sl.h:92-218 | from a free lock any interleaving of any number of threads keeps exclusion |
| CsLock.LongestQueuedSwitched | scheddev/sl.h:194-206 | under any interleaving, what the releasing compare-and-swap of an undirected call switches to has been queued longest in the best queue that is not empty |
| CsLock.ContenderIsServed | scheddev/sl.c:28-46 | if a contender set the bit during a section, the release that ends it switches to the scheduler thread |
| CsLock.ContentionServed | scheddev/sl.c:11-46 | a run from a free lock in which a contender sets the bit and the owner's release goes by way of the scheduler thread |
| CsLock.UnqueuedPickedIff | scheddev/sl.h:194-202 | a RUNNABLE thread in no queue is picked if and only if it is asked for |
| CsLock.OnlyAskedOrQueuedRuns | scheddev/sl.h:194-209 | over any run a thread in no queue is switched to only if a directed yield asked for it or it was queued after all |
| CsLock.OnlyAskedRuns | scheddev/README.md:41 | over any run a thread that is RUNNABLE, in no queue and has not run itself is switched to only after a directed yield asked for it |
| CsLock.DirectedYieldRuns | scheddev/sl.c:103-113 | a directed yield to a RUNNABLE thread, undisturbed, switches to it, queued or not |
| CsLock.UnplacedThreadRuns | scheddev/README.md:41 | a run that executes a thread whose parameters were never set |
| CsCalls.CallsActOnce | scheddev/sl.c:51-120 | under any interleaving each call of a thread acts on the policy exactly once, in order and as what it is |
| CsCalls.SwitchesIff | scheddev/sl.c:60-120 | whatever comes between, the release that ends a call is for a switch if and only if the call was a block without an earlier wakeup, a wakeup of a BLOCKED thread, or a yield, by the policy state before it |
| CsCalls.SleepsBeforeReturning | scheddev/sl.c:68-70 | over any run a thread that has gone to sleep is back in its own code only after a switch that was not outdated; so for every such call |
| FreeList.FreeAdds | scheddev/kalloc.c:67-97 | a free adds exactly its bytes and leaves the list sorted, disjoint and without touching runs |
| FreeList.Unique | scheddev/kalloc.c:67-97 | such a list is the only one for its set of bytes |
| FreeList.FreeCommutes | scheddev/kalloc.c:67-97 | the order of two frees does not matter |
| FreeList.AllocTakes | scheddev/kalloc.c:111-125 | a block handed out was free, is free no longer, and nothing else changes |
| FreeList.AllocFails | scheddev/kalloc.c:111-125 | allocation fails exactly when no single run is long enough |
| FreeList.FreeUndoesAlloc | scheddev/kalloc.c:50-125 | freeing what was just allocated restores the very list |
| FreeList.FirstFit | scheddev/kalloc.c:111-123 | a request is served by the first run that is long enough, whole or from its end, and the others stay |
| Arena.Allocates | scheddev/kalloc.c:103-126 | a request is served by exactly one new block of that many bytes, which were free, and fails, with no effect, if and only if every run is shorter |
| Arena.Frees | scheddev/kalloc.c:50-101 | a free ends its block and no other, and exactly the block's bytes become free |
| Arena.Extends | kalloc.c:99-102 | a fresh segment becomes a block as a whole |
| Arena.TakeAndGive | scheddev/kalloc.c:50-126 | a request that can be served and the free of its block lead back to the same state |
| Arena.FreeIn | scheddev/kalloc.c:50-101 | the code in memory takes the arena's step for a free |
| Arena.AllocateIn | scheddev/kalloc.c:103-126 | and for a request |
| Arena.StepInv | scheddev/kalloc.c:50-126 | every allocation and free keeps each byte either free or in exactly one block |
| Arena.SegmentInv | kalloc.c:99-102 | so does the fallback to a fresh segment |
| Arena.RunInv | scheddev/kalloc.c:50-126 | the same over any run |
| Arena.FreeListDetermined | scheddev/kalloc.c:67-97 | the free list is a function of the bytes given and the blocks in use, whatever the history |
| Arena.AllFreeAgain | kalloc.c:27-76 | with every block freed the list is exactly the segments given, merged |
| Arena.MultiplesSplit | scheddev/kalloc.c:103-126 | if all requests are multiples of 8, every split of any run leaves room for the header |
| Arena.JoinLoses | scheddev/lwt.c:105 | k threads created and joined lose 100 k bytes |
| Arena.JoinsRunOut | scheddev/lwt.c:55 | creating and joining one thread at a time exhausts any closed arena |
| Arena.FreeingAllRestores | scheddev/kalloc.c:50-126 | in the closed arena any run that frees everything ends with the one initial run |
| Kalloc.SplitsIff | scheddev/kalloc.c:117-121 | a request leaves every run room for its header if and only if the run that serves it is used up or keeps 8 bytes |
| Kalloc.SplitsMeans | scheddev/kalloc.c:111-123 | that is the first run that is long enough, used up or left with 8 bytes or more |
| Kalloc.GroupBreaksList | kalloc.c:92-96 | a group's 12 bytes taken from a run of 16 begin at the run's own length word |
| Kalloc.Pool.constructor | kalloc.c:15-25 | the pool starts as one run |
| Kalloc.Pool.Kfree | scheddev/kalloc.c:50-101 | the pointer-to-pointer surgery on the headers stored in free memory is the free of the list, and writes to free bytes only |
| Kalloc.Pool.Grow | scheddev/kalloc.c:78-88 | the run before the block grows, and swallows the next run if it touches |
| Kalloc.Pool.TakeOver | scheddev/kalloc.c:70-76 | the block takes the place of the run it touches |
| Kalloc.Pool.InsertAt | scheddev/kalloc.c:95-97 | a block that touches no run becomes one |
| Kalloc.Pool.Kalloc | scheddev/kalloc.c:103-126 | for every request: the allocation of the list, 0 when it fails; the stored list is in order afterwards if and only if the run that serves it is used up or keeps 8 bytes, and then only free bytes are written; otherwise that run's length word alone is written |
| RingBuffer.RoomIff | rbuf.c:15-24 | the buffer gets the room its cells need exactly for requests below 2^30 - 1 |
| RingBuffer.LimitMissesWrap | kalloc.c:84 | a request beyond that which the allocator's limit lets through |
| RingBuffer.Rbuf.constructor | rbuf.c:9-31 | the buffer is empty and holds as many values as requested, 1024 for 0 |
| RingBuffer.Rbuf.Size | rbuf.c:49-53 | the unsigned 32-bit expression is the number of values for every position of the indices |
| RingBuffer.Rbuf.IsEmpty | rbuf.c:55-59 | true exactly when the queue is empty |
| RingBuffer.Rbuf.IsFull | rbuf.c:61-65 | true exactly when it holds its capacity |
| RingBuffer.Rbuf.Erase | rbuf.c:67-72 | the queue is empty afterwards |
| RingBuffer.Rbuf.Write | rbuf.c:74-89 | appends, or reports a null value or a full queue and changes nothing |
| RingBuffer.Rbuf.Read | rbuf.c:91-103 | removes and returns the oldest value, null exactly when there is none |
| RingBuffer.AppendAt | rbuf.c:85-86 | storing at the tail and advancing it appends at any wrap position |
| RingBuffer.RemoveAt | rbuf.c:98-100 | advancing the head removes the oldest value |
| CasRing.StoreInv | scheddev/rbuf.c:86-87 | the store before the compare-and-swap overwrites no unread slot |
| CasRing.StepInv | scheddev/rbuf.c:74-114 | every step of either thread keeps: written = read + contents |
| CasRing.NoRetry | scheddev/rbuf.c:88-108 | with one writer and one reader no compare-and-swap fails, and the value read is the next one written |
| CasRing.NeverStuck | scheddev/rbuf.c:74-114 | a thread inside a call can always take its next step |
| CasRing.ResultsAreTrue | scheddev/rbuf.c:55-65 | full is reported only if the ring was full at the load of the head, empty only if it was empty at the load of the tail |
| CasRing.ReadsArePrefix | scheddev/rbuf.c:74-114 | under every interleaving the values read are a prefix of those written and the difference is the ring |
| CasCalls.ResultsTell | scheddev/rbuf.c:74-113 | in any run from the start every call returns once, in order; the values of the writes that returned OK are exactly those put in, the values that reads returned exactly those taken out, and only NULL is an error |
| CasCalls.WriteReturns | scheddev/rbuf.c:74-94 | under any interleaving a write ends with OK, and its value has been put in, or with FULL, nothing has, and the ring was full at some time during the call |
| CasCalls.ReadReturns | scheddev/rbuf.c:96-113 | a read ends with the value it has taken out, or with NULL, and the ring was empty at some time during the call |
| CasCalls.WriteAlone | scheddev/rbuf.c:74-94 | an undisturbed write succeeds in seven steps if and only if there is room |
| CasCalls.ReadAlone | scheddev/rbuf.c:96-113 | an undisturbed read returns the oldest value in seven steps if and only if there is one |
| ChannelModel.ReceivedIsPrefix | channel.c:63-125 | for any senders and receivers in any order: received is a prefix of sent, the rest is buffered within capacity, and each sender's messages arrive in the order of its calls |
| ChannelModel.Passes | channel.c:75-119 | a send goes through exactly when there is room and appends its message, a receive exactly when there is something and takes the oldest |
| ChannelModel.WaitsIff | channel.c:75-114 | a dispatched thread waits on if and only if its channel is full, or empty; no other thread's call is touched |
| ChannelModel.Progress | channel.c:75-114 | however many senders and receivers wait and in whatever order they are dispatched, once one of either kind has had its turn some call has gone through |
| Channel.Chan.constructor | channel.c:11-32 | a new channel is open and empty, with the capacity asked for |
| Channel.Chan.NewNode | channel.c:82-84 | the node is a live block of its own, apart from all buffered nodes, and holds sender and data |
| Channel.Chan.SndPass | channel.c:74-93 | one pass of the send loop and what follows: it waits exactly if the ring holds its capacity, and otherwise fails or sends; the write to the ring always succeeds; only free bytes are written and none is lost |
| Channel.Chan.Snd | channel.c:63-94 | the call from its start: the receiver is looked for once, before the loop |
| Channel.SndBeside | channel.c:82-86 | a send on one channel leaves the messages of another on the same pool intact |
| Channel.RcvBeside | channel.c:119-122 | so does a receive |
| Channel.Chan.FreeNode | channel.c:119-122 | the oldest node is freed once, and the others are untouched |
| Channel.Chan.Rcv | channel.c:96-125 | one pass of the receive: it waits exactly if the ring is empty; the read never returns null, and the result is the oldest message |
| Channel.Chan.OtherKalloc | channel.c:75-77 | another thread's allocation during a wait leaves every buffered node intact |
| Channel.Chan.OtherKfree | channel.c:112-114 | so does another thread's free of a block of its own |
| Channel.Chan.DrainedRestores | channel.c:82-122 | from empty to empty, sends and receives restore the free list: no node leaks, none is freed twice |
| Channel.OwnersWrite | channel.c:83-84 | writing to blocks in use never damages the free list |
| Channel.Group.constructor | channel.c:148-161 | a new group is empty |
| Channel.Group.Free | channel.c:163-174 | refused exactly when channels are linked |
| Channel.Group.Add | channel.c:176-198 | links a channel exactly if it names no group; success means linked exactly if it did not name this group or was linked |
| Channel.AddAfterRemove | channel.c:183-217 | adding a removed channel again reports success and links nothing |
| Channel.Group.Remove | channel.c:200-220 | unlinks exactly if nothing is pending, and leaves the channel naming the group |
| Channel.Group.Poll | channel.c:229-237 | the first linked channel with something pending, none exactly if nothing is pending |
| Migration.StepInv | scheddev/channel.c:340-371 | creates, yields, sends, retries, receives, joins and deaths keep each thread in exactly one ring, once, that of its `kid`, and at most once on its way |
| Migration.NoneLost | scheddev/channel.c:340-371 | over any run every thread that has not died is still there, in one ring, and a RUNNABLE thread runs |
| Migration.NoneLostFromStart | scheddev/channel.c:296-321 | the same from the start of the kernel threads |
| MigrationMoves.Creates | scheddev/lwt.c:50-77 | a create adds one thread with the flag asked for, just behind its creator and in its kernel thread |
| MigrationMoves.Reschedules | scheddev/lwt.c:207-228 | a yield moves on to the next RUNNABLE thread of its own ring, and changes nothing else |
| MigrationMoves.GoesTo | scheddev/lwt.c:166-179 | a directed yield goes to its target, in whatever ring, if that is RUNNABLE, and does nothing otherwise |
| MigrationMoves.HandsOver | scheddev/channel.c:306-319 | the loop of a kernel thread hands over to another one's own thread |
| MigrationMoves.Sends | scheddev/channel.c:340-352 | a thread sent is BLOCKED; it enters an open channel with room, its sender waits for an open one that is full, and nothing else happens for one given up |
| MigrationMoves.Retries | channel.c:75-93 | a send that waited is over as soon as it finds room, and waits on otherwise |
| MigrationMoves.ReceivesNothing | channel.c:112-114 | a receive from an empty channel moves on to the next RUNNABLE thread |
| MigrationMoves.JoinsDead | scheddev/lwt.c:100-107 | a join of a DEAD thread takes it out of its ring and frees its block, and nothing else |
| MigrationMoves.JoinsLive | scheddev/lwt.c:93-115 | a join of a live thread leaves the caller BLOCKED in it and dispatches the target |
| MigrationMoves.ReturnsFromJoin | scheddev/lwt.c:117-127 | a join that continues removes its DEAD target |
| MigrationMoves.Dies | scheddev/lwt.c:149-159 | a joinable thread that dies is DEAD, its joiner RUNNABLE, and the next RUNNABLE thread of the ring goes on |
| MigrationMoves.Vanishes | scheddev/lwt.c:132-147 | a LWT_NOJOIN thread that dies leaves nothing, and the next RUNNABLE thread of the ring goes on |
| Migration.ScanStopsIff | scheddev/lwt.c:219-221 | the scan of one ring ends if and only if the ring holds a RUNNABLE thread |
| Migration.LoopRingScansEnd | scheddev/channel.c:306-319 | in the ring of a kernel thread's loop it always does |
| Migration.DyingScanIff | scheddev/lwt.c:130-160 | the scan of a dying thread leads to another RUNNABLE thread if and only if its ring holds one |
| MigrationReached.EndlessScanReached | scheddev/lwt.c:219-221 | a run from the start after which the death of the current thread leaves its ring without a RUNNABLE thread |
| Migration.SentNeverRuns | scheddev/channel.c:340-371 | from `lwt_snd_thd` to the `lwt_rcv_thd` that receives it a thread is never dispatched: not in the buffer, nor while its sender waits for room, nor stranded |
| Migration.OnItsWayNeverRuns | scheddev/channel.c:340-371 | the same from any state in which the thread is on its way |
| Migration.InFlightNeverRuns | scheddev/channel.c:349-359 | threads in a channel's buffer arrive in the order they entered it, and are not dispatched before |
| Migration.ArrivesBehindReceiver | scheddev/channel.c:363-368 | on receipt the thread is just behind the receiver, with the receiver's `kid`, RUNNABLE, and out of its old ring; nothing else moves |
| Migration.SentIff | scheddev/channel.c:349-352 | a thread sent is on its way if and only if the receiver still has the channel, and otherwise BLOCKED and nowhere |
| Migration.StrandedRunsIff | scheddev/channel.c:340-371 | over any run such a thread becomes RUNNABLE if and only if it is sent on an open channel and then received, and does not run before |
| Migration.FailedSendRetried | scheddev/channel.c:340-371 | a run in which a send fails and a second one succeeds |
| MigrationReached.StrandedReached | scheddev/channel.c:340-371 | a run from the start that strands a thread, and its continuation in which it is sent again, received and RUNNABLE |
| Migration.Receive | scheddev/channel.c:362-368 | the link operations move the thread from one circular list to another, or within one, just behind the receiver |
| Timer.SignTestIff | scheddev/sl.h:184-185 | the sign of the difference decides the comparison exactly for times less than 2^63 apart |
| Timer.TickIs | scheddev/sl_timer_mod_periodic.c:12-14 | the first tick after a time is the only congruent time within one period |
| Timer.Global.Period | scheddev/sl.c:191-198 | the first deadline is one period ahead |
| Timer.Global.Expended | scheddev/sl_timer_mod_periodic.c:5-15 | the assertion holds, no arithmetic wraps, and now < deadline <= now + period, congruent to the old deadline |
| Timer.Global.Look | scheddev/sl.h:182-185 | the timer expires exactly when its deadline has come, and the deadline is again the first tick after now |
| Timer.NoDrift | scheddev/sl_timer_mod_periodic.c:5-15 | over any sequence of looks, however many periods are missed, the deadline is the first tick after the latest look |

## Left out

- Dispatch: `__lwt_dispatch` and the trampoline are a change of the current thread and of each thread's place in its code; stacks and registers are not modelled.
- Freed control blocks: they stay in the lookup table that stands for `ps_container`, so use after free of a control block is not modelled; LWT_NOJOIN blocks are never freed in `lwt.c:120` either.
- Integer widths: the thread id and counter variables of `lwt.c` are unbounded; the ring buffer and the timer model their 32-bit and 64-bit arithmetic.
- Lwt.Scheduler.Join: the call ends, for this method, at the yield of its loop; `Resume` is the rest, because other threads run in between.
- Kalloc.Pool.Kalloc: says what a request that leaves 1 to 7 bytes does to the memory, not what later calls make of the damaged list.
- Arena.SegmentInv: `malloc` is any fresh memory disjoint from the arena, on values; the memory of `Kalloc.Pool` does not grow.
- RingBuffer.Rbuf.constructor: the cells are an array of their own, not a block of the pool; `rbuf_free` is not modelled.
- Channel.Chan.Snd: when the pool has no room the code writes through a null pointer; the model reports `NoMemory` and changes nothing.
- `lwt_chan_deref`: `snd_cnt` counts sends and references alike, so there is no invariant to prove; a channel is open or has been given up.
- `lwt_cgrp_free` and `lwt_cgrp`: the group's own block is not allocated from the pool; the TAILQ is a sequence.
- Channel.Group.Remove: requires that a channel which names the group is linked, since the code unlinks it a second time otherwise.
- CsLock.SafeUnderAllInterleavings: `sl_sched_loop`, thread allocation and the setting of parameters are not steps of the protocol; an outdated scheduling token is the input `again`; the loads of the timer in the section are `Timer`.
- CsLock.ContenderIsServed: says where the release goes, not that a thread always gets to run; `cos_defswitch` gives no fairness.
- `sl_thd_free`: it leaves the thread's queue to a policy call that is missing.
- `sl_sched_loop` and `__kthd_entry`: driven by kernel notifications that are not part of this model; a kernel thread's switch to its own thread is one step of `Migration`.
- Migration.StepInv: a kernel thread hands over only in its loop, not by preemption in the middle of a call; a channel is dropped only while no send waits for it, as its memory is freed; the values threads return are in `LwtRuns` only.
- Migration.Receive: is about the links and fields of one receipt; that all rings together stay right is proved on values.
- CasRing.StepInv: several writers or readers are outside the discipline the code supports.
- Timer.Global.Period: takes the period in cycles; the conversion from microseconds and `timeout_next` are foreign calls.
- `scheddev/lwt.c`: its compare-and-swap counters have the same effect as the counters of `lwt.c`; `kid` is modelled in `Migration`.
- Marks, `lwt_info`, `lwt_snd_chan` and `lwt_rcv_chan`: one-line wrappers.
