# A model of the TinyOS3 kernel

This project models the state machines of TinyOS3, a small multicore kernel, and proves what they keep over
every interleaving: the scheduler, the intrusive resource lists, condition variables and the kernel
semaphore, the process table, thread join and detach, stream references, the dining philosophers and the
barrier built on the monitors, the pipe, and the exception unwinder.  The numbers of cores, threads,
processes, FCBs, philosophers and parties are parameters.

Each component comes as

- a state and step functions, one for each section of the source that runs under a lock (`Scheduler`,
  `CondVars`, `KernelLock`, `Processes`, `Threads`, `Streams`, `Symposium`, `Barrier`, `Pipe`,
  `Exceptions`);
- an invariant with one small preservation lemma for each step, and theorems over all runs
  (`SchedulerSafety`, `SchedulerRuns`, `SchedulerProgress`, `ProcessTree`, `ProcessRuns`,
  `ProcessWakeups`, `StreamsSafety`, `StreamsRuns`, and the second half of the other files);
- for each section what it does, field by field and without naming its step function, so that the meaning
  of a step is fixed apart from its body (`SchedulerEffects`, `ProcessEffects`, the lemmas called
  `...Effect`, `Threads.JoinExited`, `KernelLock.StepGoes`);
- the code: classes whose methods update fields, arrays and pointers in the loops of the source, each
  proved to compute the step function (`SchedulerCode`, `Rings`, `CondVarCode`, `KernelLockCode`,
  `ProcessCode`, `ThreadsCode`, `StreamsCode`, `SymposiumCode`, `PipeCode`, and the classes in `Barrier` and
  `Exceptions`).

`Mlfq` holds the five-level feedback queue, `Sequences` facts about sequences.  `dafny verify dfyconfig.toml`
checks everything.

Conventions.  The clock, the choice of a new address, the result of a stream's Close and whether an exception
handler raises are parameters.  A step is atomic because the source holds `sched_spinlock`, the kernel
semaphore, a `waitset_lock` or a monitor mutex during it; where a section of the source is split into several
steps, more interleavings are covered than the source allows.  Fields called history (numbers of processes,
threads and streams, logs of what was reaped, freed, closed, read or returned) are not in the source: they
only record what happened, so that "exactly once" can be said although pids, addresses and FCBs are used again.

What the code does, where its comments say otherwise or leave it open:

- kernel_sched.h:61-66 says a thread is queued iff it is READY and CTX_CLEAN.  Between the unlock of `yield` and
  `gain` the picked thread is both and is not queued: `SchedulerRuns.HeaderInvariantFails` gives a run of three
  steps that gets there.  `SchedulerRuns.RunSafe` states the invariant with the threads in
  transit, and `SchedulerProgress.SleepKeepsIff` says exactly which timeouts would break it.
- util.h:449-455 says `rlist_pop_back` removes the tail.  It empties the list and leaves the other items on the
  ring of the node it returns, so it is right iff the list has one item: `Rings.PopBack`.
- kernel_streams.h says a failing `FCB_reserve` leaves the state unchanged.  When FCBs run short the rollback
  leaves the free list reversed, so its order is kept iff fids ran short or at most one FCB is free:
  `StreamsRuns.ReserveUnchangedIff`, with a call for three FCBs that swaps two in `StreamsRuns.ReserveReorders`.
  Every call in the kernel asks for one or two (console.c:56, kernel_pipe.c:64, kernel_proc.c:347,
  kernel_socket.c:121, kernel_streams.c:257), and those always keep it: `StreamsRuns.ReserveFewUnchanged`.
- `wait_for_specific_child` does not look again after it wakes.  With one waiting thread in each process it
  always finds a zombie child of its own (`ProcessRuns.ReapsChild`).  A pass by a thread beyond those keeps the
  invariant iff the PCB is in use and no recorded waiter waits for it (`ProcessRuns.ReapKeepsIff`,
  `ProcessRuns.SecondPassIff`, `ProcessRuns.SecondAnyPassIff`).  It fails in two ways: the PCB is free, and lands
  on the free list twice (`ProcessRuns.TwoWaiters`), or another process has taken it and waits for it, and
  loses its child to a stranger (`ProcessRuns.SecondWaiterSteals`).
- Init has no reparenting branch, so the asserts at the end of `sys_ThreadExit` hold iff the process is not
  init or init has no children: `ProcessRuns.ExitAssertsIff`.
- The pipe wraps its positions at 16383 and blocks its writer at 16384.  A byte stored when 16383 are unread
  overwrites the oldest of them: `Pipe.StoreKeepsIff` and `Pipe.Overrun`, and over whole runs `Pipe.RunFifoIff`.
  Closing the read end does not wake
  a blocked writer, which then waits for ever: `Pipe.BlockedForever`, in a state `Pipe.BlockedReachable` reaches.
  A blocked writer can go on iff the read end is open or there is space: `Pipe.UnblocksIff`.
- util.h says an exception is handled if a catcher ran.  It is handled iff the last-run catcher did not raise
  and no finalizer did: `Exceptions.UnwindIsRaised`.

## Model

| member | source | states |
|---|---|---|
| `Mlfq.QueuedOnce` | kernel_sched.c:287-350 | a queued thread is at exactly one place of exactly one of the five queues |
| `Mlfq.AddEffect` | kernel_sched.c:308-328 | without a boost an addition moves its thread one level down for a quantum expiry, one up for I/O, to the bottom for a contended mutex and nowhere for any other cause, puts it behind all others of that level, and touches no other queue or level |
| `Mlfq.AddBoosts` | kernel_sched.c:330-345 | the 500th addition does the same, and then every level moves one up, level 1 going behind level 0, each thread keeping its order and carrying its new level |
| `Mlfq.PopEffect` | kernel_sched.c:414-428 | a selection takes one thread off the front of one queue and touches no other queue, no level and no counter |
| `Mlfq.EnqueueValid` | kernel_sched.c:308-328 | placement by cause queues exactly the added thread, with its priority_level the index of its queue, in 0..4 |
| `Mlfq.BoostValid` | kernel_sched.c:333-345 | a boost keeps the labelling and loses or adds no queued thread |
| `Mlfq.AddValid` | kernel_sched.c:287-350 | after every addition each queued thread's priority_level is the index of its queue, and the queued threads are the old ones and the added one |
| `Mlfq.PopTakesTop` | kernel_sched.c:414-428 | selection takes the head of the lowest-index non-empty queue, and fails iff all five are empty |
| `Mlfq.PopValid` | kernel_sched.c:414-428 | selection removes exactly the selected thread from the queues |
| `Mlfq.AdvancesBounds` | kernel_sched.c:308-345 | a waiting thread is selected or at level 0 after L*500-c additions, and selected within k+1 selections from place k of level 0 |
| `Mlfq.AddAdvances` | kernel_sched.c:287-350 | an addition of another thread costs a queued thread nothing: it pays one unit of its way to level 0 and keeps its place there |
| `Mlfq.PopAdvances` | kernel_sched.c:402-436 | a selection picks a level-0 thread or moves it one place forward |
| `SchedulerSafety.SpawnKeeps` | kernel_sched.c:165-204 | spawning keeps the scheduler invariant |
| `SchedulerSafety.MakeReadyKeeps` | kernel_sched.c:357-375 | readying a STOPPED or INIT thread keeps the invariant, queueing it iff its context is clean |
| `SchedulerSafety.WakeExpiredKeeps` | kernel_sched.c:383-394 | the expiry scan keeps the invariant |
| `SchedulerSafety.InsertPlace` | kernel_sched.c:271-278 | a timed thread goes after every entry due no later, so ties keep arrival order, and before every later one |
| `SchedulerSafety.RegisterKeeps` | kernel_sched.c:264-280 | the timeout list stays sorted, duplicate-free and equal to the timed threads |
| `SchedulerSafety.SleepKeeps` | kernel_sched.c:468-490 | the locked part of sleep_releasing keeps the invariant when the wakeup time is not NO_TIMEOUT |
| `SchedulerSafety.ParkKeeps` | kernel_sched.c:514-521 | the first part of yield keeps the invariant |
| `SchedulerSafety.PickNextKeeps` | kernel_sched.c:526-539 | selection and hand-over keep the invariant: the picked thread is in transit and nowhere else |
| `SchedulerSafety.GainKeeps` | kernel_sched.c:559-589 | gain after a switch keeps the invariant, queueing, releasing or leaving the previous thread |
| `SchedulerSafety.GainSelfKeeps` | kernel_sched.c:559-572 | gain without a switch keeps the invariant |
| `SchedulerRuns.InitialExists` | kernel_sched.c:618-640 | an initial state exists for any number of cores |
| `SchedulerRuns.StepInv` | kernel_sched.c:441-597 | every step of every core keeps the invariant |
| `SchedulerRuns.RunInv` | kernel_sched.c:441-597 | the invariant holds in every state of every run |
| `SchedulerRuns.RunSafe` | kernel_sched.c:357-597 | in every interleaving on any number of cores: queued iff READY, CTX_CLEAN and not in transit; no thread current or picked on two cores; gain's assert(0) unreachable; RUNNING threads are those executing; timed threads are on the sorted list, STOPPED and unqueued |
| `SchedulerRuns.HeaderInvariantFails` | kernel_sched.c:526-545 | from any initial state, three steps lead to a normal thread that is READY, CTX_CLEAN and unqueued |
| `SchedulerRuns.ReapsUnused` | kernel_sched.c:579-581 | a TCB is released by the gain after its exit, when it is on no queue, no list and current on no core |
| `SchedulerRuns.RunLifetimes` | kernel_sched.c:198-220 | in every run from an initial state active_threads is the number of live normal TCBs, and no TCB is released twice or used after |
| `SchedulerRuns.AllReleased` | kernel_sched.c:599-613 | when active_threads is 0, every thread ever spawned has been released |
| `SchedulerProgress.NoStarvation` | kernel_sched.c:308-345 | over any run a thread queued at level L with counter c is selected or at level 0 after L*500-c additions, and from place k of level 0 is selected within k+1 selections, whatever others do |
| `SchedulerProgress.ExpiryExact` | kernel_sched.c:383-394 | an expiry scan readies exactly the threads due by the clock and keeps the later ones in order |
| `SchedulerProgress.SleepKeepsIff` | kernel_sched.c:468-490 | a sleep keeps the invariant iff it exits, has no timeout, or its wakeup time differs from NO_TIMEOUT |
| `SchedulerProgress.SleepBreaks` | kernel_sched.c:264-280 | a wakeup time equal to NO_TIMEOUT breaks the invariant |
| `SchedulerProgress.WakeTimeExact` | kernel_sched.c:268-269 | the wakeup time is clock plus timeout iff the 64-bit sum does not wrap |
| `SchedulerEffects.SpawnEffect` | kernel_sched.c:165-204 | a new thread is INIT, CTX_CLEAN, untimed, at level 1 and in no queue, and counted; nothing else changes |
| `SchedulerEffects.MakeReadyEffect` | kernel_sched.c:357-375 | a readied thread is READY, untimed, off the timeout list, and queued iff its context is clean; no other thread is touched, queued or taken off |
| `SchedulerEffects.WakeupEffect` | kernel_sched.c:441-463 | wakeup readies its thread iff it was STOPPED or INIT, and else changes nothing |
| `SchedulerEffects.SleepEffect` | kernel_sched.c:468-490 | the thread becomes EXITED iff asked to, else STOPPED; it is timed iff it sleeps with a timeout, to clock plus timeout modulo 2^64; the queues and other threads keep |
| `SchedulerEffects.YieldThreads` | kernel_sched.c:502-545 | over one yield, thread by thread: RUNNING becomes READY for the thread that yields, which takes the cause; whoever is due becomes READY and untimed; nobody else changes |
| `SchedulerEffects.YieldTimeouts` | kernel_sched.c:383-394 | after a yield nobody due is on the timeout list, which is the later end of the old one |
| `SchedulerEffects.YieldSelects` | kernel_sched.c:402-436 | the core hands over to the thread it takes from the queues; it stays with its READY thread, or goes to its idle thread, only when all queues are empty; no other core changes |
| `SchedulerEffects.GainRuns` | kernel_sched.c:559-572 | without a switch gain makes its thread RUNNING and CTX_DIRTY, and that is all |
| `SchedulerEffects.GainTcbs` | kernel_sched.c:559-589 | with one, the picked thread is RUNNING and CTX_DIRTY, the previous one freed iff EXITED and else CTX_CLEAN, and no other TCB changes |
| `SchedulerEffects.GainSettles` | kernel_sched.c:570-589 | the previous thread is READY, STOPPED or EXITED; it is queued iff READY and not idle, counted off and released iff EXITED |
| `SchedulerEffects.QuantumNeverRises` | kernel_sched.c:308-345 | over any run of fewer additions than the next boost takes, a thread that only yields because its quantum is over does not rise, whatever others do |
| `SchedulerCode.Kernel.constructor` | kernel_sched.c:618-640 | a scheduler of any number of cores starts in an initial state, with the invariant |
| `SchedulerCode.Kernel.Relabel` | kernel_sched.c:338-342 | the inner boost loop gives every thread of a queue that queue's level |
| `SchedulerCode.Kernel.MergeQueues` | kernel_sched.c:335-343 | the append-and-relabel loop leaves old0++old1, old2, old3, old4 and an empty queue, relabelled |
| `SchedulerCode.BoostByRelabelling` | kernel_sched.c:335-343 | relabelling the merged queues one by one gives every thread its boosted level |
| `SchedulerCode.Kernel.Boost` | kernel_sched.c:333-345 | the in-place boost is the boost of the state machine: old0++old1, old2, old3, old4, and an empty queue |
| `SchedulerCode.Kernel.PushByCause` | kernel_sched.c:308-328 | placement by cause, in place; what it comes to is stated at QueueAdd |
| `SchedulerCode.Kernel.QueueAdd` | kernel_sched.c:287-350 | sched_queue_add computes the addition step; unless it is the 500th, a quantum expiry lowers the thread one level, I/O raises it one, a contended mutex sends it to level 4, any other cause leaves it, and it goes behind the threads there, all else unchanged |
| `SchedulerCode.Kernel.SpawnThread` | kernel_sched.c:165-204 | spawn_thread computes the spawn step |
| `SchedulerCode.Kernel.MakeReady` | kernel_sched.c:357-375 | sched_make_ready computes its step, and its asserts hold |
| `SchedulerCode.Kernel.WakeupExpiredTimeouts` | kernel_sched.c:383-394 | the scan loop computes its step |
| `SchedulerCode.Kernel.RegisterTimeout` | kernel_sched.c:264-280 | the sorted insertion loop computes its step |
| `SchedulerCode.Kernel.Wakeup` | kernel_sched.c:441-463 | wakeup computes its step and returns 1 iff the thread was STOPPED or INIT; it is then READY, untimed, off the timeout list and queued iff its context is clean, no other TCB changes, and if it returns 0 nothing does |
| `SchedulerCode.Kernel.SleepReleasing` | kernel_sched.c:468-490 | the locked part of sleep_releasing computes its step: EXITED iff asked to, else STOPPED, and timed iff it sleeps with a timeout, at clock plus timeout modulo 2^64 |
| `SchedulerCode.Kernel.QueueSelect` | kernel_sched.c:402-436 | select returns the head found, and current or idle only when all queues are empty |
| `SchedulerCode.Kernel.Yield` | kernel_sched.c:502-539 | the locked part of yield and the hand-over compute their step: whoever was due is READY and nobody due is left on the timeout list |
| `SchedulerCode.Kernel.Gain` | kernel_sched.c:559-589 | gain computes its step and never reaches assert(0) |
| `Rings.Splice` | util.h:392-397 | on the heap: joins two rings, splits one ring, and does nothing to a node with itself, as documented |
| `Rings.SpliceCases` | util.h:392-397 | any two nodes of any finite well-linked heap are the same, on one ring, or on two |
| `Rings.SpliceAnywhere` | util.h:392-397 | so a splice anywhere in such a heap joins, splits or does nothing, as documented |
| `Rings.SpliceInHeap` | util.h:392-397 | p.next.prev == p and p.prev.next == p are kept everywhere in any well-linked heap |
| `Rings.SpliceTwice` | util.h:392-397 | a splice is its own inverse |
| `Rings.Remove` | util.h:407 | leaves the node alone on its ring and the others on theirs, in order |
| `Rings.PushFront` | util.h:425 | inserts a whole ring at the head of a list |
| `Rings.PushBack` | util.h:436 | inserts a whole ring at the tail of a list |
| `Rings.PopFront` | util.h:447 | takes the head; an empty list returns itself |
| `Rings.PopBack` | util.h:455 | returns the tail but empties the list; leaves the rest of the list iff it had one item |
| `Rings.Append` | util.h:504-508 | the destination is followed by the source, which becomes empty |
| `Rings.Prepend` | util.h:518-522 | the source is put before the destination and becomes empty |
| `Rings.IsEmpty` | util.h:414 | true iff the list has no items |
| `Rings.Len` | util.h:463-472 | the number of items modulo 2^32 |
| `Rings.Equal` | util.h:481-494 | true iff the sequences of keys are equal |
| `Rings.Reverse` | util.h:529-537 | reverses the list in place |
| `Rings.Find` | util.h:549-559 | the first node with the key, or `fail` if there is none |
| `Rings.Select` | util.h:567-578 | a stable partition by any predicate of node and key: the matching items move to the end of the destination in order, the others stay in order |
| `CondVars.EnqueueInv` | kernel_cc.c:124-138 | a new waiter keeps the invariant of the waitset |
| `CondVars.EnqueueEffect` | kernel_cc.c:124-138 | a new waiter goes to the back of the ring, asleep and unsignalled; the next signal still reaches whom it would have reached, or the new waiter if that was nobody |
| `CondVars.WakeEffect` | kernel_cc.c:138-151 | a timeout wakes its thread, which stays on the ring, unsignalled and unremoved |
| `CondVars.SignalChoosesFirst` | kernel_cc.c:161-173 | a signal wakes exactly the first waiter in arrival order still STOPPED, and discards the timed-out ones ahead of it unsignalled |
| `CondVars.SignalIdle` | kernel_cc.c:161-173 | with nobody asleep a signal wakes nobody and empties the ring |
| `CondVars.SignalPreserves` | kernel_cc.c:161-173 | a waiter a signal does not remove is unchanged; one it removes is signalled iff it was asleep |
| `CondVars.BroadcastWakesAll` | kernel_cc.c:197-202 | a broadcast empties the ring, leaves nobody asleep and signals exactly the sleepers |
| `CondVars.ReturnInv` | kernel_cc.c:140-151 | the tidy-up after waking keeps the invariant; the waiter is on the ring iff no signal removed it |
| `CondVars.ReturnEffect` | kernel_cc.c:140-151 | a wait that ends is off the ring, the others in their order, and returns whether a signal chose it |
| `CondVars.RunSafe` | kernel_cc.c:121-202 | in every race of signals, timeouts and other wakeups cv_wait returns 1 iff a signal chose it, no wait is chosen twice, no sleeper is off the ring, and the assert holds |
| `CondVarCode.CondVar.RemoveFromRing` | kernel_cc.c:83-91 | on the heap: takes one waiter off the ring and keeps `waitset` its first waiter, or NULL |
| `CondVarCode.CondVar.Link` | kernel_cc.c:128-134 | on the heap: puts a waiter at the back of the ring |
| `CondVarCode.CondVar.Enqueue` | kernel_cc.c:124-138 | the first half of cv_wait computes its step |
| `CondVarCode.CondVar.SignalHead` | kernel_cc.c:164-171 | one turn of the loop drops or wakes the first waiter |
| `CondVarCode.CondVar.CvSignal` | kernel_cc.c:161-173 | the signal loop on the heap ring computes the signal step |
| `CondVarCode.CondVar.CondBroadcast` | kernel_cc.c:197-202 | the broadcast loop computes the broadcast step |
| `CondVarCode.CondVar.TidyUp` | kernel_cc.c:140-148 | leaves the ring iff no signal removed the waiter, and hands over its flag |
| `CondVarCode.CondVar.Return` | kernel_cc.c:140-151 | the second half of cv_wait computes its step and returns the flag; its assert holds |
| `KernelLock.BlockInv` | kernel_cc.c:237-239 | blocking on the semaphore keeps the lock invariant |
| `KernelLock.TakeInv` | kernel_cc.c:240-241 | taking the semaphore keeps the lock invariant |
| `KernelLock.SignalHandsOver` | kernel_cc.c:244-250 | giving the kernel up loses no wakeup: if somebody sleeps, a signalled thread is on its way |
| `KernelLock.GiveUpInv` | kernel_cc.c:244-250 | kernel_unlock and kernel_sleep keep the lock invariant |
| `KernelLock.WaitOnInv` | kernel_cc.c:252-260 | kernel_wait_wchan keeps the lock invariant while it gives the kernel up and goes to sleep |
| `KernelLock.ResumeInv` | kernel_cc.c:237-239 | a waiter's return from the semaphore's condition variable keeps the lock invariant |
| `KernelLock.LockStep` | kernel_cc.c:234-287 | every step of the protocol keeps the lock invariant |
| `KernelLock.RunLock` | kernel_cc.c:234-287 | in every run kernel_sem plus the threads in the kernel is 1, and while the semaphore is free with a sleeper on it a signalled thread is on its way |
| `KernelLock.MutualExclusion` | kernel_sys.c:15-42 | at most one thread is in the kernel |
| `KernelLock.SleeperServed` | kernel_cc.c:234-269 | if a thread sleeps waiting for the kernel, some thread is inside or a signalled one can enter in at most two steps of its own |
| `KernelLock.StepGoes` | kernel_cc.c:234-287 | where each section takes its thread, and what it does to kernel_sem: inside iff kernel_sem was positive, else asleep on its condition variable; back to look at it after every wait |
| `KernelLock.GiveUpSignals` | kernel_cc.c:244-250 | every section that gives the kernel up chooses the first sleeper in arrival order, if there is one |
| `KernelLock.WakesReach` | kernel_cc.c:161-202 | a signal reaches the first sleeper of its condition variable, a broadcast every one, a timeout its own thread, and none another condition variable |
| `KernelLock.WaitTakesBack` | kernel_cc.c:252-269 | in every run a thread inside kernel_wait_wchan comes out of the kernel, or exits, only after it has held it again |
| `KernelLockCode.KernelSemaphore.Look` | kernel_cc.c:234-242 | one look at the semaphore, on the code's fields, is the step of the protocol |
| `KernelLockCode.KernelSemaphore.GiveUp` | kernel_cc.c:244-250 | giving up, on the code's fields, is the step of the protocol |
| `ProcessTree.ChildrenOf` | kernel_proc.c:139-171 | only live processes have children, exited children are zombies among the children, and no process is its own child |
| `ProcessTree.ReachesInit` | kernel_threads.c:182-203 | the parent chain of every process in use above pid 1 reaches pid 1, through one of init's children |
| `ProcessTree.InitAlone` | kernel_proc.c:330-332 | when init has no children no pid above 1 is in use |
| `ProcessTree.InitAlive` | kernel_threads.c:186-191 | init is alive whenever another process has a thread, so reparenting finds it |
| `ProcessTree.BornTree` | kernel_proc.c:151-171 | a new process keeps the tree |
| `ProcessTree.ReapedTree` | kernel_proc.c:234-243 | reaping a zombie child keeps the tree |
| `ProcessTree.UnlinkIsEverywhere` | kernel_proc.c:239-240 | taking a child's nodes off whatever rings hold them takes them off its parent's lists |
| `ProcessTree.ReparentForm` | kernel_threads.c:187-191 | the reparenting loop leaves the children, reversed, in front of init's, with init as their parent, and changes nothing else |
| `ProcessTree.DiedForm` | kernel_threads.c:182-206 | an exit hands over children and zombies, joins the parent's exited list, and reaches the asserts with empty lists |
| `ProcessTree.DiedTree` | kernel_threads.c:180-230 | the exit of a process keeps the tree |
| `ProcessRuns.CountExact` | kernel_proc.c:87-110 | process_count is the number of entries not FREE |
| `ProcessRuns.ExecShape` | kernel_proc.c:139-218 | Exec takes the first free PCB, puts it at the front of the caller's children, alive, with one thread iff it has a function to run |
| `ProcessRuns.ExecInv` | kernel_proc.c:139-218 | Exec keeps the invariant, also when it runs out of PCBs |
| `ProcessRuns.CleanupInv` | kernel_proc.c:234-243 | reaping keeps the invariant, and frees the PCB and the wait |
| `ProcessRuns.CleanupSoundIff` | kernel_proc.c:234-243 | cleaning up a PCB keeps the free list sound, in itself, iff the PCB is in use |
| `ProcessRuns.ReapKeepsIff` | kernel_proc.c:234-243 | reaping a PCB that is not alive, by a thread the state does not record, keeps the whole invariant iff the PCB is in use and no recorded waiter waits for it |
| `ProcessRuns.SecondPassIff` | kernel_proc.c:263-267 | so does a pass through wait_for_specific_child by a second waiter, which does not recheck its child |
| `ProcessRuns.SecondAnyPassIff` | kernel_proc.c:295-298 | a second thread in wait_for_any_child keeps the invariant iff the recorded one does not wait for the zombie it takes |
| `ProcessRuns.TwoWaiters` | kernel_proc.c:263-267 | two passes by waiters of one process for the same dead child put its PCB on the free list twice and count it off twice |
| `ProcessRuns.SecondWaiterSteals` | kernel_proc.c:263-267 | a run in which the first waiter reaps, another process takes the PCB, waits for it and it dies; the second waiter's pass then takes that child away: free list sound, invariant lost |
| `ProcessRuns.ReapsChild` | kernel_proc.c:264-298 | what a waiter reaps is a zombie child of its own process, so the assert holds |
| `ProcessRuns.WaitStepInv` | kernel_proc.c:246-301 | a pass through either wait loop, or init's exit loop, keeps the invariant |
| `ProcessRuns.DieInv` | kernel_threads.c:178-230 | the exit of the last thread keeps the invariant and its asserts hold |
| `ProcessRuns.ExitInv` | kernel_proc.c:318-335 | Exit keeps the invariant, init's loop included |
| `ProcessRuns.ExitAssertsIff` | kernel_threads.c:182-206 | the asserts hold iff the process is not init or init has no children |
| `ProcessRuns.BootedInv` | kernel_proc.c:60-81 | the booted table satisfies the invariant, for any size |
| `ProcessRuns.RunSafe` | kernel_proc.c:139-335 | in every run: each process above init is in exactly its parent's children list, in its exited list iff ZOMBIE, with a live parent and a chain to init; process_count is exact; init without children is alone |
| `ProcessRuns.RunReaped` | kernel_proc.c:234-335 | no process is reaped twice, each hands over the value it left, and once init has no children every process ever made has been reaped |
| `ProcessWakeups.CleanupWakeful` | kernel_proc.c:234-301 | reaping leaves no sleeper with something to reap |
| `ProcessWakeups.DieWakeful` | kernel_threads.c:193-203 | an exit wakes its parent, and init when it leaves zombies to it, and that is enough: who is not woken has nothing new to reap |
| `ProcessWakeups.RunWakeful` | kernel_proc.c:263-301 | in every run a thread asleep in WaitChild has nothing to reap: its child is alive, or its process has children and none has exited, init included |
| `ProcessEffects.SpecificEffect` | kernel_proc.c:246-271 | a pass sleeps while the child lives, and else reaps it: off both lists, its PCB first on the free list, its exit value handed over, nothing else touched |
| `ProcessEffects.AnyEffect` | kernel_proc.c:274-301 | a pass ends without a child iff there is none, reaps the first that has exited, and else sleeps |
| `ProcessEffects.WaitChildEffect` | kernel_proc.c:304-315 | WaitChild refuses whatever is not a child of the caller, waits for the child named, and for any child if none is |
| `ProcessEffects.ExitingEffect` | kernel_proc.c:330-334 | init reaps what has exited and goes on, sleeps while nothing has, and lets its thread exit when it has no children |
| `ProcessEffects.ExecEffect` | kernel_proc.c:139-218 | Exec fails iff the free list is empty, and then changes nothing; else it takes its head, at the front of the caller's children, and touches no other process |
| `ProcessEffects.ThreadExitEffect` | kernel_threads.c:169-233 | a thread that exits is counted off; the last one leaves its process a zombie with the exit value in its PCB, and any other changes nothing else |
| `ProcessEffects.DieEffect` | kernel_threads.c:182-206 | the last thread hands children and zombies to init, puts its process first among its parent's exited children, and wakes the parent, and init iff there were zombies |
| `ProcessEffects.ExitEffect` | kernel_proc.c:318-335 | Exit(v) stores v in the PCB; when the last thread of an ordinary process calls it, v is what the process leaves |
| `ProcessEffects.StepKeepsLeft` | kernel_proc.c:234-335 | no step changes what a dead process has left |
| `ProcessEffects.ExitDelivers` | kernel_proc.c:318-335 | in every run from boot, a process whose last thread called Exit(v) is reaped with status v, by whomever, and has been once init has no children |
| `ProcessCode.ProcessTable.constructor` | kernel_proc.c:60-76 | the initialization loop threads all entries on the free list in order |
| `ProcessCode.ProcessTable.AcquirePcb` | kernel_proc.c:87-99 | takes the head of the list threaded through `parent`, or fails |
| `ProcessCode.ProcessTable.ReleasePcb` | kernel_proc.c:104-110 | pushes the PCB on that list |
| `ProcessCode.ProcessTable.Exec` | kernel_proc.c:139-218 | computes the Exec step in place |
| `ProcessCode.ProcessTable.CleanupZombie` | kernel_proc.c:234-243 | computes the reaping step and hands over the exit value |
| `ProcessCode.ProcessTable.ReparentChildren` | kernel_threads.c:187-191 | the loop computes the reparenting |
| `ProcessCode.ProcessTable.HandOverExited` | kernel_threads.c:193-202 | computes the hand-over of the zombies and its broadcasts |
| `ProcessCode.ProcessTable.ThreadExit` | kernel_threads.c:178-230 | computes the exit step |
| `ProcessCode.ProcessTable.WaitForSpecificChild` | kernel_proc.c:264-267 | a pass through the loop computes the wait step and returns the child's status iff it has exited, having reaped it; else it sleeps |
| `ProcessCode.ProcessTable.WaitForAnyChild` | kernel_proc.c:282-298 | a pass through the loop computes the wait step and its assert holds; no child iff there is none, else the first exited child, reaped, with its status, else sleep |
| `ProcessCode.ProcessTable.WaitChild` | kernel_proc.c:304-315 | sys_WaitChild computes its step; NOPROC iff the pid given is no child of the caller, or none was given and there is no child; a child it returns is the one named, reaped, with its exit value |
| `ProcessCode.ProcessTable.Exit` | kernel_proc.c:318-335 | sys_Exit computes its step; the PCB holds the value given, and with the last thread of an ordinary process it is a zombie that leaves that value |
| `ProcessCode.ProcessTable.InitExitPass` | kernel_proc.c:330-334 | a turn of init's exit loop computes its step |
| `Threads.CreateInv` | kernel_threads.c:50-68 | creation keeps the thread invariant |
| `Threads.CreateEffect` | kernel_threads.c:50-68 | a new thread runs, unexited and undetached, joined by nobody, and is counted; no other PTCB changes |
| `Threads.EnterEffect` | kernel_threads.c:96-102 | a join of any known, other, undetached thread gets inside, exited or not; any other is refused and changes nothing |
| `Threads.JoinExited` | kernel_threads.c:96-121 | joining a thread that has exited undetached returns its exit value at once, and frees its PTCB iff nobody else is inside |
| `Threads.CheckEffect` | kernel_threads.c:104-121 | a joiner sleeps while its thread has neither exited nor been detached, gets -1 if it was detached and else the exit value, the last one inside freeing the PTCB; no other PTCB changes |
| `Threads.DetachEffect` | kernel_threads.c:140-151 | a known thread that has not exited is detached and its joiners are woken, and nobody else; any other call changes nothing |
| `Threads.ExitEffect` | kernel_threads.c:169-179 | a thread that exits leaves its value and wakes its joiners, and nobody else |
| `Threads.EnterInv` | kernel_threads.c:96-102 | entering a join keeps the invariant: refcount is the number of joiners inside |
| `Threads.CheckInv` | kernel_threads.c:104-121 | a pass through the join loop keeps the invariant, whether it sleeps, returns or frees the PTCB |
| `Threads.DecideInv` | kernel_threads.c:144-146 | the first of exit and detach decides the outcome of a thread, keeps the invariant, and leaves every earlier decision as it was |
| `Threads.OutcomeFixed` | kernel_threads.c:96-180 | over any run an outcome once decided never changes, and every join of that thread returns it |
| `Threads.DetachRefuses` | kernel_threads.c:140-151 | a detached thread cannot be joined, and all who were joining it are awake and return -1 |
| `Threads.ExitDelivers` | kernel_threads.c:169-180 | all who join a thread that exits undetached are awake and return its exit value |
| `Threads.FreedWhenUnused` | kernel_threads.c:117-120 | a PTCB is freed only by the last joiner of a thread that exited undetached |
| `Threads.RunSafe` | kernel_threads.c:96-180 | in every run all joins of one thread return the same, no PTCB is freed twice, thread_count is the number of unexited PTCBs, and a joiner sleeps only while its thread is undecided |
| `ThreadsCode.ThreadTable.CreateThread` | kernel_threads.c:50-68 | computes the step and keeps the invariant; with a function the new thread runs, without one there is no thread and no Tid |
| `ThreadsCode.ThreadTable.JoinEnter` | kernel_threads.c:96-102 | computes the step and keeps the invariant; refuses iff the thread is unknown, the caller itself, or detached, and then changes nothing; else the caller is inside and refcount is one more |
| `ThreadsCode.ThreadTable.JoinCheck` | kernel_threads.c:104-121 | computes the step and returns what was decided for the thread joined |
| `ThreadsCode.ThreadTable.ThreadDetach` | kernel_threads.c:140-151 | computes the step and keeps the invariant; succeeds iff the thread is known and has not exited, and then it is detached, nobody can join it or sleeps joining it; else nothing changes |
| `ThreadsCode.ThreadTable.ThreadExit` | kernel_threads.c:169-179 | computes the step and keeps the invariant; the PTCB is exited with the value given, and nobody sleeps joining the thread any more |
| `StreamsSafety.IncrefInv` | kernel_streams.c:44-48 | a new reference keeps counts exact |
| `StreamsSafety.DecrefInv` | kernel_streams.c:50-61 | ending a reference keeps counts exact; the last one closes the stream and frees the FCB |
| `StreamsSafety.AcquireInv` | kernel_streams.c:27-36 | an acquired FCB is named by nobody |
| `StreamsSafety.ReleaseInv` | kernel_streams.c:38-41 | giving an unused FCB back keeps the free list sound |
| `StreamsSafety.UnreserveInv` | kernel_streams.c:101-109 | giving a stream back unused keeps counts exact and runs no Close |
| `StreamsRuns.FreeFidsExact` | kernel_streams.c:71-77 | the search finds exactly the free fids, in increasing order |
| `StreamsRuns.LowestFids` | kernel_streams.c:71-77 | the fids chosen are the lowest free ones, increasing: every other free fid is above them |
| `StreamsRuns.ReserveSucceedsIff` | kernel_streams.c:65-97 | FCB_reserve succeeds iff there are enough free fids and enough free FCBs |
| `StreamsRuns.ReserveFails` | kernel_streams.c:78-90 | on failure no fid, reference, or count in use changes; nothing changes if fids ran short, and if FCBs did the free list is reversed and its counters are reset |
| `StreamsRuns.ReserveUnchangedIff` | kernel_streams.c:78-90 | a failure keeps the free list's order iff fids ran short or at most one FCB is free, and the whole state iff besides no free FCB has a stale counter |
| `StreamsRuns.ReserveFewUnchanged` | kernel_streams.c:257 | a failing call for one or two FCBs, which is all the kernel makes, always keeps the order |
| `StreamsRuns.ReserveReorders` | kernel_streams.c:83-88 | with two FCBs a call for three fails and swaps them |
| `StreamsRuns.ReserveSucceeds` | kernel_streams.c:91-96 | on success the lowest free fids name the first free FCBs in order, each counted once, and nothing else changes |
| `StreamsRuns.ReserveUnreserve` | kernel_streams.c:65-109 | FCB_unreserve undoes FCB_reserve on every fid table, without a Close |
| `StreamsRuns.Dup2Effect` | kernel_streams.c:218-238 | Dup2 makes exactly the new fid name the old one's stream, or fails and changes nothing |
| `StreamsRuns.CloseEffect` | kernel_streams.c:196-208 | Close frees exactly its fid and closes the stream iff that was the only reference |
| `StreamsRuns.BeginEffect` | kernel_streams.c:131-193 | Read and Write on an open fid take one reference of their own to its stream; on any other they change nothing |
| `StreamsRuns.EndEffect` | kernel_streams.c:50-61 | their end drops that reference, and closes the stream and frees the FCB iff it was the only one |
| `StreamsRuns.ExecEffect` | kernel_proc.c:165-170 | Exec copies the parent's table to the child and changes no other reference |
| `StreamsRuns.ExitEffect` | kernel_threads.c:217-223 | the exit of a process drops exactly its own references |
| `StreamsRuns.InheritInv` | kernel_proc.c:165-170 | the inheritance loop keeps counts exact |
| `StreamsRuns.CloseAllInv` | kernel_threads.c:217-223 | the cleanup loop keeps counts exact |
| `StreamsRuns.RunSafe` | kernel_streams.c:131-238 | in every run: off the free list the count is the number of fid entries and operations in flight naming the FCB; on it nobody names it; each stream is closed at most once, not while anything refers to it, and unless given back unused once nothing does; references keep naming the stream they were made to |
| `StreamsCode.Files.FindFids` | kernel_streams.c:71-77 | the nested search loops find the lowest free fids |
| `StreamsCode.Files.AllocateFcbs` | kernel_streams.c:79-82 | the allocation loop stops at the first failure |
| `StreamsCode.Files.RollBack` | kernel_streams.c:83-88 | the rollback loop gives the FCBs back, last first |
| `StreamsCode.Files.InstallFcbs` | kernel_streams.c:91-95 | the last loop installs and counts the FCBs |
| `StreamsCode.Files.Reserve` | kernel_streams.c:65-97 | FCB_reserve computes its step |
| `StreamsCode.Files.Unreserve` | kernel_streams.c:101-109 | FCB_unreserve computes its step |
| `StreamsCode.Files.FcbDecref` | kernel_streams.c:50-61 | computes its step and returns Close's result iff it ran |
| `StreamsCode.Files.Close` | kernel_streams.c:196-208 | computes its step; -1 out of range, 0 for a closed fid, and for an open one the result of the stream's Close if it ran, else 0 |
| `StreamsCode.Files.Dup2` | kernel_streams.c:218-238 | computes its step; fails iff a fid is out of range or the old one is closed |
| `StreamsCode.Files.InheritFids` | kernel_proc.c:165-170 | the loop computes the inheritance |
| `StreamsCode.Files.CloseFids` | kernel_threads.c:217-223 | the loop computes the cleanup |
| `Symposium.Neighbours` | symposium.c:50-51 | LEFT and RIGHT are inverse, and two different neighbours iff N > 2 |
| `Symposium.TryKeeps` | symposium.c:76-86 | trytoeat keeps neighbours apart and settles whether its philosopher is blocked |
| `Symposium.GetHungryInv` | symposium.c:106-114 | getting hungry keeps the invariant |
| `Symposium.FinishInv` | symposium.c:118-123 | finishing a meal keeps the invariant: nobody is left hungry without an eating neighbour |
| `Symposium.RunSafe` | symposium.c:89-130 | in every run, with stray wakeups: no two neighbours EATING, a sleeper is HUNGRY, whoever is HUNGRY has an EATING neighbour, and whoever stops waiting is EATING |
| `Symposium.NoDeadlock` | symposium.c:89-130 | unless all are gone, some philosopher can move without a stray wakeup |
| `Symposium.StepDrops` | symposium.c:98-129 | without stray wakeups every step lowers a measure over bites left and phase, summed over all |
| `Symposium.RunTerminates` | symposium.c:98-129 | without stray wakeups a run has at most N(4*bites+2) steps, and one that cannot go on ends with all NOTHERE after exactly `bites` meals each |
| `SymposiumCode.Table.TryToEat` | symposium.c:76-86 | computes its step on the shared arrays; a philosopher still hungry has an eating neighbour |
| `SymposiumCode.Table.GetHungry` | symposium.c:106-114 | computes its step and keeps the invariant; the philosopher eats, or sleeps next to one who does |
| `SymposiumCode.Table.Look` | symposium.c:109-114 | computes its step and keeps the invariant; the assert after the loop holds |
| `SymposiumCode.Table.Finish` | symposium.c:118-123 | computes its step and keeps the invariant |
| `SymposiumCode.Table.Leave` | symposium.c:126-129 | computes its step and keeps the invariant; whoever leaves has had all his bites |
| `Barrier.EntryAssert` | tinyoslib.c:178 | count < n at every entry |
| `Barrier.EnterEarly` | tinyoslib.c:180-188 | a party that is not the last keeps the invariant and sleeps |
| `Barrier.EnterLast` | tinyoslib.c:181-185 | the last party keeps the invariant, and completes the round |
| `Barrier.EnterWaits` | tinyoslib.c:180-188 | any other party is counted in and sleeps with the epoch it read, and nobody else changes |
| `Barrier.EnterReleases` | tinyoslib.c:181-190 | the last party wakes all, and is outside having returned from the round it completed |
| `Barrier.LookEffect` | tinyoslib.c:187-190 | a look with an old epoch leaves the party outside with one more return; with the current one it sleeps on |
| `Barrier.RunReturns` | tinyoslib.c:172-191 | without entries and stray wakeups a run ends after at most one look by each party; then everybody has returned from all completed rounds, but for those asleep in the open one |
| `Barrier.RoundReturns` | tinyoslib.c:172-191 | so when the last party has entered round k and the run cannot go on without another entry, all are outside having returned k times |
| `Barrier.RunSafe` | tinyoslib.c:172-191 | over any number of rounds nobody returns from a round before all n entered it, the epoch moves at most once while a party is inside although it wraps, and no released party sleeps |
| `Barrier.NoDeadlock` | tinyoslib.c:172-191 | some party is always outside or awake |
| `Barrier.BarrierObject.Sync` | tinyoslib.c:172-191 | BarrierSync up to its sleep or return computes its step and its asserts hold; the last party returns from the round it completes, any other is counted in and sleeps |
| `Barrier.BarrierObject.WaitPass` | tinyoslib.c:187-190 | a pass through the loop computes its step: sleep on the current epoch, and on an old one one more return |
| `Pipe.StoreContent` | kernel_pipe.c:124-141 | with room on the ring a store appends; with none it also overwrites the oldest unread byte |
| `Pipe.StoreEffect` | kernel_pipe.c:124-143 | a store that fills the buffer blocks the writer, asleep; any other wakes the reader; the bytes read and the ends keep |
| `Pipe.ResumeEffect` | kernel_pipe.c:133-143 | a second look goes on, moving the position and waking the reader, iff there is space |
| `Pipe.CloseEffect` | kernel_pipe.c:232-277 | closing the write end wakes the reader, closing the read end nobody; an end closed again changes nothing, and the last end frees the block |
| `Pipe.TakeContent` | kernel_pipe.c:200-210 | a read takes the oldest unread byte |
| `Pipe.Congruent` | kernel_pipe.c:128-141 | w_position is r_position + word_length modulo 16383 |
| `Pipe.StepInv` | kernel_pipe.c:113-277 | every step keeps the pipe's invariant |
| `Pipe.RunFifo` | kernel_pipe.c:113-220 | in every run bytes stored minus bytes returned is word_length, in 0..16384, and reads are a prefix of the stream; if no store meets 16383 unread bytes, the stream is exactly the bytes written in order |
| `Pipe.RunFifoIff` | kernel_pipe.c:123-147 | what a run delivers is exactly what was written, in order, iff no store of it meets 16383 unread bytes the oldest of which is another one |
| `Pipe.StoreKeepsIff` | kernel_pipe.c:125-141 | a store keeps the order iff fewer than 16383 bytes are unread or the oldest equals the byte stored |
| `Pipe.Overrun` | kernel_pipe.c:133-136 | the 16384th unread byte blocks the writer and is the next byte read |
| `Pipe.BlockedForever` | kernel_pipe.c:262-277 | a writer blocked when the read end is closed never goes on |
| `Pipe.UnblocksIff` | kernel_pipe.c:133-143 | a blocked writer goes on in some run iff the read end is open or there is space already |
| `Pipe.BlockedReachable` | kernel_pipe.c:113-277 | filling a fresh pipe and closing its read end gets there |
| `Pipe.FreedOnce` | kernel_pipe.c:245-247 | the block is freed once, exactly when both ends are closed, and no step uses it after |
| `Pipe.NobodyStuck` | kernel_pipe.c:135-143 | while the read end is open a sleeping writer is woken by the next take, and a sleeping reader by the writer's next store or second look |
| `Pipe.WriteFits` | kernel_pipe.c:113-152 | a write that fits stores all its bytes behind the unread ones and does not block |
| `Pipe.WriteStores` | kernel_pipe.c:113-152 | a write of any length stores its bytes in order until they are all stored, or until the buffer is full, when it blocks on the byte just stored |
| `Pipe.WriteStops` | kernel_pipe.c:123-124 | with the read end closed a write stores nothing more |
| `Pipe.ReadTakes` | kernel_pipe.c:177-220 | a read takes the oldest unread bytes, as many as asked or there, and sleeps only if it wants more from an open writer |
| `Pipe.RoundTrip` | kernel_pipe.c:113-220 | what is written into an empty pipe, up to 16383 bytes, is read back as it was |
| `Pipe.Drain` | kernel_pipe.c:186-198 | after the writer closes, reads drain exactly the rest and then return 0, without sleeping |
| `PipeCode.PipeBlock.StoreByte` | kernel_pipe.c:124-143 | computes the store on the byte array |
| `PipeCode.PipeBlock.Write` | kernel_pipe.c:113-152 | computes the turns of the loop; -1 on an illegal call, the size when it does not block |
| `PipeCode.PipeBlock.ResumeWrite` | kernel_pipe.c:135-143 | computes the writer's second look |
| `PipeCode.PipeBlock.WriteAfterWait` | kernel_pipe.c:138-151 | computes the rest of a write that waited; if the reader has gone it returns -1 iff as many bytes are unread as were to be written |
| `PipeCode.PipeBlock.TakeByte` | kernel_pipe.c:200-213 | computes the take |
| `PipeCode.PipeBlock.ReadBytes` | kernel_pipe.c:186-218 | computes the turns of the read loop |
| `PipeCode.PipeBlock.WriterClose` | kernel_pipe.c:232-249 | closes the write end once, wakes the reader, and frees the block if the read end is closed |
| `PipeCode.PipeBlock.ReaderClose` | kernel_pipe.c:262-277 | closes the read end once, wakes nobody, and frees the block if the write end is closed |
| `Exceptions.UnwindFrame` | util.c:21-43 | one frame runs its catchers and then its finalizers once each, whatever they raise, and stops the exception iff its last-run catcher did not raise and no finalizer did |
| `Exceptions.UnwindIsRaised` | util.c:13-44 | unwinding does so frame by frame until one stops the exception, or it runs out of frames |
| `Exceptions.RaiseIsRaised` | util.c:4-10 | raise_exception unwinds so from any stack |
| `Exceptions.ExitRunsFinalizers` | util.h:918-923 | a TRY block that ends normally runs no catcher and each finalizer once, and goes on iff none raises |
| `Exceptions.LastRegisteredFirst` | util.h:941-958 | handlers run last registered first, all catchers before all finalizers |
| `Exceptions.Context.PushFrame` | util.h:901-906 | a new TRY block has nothing registered |
| `Exceptions.Context.OnError` | util.h:951-958 | one more catcher registered in the frame on top |
| `Exceptions.Context.Finally` | util.h:941-948 | one more finalizer registered in the frame on top |
| `Exceptions.Context.UnwindFrames` | util.c:13-44 | the loops of exception_unwind, with the jumps of raises, terminate and compute the unwinding |
| `Exceptions.Context.RaiseException` | util.c:4-10 | computes the frame-by-frame unwinding |
| `Exceptions.Context.ExitTryBlock` | util.h:918-923 | computes the normal end of a TRY block |

## Left out

- `bios.c`, devices, consoles and terminals: only a clock, the current core and the atomicity of a locked section remain.
- Sockets (kernel_socket.c): Connect takes any wakeup on the listener's condition variable as acceptance, so the handshake it intends cannot be proved of the code.
- `Mutex_Lock`: mutual exclusion of a mutex is taken as given; its spinning and atomics are not modelled.
- `its`, `rts`, `last_cause`, the quantum timer, stacks and core halting in kernel_sched.c: they do not influence the queues.
- procinfo streams, argument packing, printing, user programs and the Fibonacci work of the philosophers: they would only add easy members.
- Boot: runs start from the initialized kernel; for processes that is the table after the two boot Execs.
- Runs of the process table with more than one thread of a process inside WaitChild, or with init's last thread leaving by ThreadExit: the code does not keep its invariant there, as `ProcessRuns.SecondPassIff` and `ProcessRuns.ExitAssertsIff` show.
- PTCBs that are detached or never joined stay allocated, as in the source; their release with the process is not modelled.
- Reference counts and process_count are unbounded integers; their 32-bit wrap-around needs more references than the kernel has threads and table entries.
- The pipe has one writer and one reader.
- The C representation: lists inside the kernel's records are sequences (`Rings` proves the pointer code does what they say), and PTCBs are values in a map, so aliasing between records is not modelled there.
- Exception handlers that open TRY blocks of their own count as one call that returns or raises.
