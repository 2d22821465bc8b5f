/** The scheduler of kernel_sched.c as a state machine.  One step is one section under
    `sched_spinlock`; any number of cores interleave. */
module Scheduler {
  import opened Sequences
  import opened Mlfq

  /** TimerDuration is uint64_t; NO_TIMEOUT is its largest value. */
  const TIMER_RANGE := 0x1_0000_0000_0000_0000
  const NO_TIMEOUT: nat := TIMER_RANGE - 1

  datatype ThreadState = Init | Ready | Running | Stopped | Exited
  datatype Phase = Clean | Dirty

  /** `priority_level` is kept by the run queues. */
  datatype Tcb = Tcb(idle: bool, state: ThreadState, phase: Phase, wakeupTime: nat, cause: Cause)

  /** Where a core is: running its current thread; past the first section of `sleep_releasing`
      (or past the start of `yield`) and about to select; between `yield`'s unlock and `gain`. */
  datatype Pc = Executing | Parked | Switching
  datatype Core = Core(pc: Pc, current: Tid, previous: Tid, idle: Tid)

  /** `released` is history: the TCBs freed so far, in order. */
  datatype State = State(
    threads: map<Tid, Tcb>, rq: RunQueues, timeouts: seq<Tid>, cores: seq<Core>,
    active: int, released: seq<Tid>)

  ghost predicate Wf(s: State) {
    && Shape(s.rq)
    && s.rq.level.Keys == s.threads.Keys
    && (forall t :: t in s.timeouts ==> t in s.threads)
  }

  ghost predicate CoresWf(s: State) {
    forall c :: 0 <= c < |s.cores| ==> s.cores[c].current in s.threads && s.cores[c].idle in s.threads
  }

  // ---------- the locked sections ----------

  /** spawn_thread: a new thread starts INIT, CTX_CLEAN, at priority level 1. */
  function Spawn(s: State, t: Tid): (r: State)
    requires Wf(s)
    ensures Wf(r)
  {
    s.(threads := s.threads[t := Tcb(false, Init, Clean, NO_TIMEOUT, Idle)],
       rq := s.rq.(level := s.rq.level[t := 1]),
       active := s.active + 1)
  }

  /** sched_make_ready */
  function MakeReady(s: State, t: Tid): (r: State)
    requires Wf(s) && t in s.threads
    ensures Wf(r) && r.threads.Keys == s.threads.Keys && r.cores == s.cores
  {
    var b := s.threads[t];
    var timeouts := if b.wakeupTime != NO_TIMEOUT then Without(s.timeouts, t) else s.timeouts;
    var rq := if b.phase == Clean then Add(s.rq, t, b.cause) else s.rq;
    s.(threads := s.threads[t := b.(state := Ready, wakeupTime := NO_TIMEOUT)],
       timeouts := timeouts, rq := rq)
  }

  /** sched_wakeup_expired_timeouts at clock `now` */
  function WakeExpired(s: State, now: nat): (r: State)
    requires Wf(s) && now < NO_TIMEOUT
    ensures Wf(r) && r.threads.Keys == s.threads.Keys && r.cores == s.cores
    decreases |s.timeouts|
  {
    if s.timeouts == [] || s.threads[s.timeouts[0]].wakeupTime > now then s
    else WakeExpired(MakeReady(s, s.timeouts[0]), now)
  }

  /** The clock value stored by sched_register_timeout; the addition is modulo 2^64. */
  function WakeTime(now: nat, timeout: nat): (r: nat)
    ensures r < TIMER_RANGE
  {
    (now + timeout) % TIMER_RANGE
  }

  /** The index the insertion scan of sched_register_timeout stops at. */
  function InsertPos(s: State, w: nat, from: nat): (i: nat)
    requires Wf(s) && from <= |s.timeouts|
    ensures from <= i <= |s.timeouts|
    ensures forall j :: from <= j < i ==> s.threads[s.timeouts[j]].wakeupTime <= w
    ensures i < |s.timeouts| ==> w < s.threads[s.timeouts[i]].wakeupTime
    decreases |s.timeouts| - from
  {
    if from == |s.timeouts| || w < s.threads[s.timeouts[from]].wakeupTime then from
    else InsertPos(s, w, from + 1)
  }

  function RegisterTimeout(s: State, t: Tid, timeout: nat, now: nat): (r: State)
    requires Wf(s) && t in s.threads
    ensures Wf(r)
  {
    if timeout == NO_TIMEOUT then s
    else
      var w := WakeTime(now, timeout);
      var i := InsertPos(s, w, 0);
      s.(threads := s.threads[t := s.threads[t].(wakeupTime := w)],
         timeouts := Insert(s.timeouts, i, t))
  }

  /** wakeup */
  function Wakeup(s: State, t: Tid): (r: State)
    requires Wf(s) && t in s.threads
    ensures Wf(r)
  {
    if s.threads[t].state == Stopped || s.threads[t].state == Init then MakeReady(s, t) else s
  }

  /** The locked section of sleep_releasing on core `c`. */
  function Sleep(s: State, c: nat, exit: bool, timeout: nat, now: nat): (r: State)
    requires Wf(s) && CoresWf(s) && c < |s.cores|
    ensures Wf(r)
  {
    var t := s.cores[c].current;
    var marked := s.(
      threads := s.threads[t := s.threads[t].(state := if exit then Exited else Stopped)],
      cores := s.cores[c := s.cores[c].(pc := Parked)]);
    if exit then marked else RegisterTimeout(marked, t, timeout, now)
  }

  /** The start of yield's locked section: the current thread stops being RUNNING. */
  function Park(s: State, c: nat, cause: Cause): (r: State)
    requires Wf(s) && CoresWf(s) && c < |s.cores|
    ensures Wf(r) && CoresWf(r) && |r.cores| == |s.cores|
  {
    var t := s.cores[c].current;
    var b := s.threads[t];
    s.(threads := s.threads[t := b.(state := if b.state == Running then Ready else b.state, cause := cause)],
       cores := s.cores[c := s.cores[c].(pc := Parked)])
  }

  /** sched_queue_select and the hand-over to the selected thread. */
  function PickNext(s: State, c: nat): (r: State)
    requires Wf(s) && CoresWf(s) && c < |s.cores|
    ensures Wf(r)
  {
    var k := s.cores[c];
    var (top, rq) := Pop(s.rq);
    var next := match top
      case Some(t) => t
      case None => if s.threads[k.current].state == Ready then k.current else k.idle;
    s.(rq := rq, cores := s.cores[c := k.(pc := Switching, previous := k.current, current := next)])
  }

  /** The locked section of yield on core `c`. */
  function Yield(s: State, c: nat, cause: Cause, now: nat): (r: State)
    requires Wf(s) && CoresWf(s) && c < |s.cores| && now < NO_TIMEOUT
    ensures Wf(r)
  {
    PickNext(WakeExpired(Park(s, c, cause), now), c)
  }

  /** release_TCB */
  function Release(s: State, t: Tid): (r: State)
    requires Wf(s) && t !in s.timeouts
    ensures Wf(r)
  {
    s.(threads := s.threads - {t}, rq := s.rq.(level := s.rq.level - {t}),
       active := s.active - 1, released := s.released + [t])
  }

  /** The first half of gain: the picked thread becomes RUNNING, the previous one CTX_CLEAN. */
  function Switch(s: State, c: nat): (r: State)
    requires Wf(s) && CoresWf(s) && c < |s.cores| && s.cores[c].previous in s.threads
    ensures Wf(r)
  {
    var k := s.cores[c];
    var threads := s.threads[k.current := s.threads[k.current].(state := Running, phase := Dirty)];
    s.(threads := if k.current == k.previous then threads
                  else threads[k.previous := threads[k.previous].(phase := Clean)],
       cores := s.cores[c := k.(pc := Executing)])
  }

  /** gain on core `c` */
  function Gain(s: State, c: nat): (r: State)
    requires Wf(s) && CoresWf(s) && c < |s.cores| && s.cores[c].previous in s.threads
    requires s.cores[c].previous !in s.timeouts || s.threads[s.cores[c].previous].state == Stopped
  {
    var k := s.cores[c];
    var r := Switch(s, c);
    if k.current == k.previous then r
    else match s.threads[k.previous].state
      case Ready =>
        if s.threads[k.previous].idle then r
        else r.(rq := Add(r.rq, k.previous, s.threads[k.previous].cause))
      case Exited => Release(r, k.previous)
      case _ => r
  }
}
