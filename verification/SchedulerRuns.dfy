/** Theorems about whole runs of the scheduler. */
module SchedulerRuns {
  import opened Sequences
  import opened Mlfq
  import opened Scheduler
  import opened SchedulerSafety

  lemma InitialStructural(s: State)
    requires Initial(s)
    ensures Structural(s) && QueuedSet(s.rq) == {}
  {}

  lemma InitialControl(threads: map<Tid, Tcb>, cores: seq<Core>) returns (h: map<Tid, Home>)
    requires AllIdle(threads, cores)
    ensures h.Keys == threads.Keys && ThreadsOk(threads, h, {}, {}, cores) && CoresOk(cores, threads, h)
  {
    h := map t | t in threads :: OnCore(t);
  }

  /** The runs are not vacuous: an initial state exists for any number of cores. */
  lemma InitialExists(n: nat) returns (s: State)
    ensures Initial(s) && |s.cores| == n
  {
    var threads := map t | t in UpTo(n) :: Tcb(true, Running, Dirty, NO_TIMEOUT, Idle);
    s := State(threads, RunQueues([[], [], [], [], []], map t | t in threads :: 0, 0, 0, []),
               [], seq(n, c requires 0 <= c => Core(Executing, c, c, c)), 0, []);
  }

  lemma InitialInv(s: State)
    requires Initial(s)
    ensures Inv(s)
  {
    InitialStructural(s);
    var h := InitialControl(s.threads, s.cores);
    assert Elems(s.timeouts) == {};
    assert InvFor(s, h);
  }

  lemma StepInv(s: State, e: Event)
    requires Inv(s) && Legal(s) && Enabled(s, e)
    ensures Inv(Apply(s, e))
  {
    var h :| InvFor(s, h);
    match e
    case SpawnEvent(t) =>
      SpawnKeeps(s, h, t);
    case WakeupEvent(t) =>
      if s.threads[t].state == Stopped || s.threads[t].state == Init {
        MakeReadyKeeps(s, h, t);
      }
    case SleepEvent(c, exit, timeout, now) =>
      SleepKeeps(s, h, c, exit, timeout, now);
    case YieldEvent(c, cause, now) =>
      YieldKeeps(s, h, c, cause, now);
    case GainEvent(c) =>
      if s.cores[c].current == s.cores[c].previous {
        GainSelfKeeps(s, h, c);
      } else {
        var h' := GainKeeps(s, h, c);
      }
  }

  lemma YieldKeeps(s: State, h: map<Tid, Home>, c: nat, cause: Cause, now: nat)
    requires InvFor(s, h) && Legal(s) && c < |s.cores| && s.cores[c].pc != Switching && now < NO_TIMEOUT
    ensures Inv(Yield(s, c, cause, now))
  {
    ParkKeeps(s, h, c, cause);
    var p := Park(s, c, cause);
    WakeExpiredKeeps(p, h, now);
    var h' := PickNextKeeps(WakeExpired(p, now), h, c);
  }

  /** The invariant holds in every state of every run, and no run ends in a state the code could
      not continue from. */
  lemma RunInv(ss: seq<State>, es: seq<Event>)
    requires IsRun(ss, es) && Inv(ss[0])
    ensures forall i :: 0 <= i < |ss| ==> Inv(ss[i]) && Legal(ss[i])
  {
    InvLegal(ss[0]);
    for j := 0 to |es|
      invariant forall i :: 0 <= i <= j ==> Inv(ss[i]) && Legal(ss[i])
    {
      StepInv(ss[j], es[j]);
      InvLegal(ss[j + 1]);
    }
  }

  // ---------- what the invariant means ----------

  /** `t` has been picked by a core that has yet to run gain. */
  ghost predicate PickedInTransit(s: State, t: Tid) {
    exists c: nat :: c < |s.cores| && s.cores[c].pc == Switching && s.cores[c].current == t && s.cores[c].previous != t
  }

  /** `t` is current on core `k`, or on its way off it. */
  ghost predicate HeldBy(k: Core, t: Tid) {
    k.current == t || (k.pc == Switching && k.previous == t)
  }

  ghost predicate RunsOn(k: Core, t: Tid) {
    k.pc == Executing && k.current == t
  }

  ghost predicate Safe(s: State)
    requires Legal(s)
  {
    // in the queues iff READY and CTX_CLEAN, save for threads in transit
    && (forall t :: t in s.threads && !s.threads[t].idle ==>
          (Queued(s.rq, t) <==> s.threads[t].state == Ready && s.threads[t].phase == Clean && !PickedInTransit(s, t)))
    // no thread is current or picked on two cores
    && (forall c: nat, d: nat, t :: c < d < |s.cores| && HeldBy(s.cores[c], t) ==> !HeldBy(s.cores[d], t))
    // a core in transit resumes a saved context, and leaves a thread that gain can dispose of
    && (forall c: nat :: c < |s.cores| && s.cores[c].pc == Switching && s.cores[c].current != s.cores[c].previous ==>
          && s.threads[s.cores[c].current].state == Ready && s.threads[s.cores[c].current].phase == Clean
          && s.threads[s.cores[c].previous].state in {Ready, Stopped, Exited})
    // RUNNING threads are exactly those the executing cores run
    && (forall t :: t in s.threads ==>
          (s.threads[t].state == Running <==> exists c: nat :: c < |s.cores| && RunsOn(s.cores[c], t)))
    // the timeout list holds exactly the timed threads, once and in order; they sleep unqueued
    && (forall t :: t in s.threads ==> (t in s.timeouts <==> s.threads[t].wakeupTime != NO_TIMEOUT))
    && (forall t :: t in s.timeouts ==> s.threads[t].state == Stopped && !Queued(s.rq, t))
    && NoDup(s.timeouts) && Sorted(s) && Valid(s.rq)
  }

  lemma HomeOfHeld(s: State, h: map<Tid, Home>, c: nat, t: Tid)
    requires InvFor(s, h) && c < |s.cores| && HeldBy(s.cores[c], t)
    ensures t in s.threads && h[t] != Off && h[t].core == c
  {
    assert CoreOk(s.cores[c], c, s.threads, h);
  }

  lemma QueuedMeans(s: State, h: map<Tid, Home>, t: Tid)
    requires InvFor(s, h) && t in s.threads && !s.threads[t].idle
    ensures Queued(s.rq, t) <==> s.threads[t].state == Ready && s.threads[t].phase == Clean && !PickedInTransit(s, t)
  {
    assert ThreadOk(t, s.threads[t], h[t], t in QueuedSet(s.rq), t in Elems(s.timeouts), s.cores);
    if c: nat :| c < |s.cores| && s.cores[c].pc == Switching && s.cores[c].current == t && s.cores[c].previous != t {
      assert CoreOk(s.cores[c], c, s.threads, h);
    }
  }

  lemma RunningMeans(s: State, h: map<Tid, Home>, t: Tid)
    requires InvFor(s, h) && t in s.threads
    ensures s.threads[t].state == Running <==> exists c: nat :: c < |s.cores| && RunsOn(s.cores[c], t)
  {
    assert ThreadOk(t, s.threads[t], h[t], t in QueuedSet(s.rq), t in Elems(s.timeouts), s.cores);
    if s.threads[t].state == Running {
      var c := h[t].core;
      assert CoreOk(s.cores[c], c, s.threads, h);
      assert RunsOn(s.cores[c], t);
    }
    if c: nat :| c < |s.cores| && RunsOn(s.cores[c], t) {
      assert CoreOk(s.cores[c], c, s.threads, h);
    }
  }

  lemma TimedMeans(s: State, h: map<Tid, Home>, t: Tid)
    requires InvFor(s, h) && t in s.threads
    ensures t in s.timeouts <==> s.threads[t].wakeupTime != NO_TIMEOUT
    ensures t in s.timeouts ==> s.threads[t].state == Stopped && !Queued(s.rq, t)
  {
    assert ThreadOk(t, s.threads[t], h[t], t in QueuedSet(s.rq), t in Elems(s.timeouts), s.cores);
  }

  lemma InvSafe(s: State)
    requires Inv(s) && Legal(s)
    ensures Safe(s)
  {
    var h :| InvFor(s, h);
    forall t | t in s.threads && !s.threads[t].idle
      ensures Queued(s.rq, t) <==> s.threads[t].state == Ready && s.threads[t].phase == Clean && !PickedInTransit(s, t)
    {
      QueuedMeans(s, h, t);
    }
    forall c: nat, d: nat, t | c < d < |s.cores| && HeldBy(s.cores[c], t) ensures !HeldBy(s.cores[d], t) {
      HomeOfHeld(s, h, c, t);
      if HeldBy(s.cores[d], t) { HomeOfHeld(s, h, d, t); }
    }
    forall c: nat | c < |s.cores| && s.cores[c].pc == Switching && s.cores[c].current != s.cores[c].previous
      ensures s.threads[s.cores[c].current].state == Ready && s.threads[s.cores[c].current].phase == Clean
      ensures s.threads[s.cores[c].previous].state in {Ready, Stopped, Exited}
    {
      GainFacts(s.threads, h, QueuedSet(s.rq), Elems(s.timeouts), s.cores, c);
    }
    forall t | t in s.threads
      ensures s.threads[t].state == Running <==> exists c: nat :: c < |s.cores| && RunsOn(s.cores[c], t)
      ensures t in s.timeouts <==> s.threads[t].wakeupTime != NO_TIMEOUT
      ensures t in s.timeouts ==> s.threads[t].state == Stopped && !Queued(s.rq, t)
    {
      RunningMeans(s, h, t);
      TimedMeans(s, h, t);
    }
  }

  /** Safety over every interleaving of spawn, wakeup, sleep, yield and gain on any number of cores. */
  lemma RunSafe(ss: seq<State>, es: seq<Event>)
    requires IsRun(ss, es) && Initial(ss[0])
    ensures forall i :: 0 <= i < |ss| ==> Legal(ss[i]) && Safe(ss[i])
  {
    InitialInv(ss[0]);
    RunInv(ss, es);
    forall i | 0 <= i < |ss| ensures Safe(ss[i]) {
      InvSafe(ss[i]);
    }
  }

  // ---------- a thread in transit ----------

  /** The queues hold `t` alone, at level 1, where a spawned thread starts. */
  ghost predicate OnlyAtLevel1(rq: RunQueues, t: Tid) {
    Shape(rq) && rq.queues == [[], [t], [], [], []]
  }

  lemma FirstWakeup(s: State, t: Tid)
    requires Initial(s) && t !in s.threads
    ensures Wf(s) && var r := Wakeup(Spawn(s, t), t);
      && OnlyAtLevel1(r.rq, t) && r.timeouts == [] && r.cores == s.cores
      && r.threads == s.threads[t := Tcb(false, Ready, Clean, NO_TIMEOUT, Idle)]
  {
    var ready := Tcb(false, Ready, Clean, NO_TIMEOUT, Idle);
    assert Spawn(s, t).threads[t := ready] == s.threads[t := ready];
    assert [] + [t] == [t];
  }

  lemma PopOnly(rq: RunQueues, t: Tid)
    requires OnlyAtLevel1(rq, t)
    ensures Pop(rq).0 == Some(t) && Pop(rq).1.queues == [[], [], [], [], []]
  {
    assert TopQueue(rq.queues, 0) == TopQueue(rq.queues, 1) == 1;
    assert [t][1..] == [];
  }

  /** Unqueued although READY and CTX_CLEAN, and not an idle thread. */
  ghost predicate ReadyCleanUnqueued(s: State, t: Tid) {
    && Shape(s.rq) && t in s.threads && !s.threads[t].idle
    && s.threads[t].state == Ready && s.threads[t].phase == Clean && !Queued(s.rq, t)
  }

  /** The invariant that kernel_sched.h states does not hold: spawning a thread, waking it up and yielding
      to it on the first core leaves it READY, CTX_CLEAN and unqueued until gain. */
  lemma HeaderInvariantFails(s: State) returns (ss: seq<State>, es: seq<Event>, t: Tid)
    requires Initial(s) && |s.cores| > 0
    ensures IsRun(ss, es) && ss[0] == s && ReadyCleanUnqueued(ss[|es|], t)
  {
    hide Inv, Initial, Legal, Wf, Apply, Spawn, Wakeup, ReadyCleanUnqueued, OnlyAtLevel1;
    t := |s.cores|;
    InitialNames(s);
    InitialInv(s);
    FirstWakeup(s, t);
    ss, es := SpawnAndWake(s, t);
    YieldToOnly(ss[2], t);
    ss, es := ExtendRun(ss, es, YieldEvent(0, Quantum, 0));
  }

  lemma SpawnAndWake(s: State, t: Tid) returns (ss: seq<State>, es: seq<Event>)
    requires Inv(s) && Enabled(s, SpawnEvent(t))
    ensures IsRun(ss, es) && |es| == 2 && ss[0] == s && Legal(ss[2])
    ensures Wf(s) && ss[2] == Wakeup(Spawn(s, t), t)
  {
    hide Inv, Legal;
    InvLegal(s);
    LegalWf(s);
    StepInv(s, SpawnEvent(t));
    var s1 := Spawn(s, t);
    InvLegal(s1);
    StepInv(s1, WakeupEvent(t));
    InvLegal(Wakeup(s1, t));
    ss, es := ExtendRun([s], [], SpawnEvent(t));
    ss, es := ExtendRun(ss, es, WakeupEvent(t));
  }

  lemma LegalWf(s: State)
    requires Legal(s)
    ensures Wf(s)
  {}

  lemma ExtendRun(ss: seq<State>, es: seq<Event>, e: Event) returns (ss': seq<State>, es': seq<Event>)
    requires IsRun(ss, es) && Legal(ss[|es|]) && Enabled(ss[|es|], e)
    ensures ss' == ss + [Apply(ss[|es|], e)] && es' == es + [e] && IsRun(ss', es')
  {
    hide Apply, Legal, Enabled;
    ss', es' := ss + [Apply(ss[|es|], e)], es + [e];
  }

  lemma InitialNames(s: State)
    requires Initial(s) && |s.cores| > 0
    ensures |s.cores| !in s.threads && |s.cores| !in s.released && s.cores[0] == Core(Executing, 0, 0, 0)
  {}

  lemma YieldToOnly(s: State, t: Tid)
    requires Legal(s) && |s.cores| > 0 && OnlyAtLevel1(s.rq, t) && s.timeouts == [] && s.cores[0].current != t
    requires t in s.threads && s.threads[t] == Tcb(false, Ready, Clean, NO_TIMEOUT, Idle)
    requires s.cores[0].pc == Executing
    ensures var e := YieldEvent(0, Quantum, 0);
      Enabled(s, e) && ReadyCleanUnqueued(Apply(s, e), t)
  {
    PopOnly(s.rq, t);
    var p := Park(s, 0, Quantum);
    assert WakeExpired(p, 0) == p;
  }

  // ---------- thread lifetimes ----------

  ghost function Normal(s: State): set<Tid> {
    set t | t in s.threads && !s.threads[t].idle
  }

  /** active_threads counts the live normal threads; no TCB is freed twice or used after. */
  ghost predicate Lifetimes(s: State) {
    && s.active == |Normal(s)|
    && NoDup(s.released)
    && (forall t :: t in s.released ==> t !in s.threads)
  }

  ghost predicate SameThreads(s: State, r: State) {
    && r.threads.Keys == s.threads.Keys
    && (forall t :: t in s.threads ==> r.threads[t].idle == s.threads[t].idle)
    && r.active == s.active && r.released == s.released
  }

  lemma SameThreadsLifetimes(s: State, r: State)
    requires SameThreads(s, r) && Lifetimes(s)
    ensures Lifetimes(r)
  {
    assert Normal(r) == Normal(s);
  }

  lemma {:induction false} WakeExpiredSame(s: State, now: nat)
    requires Wf(s) && now < NO_TIMEOUT
    ensures SameThreads(s, WakeExpired(s, now))
    decreases |s.timeouts|
  {
    if s.timeouts != [] && s.threads[s.timeouts[0]].wakeupTime <= now {
      WakeExpiredSame(MakeReady(s, s.timeouts[0]), now);
    }
  }

  /** A gain that switches away from an EXITED thread. */
  ghost predicate Reaps(s: State, e: Event)
    requires Legal(s)
  {
    && e.GainEvent? && e.c < |s.cores| && s.cores[e.c].pc == Switching
    && s.cores[e.c].current != s.cores[e.c].previous
    && s.threads[s.cores[e.c].previous].state == Exited
  }

  lemma StepSame(s: State, e: Event)
    requires Legal(s) && Enabled(s, e) && !e.SpawnEvent? && !Reaps(s, e)
    ensures SameThreads(s, Apply(s, e))
  {
    match e
    case WakeupEvent(t) => WakeupSame(s, t);
    case YieldEvent(c, cause, now) => YieldSame(s, c, cause, now);
    case SleepEvent(c, exit, timeout, now) => SleepSame(s, c, exit, timeout, now);
    case GainEvent(c) => GainSame(s, c);
  }

  lemma WakeupSame(s: State, t: Tid)
    requires Wf(s) && t in s.threads
    ensures SameThreads(s, Wakeup(s, t))
  {}

  lemma YieldSame(s: State, c: nat, cause: Cause, now: nat)
    requires Wf(s) && CoresWf(s) && c < |s.cores| && now < NO_TIMEOUT
    ensures SameThreads(s, Yield(s, c, cause, now))
  {
    WakeExpiredSame(Park(s, c, cause), now);
  }

  lemma GainSame(s: State, c: nat)
    requires Legal(s) && Enabled(s, GainEvent(c)) && !Reaps(s, GainEvent(c))
    ensures SameThreads(s, Gain(s, c))
  {
    hide Add;
  }

  lemma SleepSame(s: State, c: nat, exit: bool, timeout: nat, now: nat)
    requires Wf(s) && CoresWf(s) && c < |s.cores|
    ensures SameThreads(s, Sleep(s, c, exit, timeout, now))
  {}

  lemma ReapEffect(s: State, c: nat)
    requires Legal(s) && Enabled(s, GainEvent(c)) && Reaps(s, GainEvent(c))
    ensures var r, t := Gain(s, c), s.cores[c].previous;
      && r.threads.Keys == s.threads.Keys - {t} && r.active == s.active - 1 && r.released == s.released + [t]
      && forall x :: x in r.threads ==> r.threads[x].idle == s.threads[x].idle
  {}

  /** A TCB is freed by the gain that follows its thread's exit, and then it is queued nowhere, timed
      nowhere and current nowhere. */
  lemma ReapsUnused(s: State, c: nat)
    requires Inv(s) && Legal(s) && Reaps(s, GainEvent(c))
    ensures var t := s.cores[c].previous;
      && !Queued(s.rq, t) && t !in s.timeouts && !s.threads[t].idle
      && forall d: nat :: d < |s.cores| ==> s.cores[d].current != t
  {
    var h :| InvFor(s, h);
    var t := s.cores[c].previous;
    GainFacts(s.threads, h, QueuedSet(s.rq), Elems(s.timeouts), s.cores, c);
    assert t in QueuedSet(s.rq) <==> Queued(s.rq, t);
    assert t in Elems(s.timeouts) <==> t in s.timeouts;
    forall d: nat | d < |s.cores| ensures s.cores[d].current != t {
      if s.cores[d].current == t {
        HomeOfHeld(s, h, d, t);
        HomeOfHeld(s, h, c, t);
      }
    }
  }

  lemma ReleaseLifetimes(s: State, r: State, t: Tid)
    requires Lifetimes(s) && t in s.threads && !s.threads[t].idle
    requires r.threads.Keys == s.threads.Keys - {t} && r.active == s.active - 1 && r.released == s.released + [t]
    requires forall x :: x in r.threads ==> r.threads[x].idle == s.threads[x].idle
    ensures Lifetimes(r)
  {
    assert Normal(r) == Normal(s) - {t};
    NoDupSnoc(s.released, t);
  }

  lemma SpawnLifetimes(s: State, t: Tid)
    requires Wf(s) && Lifetimes(s) && t !in s.threads && t !in s.released
    ensures Lifetimes(Spawn(s, t))
  {
    assert Normal(Spawn(s, t)) == Normal(s) + {t};
  }

  lemma LifetimesStep(s: State, e: Event)
    requires Inv(s) && Legal(s) && Enabled(s, e) && Lifetimes(s)
    ensures Lifetimes(Apply(s, e))
  {
    var r := Apply(s, e);
    if e.SpawnEvent? {
      SpawnLifetimes(s, e.t);
    } else if Reaps(s, e) {
      ReapsUnused(s, e.c);
      ReapEffect(s, e.c);
      ReleaseLifetimes(s, r, s.cores[e.c].previous);
    } else {
      StepSame(s, e);
      SameThreadsLifetimes(s, r);
    }
  }

  /** In every state of every run. */
  lemma RunLifetimes(ss: seq<State>, es: seq<Event>)
    requires IsRun(ss, es) && Initial(ss[0])
    ensures forall i :: 0 <= i < |ss| ==> Inv(ss[i]) && Legal(ss[i]) && Lifetimes(ss[i])
  {
    InitialInv(ss[0]);
    assert Normal(ss[0]) == {};
    RunInv(ss, es);
    for j := 0 to |es|
      invariant forall i :: 0 <= i <= j ==> Lifetimes(ss[i])
    {
      LifetimesStep(ss[j], es[j]);
    }
  }

  /** When active_threads reads zero, which is when the idle loops leave, every thread spawned at
      any point `i` of the run has been released; and no thread is ever released twice. */
  lemma AllReleased(ss: seq<State>, es: seq<Event>, i: nat)
    requires IsRun(ss, es) && Initial(ss[0]) && i < |es| && es[i].SpawnEvent?
    ensures NoDup(ss[|es|].released)
    ensures ss[|es|].active == 0 ==> es[i].t in ss[|es|].released
  {
    RunLifetimes(ss, es);
    SpawnedNormal(ss, es, i);
  }

  /** Threads spawned by the run are never idle threads. */
  lemma SpawnedNormal(ss: seq<State>, es: seq<Event>, i: nat)
    requires IsRun(ss, es) && i < |es| && es[i].SpawnEvent?
    requires forall j :: 0 <= j < |ss| ==> Inv(ss[j]) && Lifetimes(ss[j])
    ensures es[i].t in ss[|es|].released || es[i].t in Normal(ss[|es|])
  {
    var t := es[i].t;
    assert t in Normal(ss[i + 1]);
    for j := i + 1 to |es|
      invariant t in ss[j].released || t in Normal(ss[j])
    {
      NormalStep(ss[j], es[j], t);
    }
  }

  lemma NormalStep(s: State, e: Event, t: Tid)
    requires Legal(s) && Enabled(s, e)
    requires t in s.released || t in Normal(s)
    ensures t in Apply(s, e).released || t in Normal(Apply(s, e))
  {
    if e.SpawnEvent? {
      assert Spawn(s, e.t).threads == s.threads[e.t := Spawn(s, e.t).threads[e.t]];
    } else if Reaps(s, e) {
      ReapEffect(s, e.c);
    } else {
      StepSame(s, e);
    }
  }
}
