/** What each section of the scheduler does to the threads, the queues, the timeout list and the cores. */
module SchedulerEffects {
  import opened Sequences
  import opened Mlfq
  import opened Scheduler
  import opened SchedulerSafety
  import opened SchedulerRuns
  import opened SchedulerProgress

  /** All threads but `t` keep their TCB, and their place on or off the timeout list. */
  ghost predicate OthersKept(s: State, r: State, t: Tid) {
    && r.threads.Keys == s.threads.Keys
    && (forall x :: x in s.threads && x != t ==> r.threads[x] == s.threads[x])
    && (forall x :: x in s.threads && x != t ==> (x in r.timeouts <==> x in s.timeouts))
    && r.active == s.active && r.released == s.released
  }

  /** spawn_thread makes a thread that is INIT, CTX_CLEAN, untimed, at level 1 and in no queue. */
  lemma SpawnEffect(s: State, t: Tid)
    requires Wf(s) && Valid(s.rq) && t !in s.threads
    ensures var r := Spawn(s, t);
      && t in r.threads && r.threads[t] == Tcb(false, Init, Clean, NO_TIMEOUT, Idle) && r.rq.level[t] == 1
      && !Queued(r.rq, t) && r.rq.queues == s.rq.queues && r.rq.ops == s.rq.ops
      && (forall x :: x in s.threads ==> r.threads[x] == s.threads[x] && r.rq.level[x] == s.rq.level[x])
      && r.threads.Keys == s.threads.Keys + {t}
      && r.active == s.active + 1 && r.timeouts == s.timeouts && r.cores == s.cores && r.released == s.released
  {}

  /** Thread `t` is READY, untimed and off the timeout list, and in the queues iff its context is saved. */
  ghost predicate MadeReady(s: State, r: State, t: Tid)
    requires t in s.threads
  {
    && t in r.threads && r.threads[t] == s.threads[t].(state := Ready, wakeupTime := NO_TIMEOUT)
    && t !in r.timeouts
    && Shape(r.rq) && (Queued(r.rq, t) <==> s.threads[t].phase == Clean)
  }

  lemma MakeReadyQueues(s: State, h: map<Tid, Home>, t: Tid)
    requires InvFor(s, h) && t in s.threads && (s.threads[t].state == Stopped || s.threads[t].state == Init)
    ensures QueuedSet(MakeReady(s, t).rq) == QueuedSet(s.rq) + if s.threads[t].phase == Clean then {t} else {}
    ensures t !in QueuedSet(s.rq)
  {
    assert ThreadOk(t, s.threads[t], h[t], t in QueuedSet(s.rq), t in Elems(s.timeouts), s.cores);
    hide ThreadsOk, CoresOk, Labelled, Add;
    if s.threads[t].phase == Clean { AddValid(s.rq, t, s.threads[t].cause); }
  }

  lemma MakeReadyThreads(s: State, t: Tid)
    requires Wf(s) && t in s.threads && (s.threads[t].wakeupTime == NO_TIMEOUT ==> t !in s.timeouts)
    ensures var r := MakeReady(s, t);
      && OthersKept(s, r, t) && r.cores == s.cores && t !in r.timeouts && Shape(r.rq)
      && r.threads[t] == s.threads[t].(state := Ready, wakeupTime := NO_TIMEOUT)
  {
    hide Add;
  }

  lemma MakeReadyEffect(s: State, h: map<Tid, Home>, t: Tid)
    requires InvFor(s, h) && t in s.threads && (s.threads[t].state == Stopped || s.threads[t].state == Init)
    ensures var r := MakeReady(s, t);
      MadeReady(s, r, t) && OthersKept(s, r, t) && r.cores == s.cores
      && QueuedSet(r.rq) == QueuedSet(s.rq) + if s.threads[t].phase == Clean then {t} else {}
  {
    TimedMeans(s, h, t);
    MakeReadyQueues(s, h, t);
    MakeReadyThreads(s, t);
    hide InvFor, OthersKept, MakeReady;
    InQueuedSet(MakeReady(s, t).rq, t);
  }

  lemma InQueuedSet(rq: RunQueues, t: Tid)
    requires Shape(rq)
    ensures t in QueuedSet(rq) <==> Queued(rq, t)
  {}

  /** wakeup readies a thread that is STOPPED or INIT, and does nothing to any other. */
  lemma WakeupEffect(s: State, t: Tid)
    requires Inv(s) && t in s.threads
    ensures Wf(s) && var r, b := Wakeup(s, t), s.threads[t].state;
      && (b == Stopped || b == Init ==> MadeReady(s, r, t) && OthersKept(s, r, t) && r.cores == s.cores)
      && (b != Stopped && b != Init ==> r == s)
  {
    var h :| InvFor(s, h);
    if s.threads[t].state == Stopped || s.threads[t].state == Init { MakeReadyEffect(s, h, t); }
  }

  /** sleep_releasing makes its thread EXITED iff asked to, else STOPPED, and times it iff it sleeps with a
      timeout; the core is about to select, and the queues do not change. */
  lemma SleepEffect(s: State, c: nat, exit: bool, timeout: nat, now: nat)
    requires Inv(s) && Legal(s) && c < |s.cores| && s.cores[c].pc == Executing
    ensures var r, t := Sleep(s, c, exit, timeout, now), s.cores[c].current;
      && OthersKept(s, r, t) && t in r.threads
      && r.threads[t].state == (if exit then Exited else Stopped)
      && r.threads[t].phase == s.threads[t].phase && r.threads[t].idle == s.threads[t].idle
      && (t in r.timeouts <==> !exit && timeout != NO_TIMEOUT)
      && r.threads[t].wakeupTime == (if exit || timeout == NO_TIMEOUT then NO_TIMEOUT else WakeTime(now, timeout))
      && r.cores == s.cores[c := s.cores[c].(pc := Parked)] && r.rq == s.rq
  {
    var h :| InvFor(s, h);
    var t := s.cores[c].current;
    assert CoreOk(s.cores[c], c, s.threads, h);
    assert ThreadOk(t, s.threads[t], h[t], t in QueuedSet(s.rq), t in Elems(s.timeouts), s.cores);
    hide ThreadsOk, CoresOk, Valid;
  }

  // ---------- yield ----------

  ghost predicate Due(s: State, x: Tid, now: nat)
    requires x in s.threads
  {
    x in s.timeouts && s.threads[x].wakeupTime <= now
  }

  /** What yield on core `c` makes of thread `x`: RUNNING becomes READY for the thread that yields, and
      whoever is due at `now` becomes READY. */
  ghost predicate Yielded(s: State, r: State, c: nat, x: Tid, cause: Cause, now: nat)
    requires x in s.threads && x in r.threads && c < |s.cores|
  {
    var b, b', own := s.threads[x], r.threads[x], x == s.cores[c].current;
    && b'.state == (if Due(s, x, now) || (own && b.state == Running) then Ready else b.state)
    && b'.wakeupTime == (if Due(s, x, now) then NO_TIMEOUT else b.wakeupTime)
    && b'.cause == (if own then cause else b.cause)
    && b'.phase == b.phase && b'.idle == b.idle
    && (x in r.timeouts <==> x in s.timeouts && !Due(s, x, now))
  }

  lemma YieldThreads(s: State, h: map<Tid, Home>, c: nat, cause: Cause, now: nat)
    requires InvFor(s, h) && Legal(s) && c < |s.cores| && s.cores[c].pc != Switching && now < NO_TIMEOUT
    ensures var r := Yield(s, c, cause, now);
      r.threads.Keys == s.threads.Keys && forall x :: x in s.threads ==> Yielded(s, r, c, x, cause, now)
  {
    ParkKeeps(s, h, c, cause);
    var p := Park(s, c, cause);
    ExpiryExact(p, h, now);
    TimedStopped(s, h, s.cores[c].current);
    hide InvFor, Legal;
  }

  lemma TimedStopped(s: State, h: map<Tid, Home>, t: Tid)
    requires InvFor(s, h)
    ensures t in s.timeouts ==> t in s.threads && s.threads[t].state == Stopped
  {
    if t in s.timeouts { TimedMeans(s, h, t); }
  }

  /** After a yield nobody due is left on the timeout list, which keeps its order. */
  lemma YieldTimeouts(s: State, h: map<Tid, Home>, c: nat, cause: Cause, now: nat)
    requires InvFor(s, h) && Legal(s) && c < |s.cores| && s.cores[c].pc != Switching && now < NO_TIMEOUT
    ensures var r := Yield(s, c, cause, now);
      && (forall x :: x in r.timeouts ==> x in s.threads && s.threads[x].wakeupTime > now)
      && exists k: nat :: k <= |s.timeouts| && r.timeouts == s.timeouts[k..]
  {
    ParkKeeps(s, h, c, cause);
    ExpiryExact(Park(s, c, cause), h, now);
    YieldThreads(s, h, c, cause, now);
    var r := Yield(s, c, cause, now);
    assert r.timeouts == WakeExpired(Park(s, c, cause), now).timeouts;
    forall x | x in r.timeouts ensures x in s.threads && s.threads[x].wakeupTime > now {
      assert Wf(r) && Yielded(s, r, c, x, cause, now);
    }
  }

  /** The core hands over to the thread it selects; it keeps to the one that yields, or its idle thread,
      only when all queues are empty. */
  lemma YieldSelects(s: State, h: map<Tid, Home>, c: nat, cause: Cause, now: nat)
    requires InvFor(s, h) && Legal(s) && c < |s.cores| && s.cores[c].pc != Switching && now < NO_TIMEOUT
    ensures var r, t := Yield(s, c, cause, now), s.cores[c].current;
      && |r.cores| == |s.cores| && r.cores[c].pc == Switching && r.cores[c].previous == t
      && r.cores[c].idle == s.cores[c].idle
      && (forall d: nat :: d < |s.cores| && d != c ==> r.cores[d] == s.cores[d])
      && t in r.threads && Shape(r.rq) && r.active == s.active && r.released == s.released
      && (if r.rq.picks == s.rq.picks
          then r.rq.queues == [[], [], [], [], []]
               && r.cores[c].current == if r.threads[t].state == Ready then t else s.cores[c].idle
          else r.rq.picks == s.rq.picks + [r.cores[c].current] && !Queued(r.rq, r.cores[c].current))
  {
    ParkKeeps(s, h, c, cause);
    var p := Park(s, c, cause);
    var w := WakeExpired(p, now);
    WakeExpiredKeeps(p, h, now);
    WakeExpiredMonotone(p, now);
    WakeExpiredSame(p, now);
    PopTakesTop(w.rq);
    PopValid(w.rq);
    PopEmpty(w.rq);
    hide InvFor, Legal, Valid, Park;
    match Pop(w.rq).0
    case Some(t) => assert t !in QueuedSet(Pop(w.rq).1);
    case None =>
  }

  lemma PopEmpty(rq: RunQueues)
    requires Valid(rq)
    ensures Pop(rq).0 == None ==> rq.queues == [[], [], [], [], []] && Pop(rq).1.picks == rq.picks
    ensures Pop(rq).0.Some? ==> Pop(rq).1.picks == rq.picks + [Pop(rq).0.value]
    ensures Shape(Pop(rq).1)
  {
    PopTakesTop(rq);
  }

  // ---------- gain ----------

  /** gain runs the picked thread; without a switch that is all. */
  lemma GainRuns(s: State, c: nat)
    requires Legal(s) && c < |s.cores| && s.cores[c].pc == Switching && s.cores[c].current == s.cores[c].previous
    ensures var k, r := s.cores[c], Gain(s, c);
      && r.cores == s.cores[c := k.(pc := Executing)] && r.timeouts == s.timeouts && r.rq == s.rq
      && r.threads == s.threads[k.current := s.threads[k.current].(state := Running, phase := Dirty)]
      && r.active == s.active && r.released == s.released
  {}

  /** What gain makes of the TCBs when it switches: the picked thread RUNNING and CTX_DIRTY, the previous one
      freed if EXITED and else CTX_CLEAN, and no other touched. */
  lemma GainTcbs(s: State, c: nat)
    requires Legal(s) && c < |s.cores| && s.cores[c].pc == Switching && s.cores[c].current != s.cores[c].previous
    requires s.threads[s.cores[c].current].state != Exited
    ensures var k, r := s.cores[c], Gain(s, c); var t, prev := k.current, k.previous;
      && r.cores == s.cores[c := k.(pc := Executing)] && r.timeouts == s.timeouts
      && t in r.threads && r.threads[t] == s.threads[t].(state := Running, phase := Dirty)
      && (forall x :: x in s.threads && x != t && x != prev ==> x in r.threads && r.threads[x] == s.threads[x])
      && (prev in r.threads <==> s.threads[prev].state != Exited)
      && (prev in r.threads ==> r.threads[prev] == s.threads[prev].(phase := Clean))
  {
    GainEffect(s, c);
    hide Gain;
  }

  /** And of the previous thread: a READY normal thread goes to the queues, an EXITED one is counted off. */
  lemma GainSettles(s: State, c: nat)
    requires Inv(s) && Legal(s) && c < |s.cores| && s.cores[c].pc == Switching
    requires s.cores[c].current != s.cores[c].previous
    ensures s.threads[s.cores[c].current].state == Ready
    ensures s.threads[s.cores[c].previous].state in {Ready, Stopped, Exited}
    ensures var r, prev := Gain(s, c), s.cores[c].previous;
      && Shape(r.rq)
      && QueuedSet(r.rq) == QueuedSet(s.rq)
           + (if s.threads[prev].state == Ready && !s.threads[prev].idle then {prev} else {})
      && r.active == (if s.threads[prev].state == Exited then s.active - 1 else s.active)
      && r.released == (if s.threads[prev].state == Exited then s.released + [prev] else s.released)
  {
    var h :| InvFor(s, h);
    GainFacts(s.threads, h, QueuedSet(s.rq), Elems(s.timeouts), s.cores, c);
    hide ThreadsOk, CoresOk, QueuedSet, Elems, Valid;
    GainQueues(s, c);
    GainCounts(s, c);
    hide Gain, Legal;
  }

  lemma GainCounts(s: State, c: nat)
    requires Legal(s) && c < |s.cores| && s.cores[c].pc == Switching && s.cores[c].current != s.cores[c].previous
    ensures var r, prev := Gain(s, c), s.cores[c].previous;
      && Shape(r.rq)
      && r.active == (if s.threads[prev].state == Exited then s.active - 1 else s.active)
      && r.released == (if s.threads[prev].state == Exited then s.released + [prev] else s.released)
  {
    assert Wf(Switch(s, c));
  }

  // ---------- priority ----------

  /** From `a` to `b` the counter of additions runs on and, as long as no boost falls due, `t` does not rise. */
  ghost predicate Sinks(a: RunQueues, b: RunQueues, t: Tid) {
    && t in a.level && t in b.level && a.adds <= b.adds
    && (a.ops + (b.adds - a.adds) < 500 ==> a.level[t] <= b.level[t] && b.ops == a.ops + (b.adds - a.adds))
  }

  lemma AddSinks(rq: RunQueues, x: Tid, cause: Cause, t: Tid)
    requires Valid(rq) && x in rq.level && t in rq.level && (x == t ==> cause == Quantum)
    ensures Sinks(rq, Add(rq, x, cause), t)
  {
    if rq.ops + 1 != 500 { AddEffect(rq, x, cause); }
  }

  lemma MakeReadySinks(s: State, x: Tid, t: Tid)
    requires Wf(s) && Valid(s.rq) && x in s.threads && t in s.threads && s.threads[t].cause == Quantum
    ensures Sinks(s.rq, MakeReady(s, x).rq, t)
  {
    if s.threads[x].phase == Clean { AddSinks(s.rq, x, s.threads[x].cause, t); }
  }

  lemma {:induction false} ExpirySinks(s: State, h: map<Tid, Home>, now: nat, t: Tid)
    requires InvFor(s, h) && now < NO_TIMEOUT && t in s.threads && s.threads[t].cause == Quantum
    ensures Sinks(s.rq, WakeExpired(s, now).rq, t)
    decreases |s.timeouts|
  {
    if s.timeouts != [] && s.threads[s.timeouts[0]].wakeupTime <= now {
      var x := s.timeouts[0];
      TimedMeans(s, h, x);
      MakeReadyKeeps(s, h, x);
      MakeReadySinks(s, x, t);
      ExpirySinks(MakeReady(s, x), h, now, t);
    }
  }

  lemma YieldSinks(s: State, h: map<Tid, Home>, c: nat, cause: Cause, now: nat, t: Tid)
    requires InvFor(s, h) && Legal(s) && c < |s.cores| && s.cores[c].pc != Switching && now < NO_TIMEOUT
    requires t in s.threads && s.threads[t].cause == Quantum && (s.cores[c].current == t ==> cause == Quantum)
    ensures Sinks(s.rq, Yield(s, c, cause, now).rq, t)
  {
    ParkKeeps(s, h, c, cause);
    ExpirySinks(Park(s, c, cause), h, now, t);
  }

  lemma GainSinks(s: State, h: map<Tid, Home>, c: nat, t: Tid)
    requires InvFor(s, h) && Legal(s) && c < |s.cores| && s.cores[c].pc == Switching
    requires t in s.threads && s.threads[t].cause == Quantum && t in Gain(s, c).threads
    ensures Sinks(s.rq, Gain(s, c).rq, t)
  {
    var k := s.cores[c];
    assert Wf(Switch(s, c));
    if k.current != k.previous && s.threads[k.previous].state == Ready && !s.threads[k.previous].idle {
      AddSinks(s.rq, k.previous, s.threads[k.previous].cause, t);
    }
  }

  /** Every yield of `t` is for its quantum. */
  ghost predicate ByQuantum(s: State, e: Event, t: Tid) {
    e.YieldEvent? && e.c < |s.cores| && s.cores[e.c].current == t ==> e.cause == Quantum
  }

  lemma GainKeepsCause(s: State, c: nat, t: Tid)
    requires Inv(s) && Legal(s) && c < |s.cores| && s.cores[c].pc == Switching
    requires t in s.threads && t in Gain(s, c).threads
    ensures Gain(s, c).threads[t].cause == s.threads[t].cause
  {
    if s.cores[c].current == s.cores[c].previous {
      GainRuns(s, c);
    } else {
      GainSettles(s, c);
      GainTcbs(s, c);
    }
    hide Inv, Legal, Gain;
  }

  lemma SleepSinks(s: State, c: nat, exit: bool, timeout: nat, now: nat, t: Tid)
    requires Wf(s) && CoresWf(s) && c < |s.cores| && t in s.threads
    ensures Sinks(s.rq, Sleep(s, c, exit, timeout, now).rq, t)
    ensures Sleep(s, c, exit, timeout, now).threads[t].cause == s.threads[t].cause
  {
    SleepQueues(s, c, exit, timeout, now);
  }

  lemma WakeupSinks(s: State, x: Tid, t: Tid)
    requires Wf(s) && Valid(s.rq) && x in s.threads && t in s.threads && s.threads[t].cause == Quantum
    ensures Sinks(s.rq, Wakeup(s, x).rq, t) && Wakeup(s, x).threads[t].cause == Quantum
  {
    MakeReadySinks(s, x, t);
  }

  lemma StepSinks(s: State, e: Event, t: Tid)
    requires Inv(s) && Legal(s) && Enabled(s, e) && ByQuantum(s, e, t)
    requires t in s.threads && s.threads[t].cause == Quantum && t in Apply(s, e).threads
    ensures Sinks(s.rq, Apply(s, e).rq, t) && Apply(s, e).threads[t].cause == Quantum
  {
    var h :| InvFor(s, h);
    hide Sinks, ThreadsOk, CoresOk, Labelled;
    match e
    case SpawnEvent(x) => SpawnSinks(s, x, t);
    case WakeupEvent(x) => WakeupSinks(s, x, t);
    case SleepEvent(c, exit, timeout, now) => SleepSinks(s, c, exit, timeout, now, t);
    case YieldEvent(c, cause, now) =>
      YieldSinks(s, h, c, cause, now, t);
      YieldThreads(s, h, c, cause, now);
    case GainEvent(c) =>
      GainSinks(s, h, c, t);
      GainKeepsCause(s, c, t);
  }

  lemma SpawnSinks(s: State, x: Tid, t: Tid)
    requires Wf(s) && x !in s.threads && t in s.threads
    ensures Sinks(s.rq, Spawn(s, x).rq, t) && Spawn(s, x).threads[t] == s.threads[t]
  {}

  /** A thread that only ever yields because its quantum is over does not rise before the next boost: over
      any run of fewer additions than that takes, whatever other threads do. */
  lemma QuantumNeverRises(ss: seq<State>, es: seq<Event>, t: Tid)
    requires IsRun(ss, es) && Inv(ss[0]) && Legal(ss[0])
    requires forall i :: 0 <= i < |ss| ==> t in ss[i].threads
    requires ss[0].threads[t].cause == Quantum && forall i :: 0 <= i < |es| ==> ByQuantum(ss[i], es[i], t)
    requires ss[0].rq.ops + (ss[|es|].rq.adds - ss[0].rq.adds) < 500
    ensures Legal(ss[|es|]) && ss[0].rq.level[t] <= ss[|es|].rq.level[t]
  {
    RunInv(ss, es);
    for j := 0 to |es|
      invariant Sinks(ss[0].rq, ss[j].rq, t) && ss[j].threads[t].cause == Quantum
    {
      assert t in ss[j + 1].threads;
      StepSinks(ss[j], es[j], t);
    }
  }
}
