/** Progress of the scheduler: no starvation in the queues, and timeouts that expire on time. */
module SchedulerProgress {
  import opened Sequences
  import opened Mlfq
  import opened Scheduler
  import opened SchedulerSafety
  import opened SchedulerRuns

  // ---------- no starvation ----------

  lemma MakeReadyAdvances(s: State, h: map<Tid, Home>, t: Tid, x: Tid)
    requires InvFor(s, h) && t in s.threads && Queued(s.rq, x)
    requires s.threads[t].state == Stopped || s.threads[t].state == Init
    ensures Advances(s.rq, MakeReady(s, t).rq, x)
  {
    assert ThreadOk(t, s.threads[t], h[t], t in QueuedSet(s.rq), t in Elems(s.timeouts), s.cores);
    if s.threads[t].phase == Clean {
      AddAdvances(s.rq, t, s.threads[t].cause, x);
    }
  }

  lemma {:induction false} WakeExpiredAdvances(s: State, h: map<Tid, Home>, now: nat, x: Tid)
    requires InvFor(s, h) && now < NO_TIMEOUT && Queued(s.rq, x)
    ensures Advances(s.rq, WakeExpired(s, now).rq, x)
    decreases |s.timeouts|
  {
    if s.timeouts != [] && s.threads[s.timeouts[0]].wakeupTime <= now {
      var t := s.timeouts[0];
      TimedMeans(s, h, t);
      var m := MakeReady(s, t);
      MakeReadyAdvances(s, h, t, x);
      MakeReadyKeeps(s, h, t);
      QueueAddKeepsQueued(s, h, t, x);
      WakeExpiredAdvances(m, h, now, x);
      AdvancesTransitive(s.rq, m.rq, WakeExpired(m, now).rq, x);
    }
  }

  lemma QueueAddKeepsQueued(s: State, h: map<Tid, Home>, t: Tid, x: Tid)
    requires InvFor(s, h) && t in s.threads && Queued(s.rq, x)
    requires s.threads[t].state == Stopped || s.threads[t].state == Init
    ensures Queued(MakeReady(s, t).rq, x)
  {
    assert ThreadOk(t, s.threads[t], h[t], t in QueuedSet(s.rq), t in Elems(s.timeouts), s.cores);
    if s.threads[t].phase == Clean {
      AddValid(s.rq, t, s.threads[t].cause);
      assert x in QueuedSet(Add(s.rq, t, s.threads[t].cause));
    }
  }

  lemma YieldAdvances(s: State, h: map<Tid, Home>, c: nat, cause: Cause, now: nat, x: Tid)
    requires InvFor(s, h) && Legal(s) && c < |s.cores| && s.cores[c].pc != Switching && now < NO_TIMEOUT
    requires Queued(s.rq, x)
    ensures Advances(s.rq, Yield(s, c, cause, now).rq, x)
  {
    ParkKeeps(s, h, c, cause);
    var p := Park(s, c, cause);
    var w := WakeExpired(p, now);
    WakeExpiredAdvances(p, h, now, x);
    WakeExpiredKeeps(p, h, now);
    PopValid(w.rq);
    if Queued(w.rq, x) {
      PopAdvances(w.rq, x);
    }
    AdvancesTransitive(s.rq, w.rq, Pop(w.rq).1, x);
  }

  lemma GainAdvances(s: State, h: map<Tid, Home>, c: nat, x: Tid)
    requires InvFor(s, h) && Legal(s) && c < |s.cores| && s.cores[c].pc == Switching
    requires Queued(s.rq, x)
    ensures Advances(s.rq, Gain(s, c).rq, x)
  {
    var k := s.cores[c];
    if k.current != k.previous {
      GainFacts(s.threads, h, QueuedSet(s.rq), Elems(s.timeouts), s.cores, c);
      var b := s.threads[k.previous];
      assert !Queued(s.rq, k.previous) by { assert k.previous !in QueuedSet(s.rq); }
      if b.state == Exited {
        ForgetAdvances(s.rq, k.previous, x);
      } else if b.state == Ready && !b.idle {
        AddAdvances(s.rq, k.previous, b.cause, x);
      }
    }
  }

  lemma ForgetAdvances(rq: RunQueues, t: Tid, x: Tid)
    requires Valid(rq) && !Queued(rq, t) && Queued(rq, x)
    ensures Advances(rq, rq.(level := rq.level - {t}), x)
  {
    ForgetLevel(rq, t);
  }

  lemma SpawnAdvances(rq: RunQueues, t: Tid, l: int, x: Tid)
    requires Valid(rq) && t !in rq.level && 0 <= l < QUEUES && Queued(rq, x)
    ensures Advances(rq, rq.(level := rq.level[t := l]), x)
  {
    RegisterLevel(rq, t, l);
  }

  lemma SleepQueues(s: State, c: nat, exit: bool, timeout: nat, now: nat)
    requires Wf(s) && CoresWf(s) && c < |s.cores|
    ensures Sleep(s, c, exit, timeout, now).rq == s.rq
  {}

  lemma StepAdvances(s: State, e: Event, x: Tid)
    requires Inv(s) && Legal(s) && Enabled(s, e) && Queued(s.rq, x)
    ensures Advances(s.rq, Apply(s, e).rq, x)
  {
    var h :| InvFor(s, h);
    match e
    case SpawnEvent(t) =>
      SpawnAdvances(s.rq, t, 1, x);
    case WakeupEvent(t) =>
      if s.threads[t].state == Stopped || s.threads[t].state == Init {
        MakeReadyAdvances(s, h, t, x);
      } else {
        assert Advances(s.rq, s.rq, x);
      }
    case SleepEvent(c, exit, timeout, now) =>
      SleepQueues(s, c, exit, timeout, now);
    case YieldEvent(c, cause, now) =>
      YieldAdvances(s, h, c, cause, now, x);
    case GainEvent(c) =>
      GainAdvances(s, h, c, x);
  }

  /** No step loses history. */
  lemma StepMonotone(s: State, e: Event)
    requires Legal(s) && Enabled(s, e)
    ensures s.rq.picks <= Apply(s, e).rq.picks && s.rq.adds <= Apply(s, e).rq.adds
  {
    match e
    case YieldEvent(c, cause, now) =>
      WakeExpiredMonotone(Park(s, c, cause), now);
    case SleepEvent(c, exit, timeout, now) =>
      SleepQueues(s, c, exit, timeout, now);
    case _ =>
  }

  lemma {:induction false} WakeExpiredMonotone(s: State, now: nat)
    requires Wf(s) && now < NO_TIMEOUT
    ensures s.rq.picks == WakeExpired(s, now).rq.picks && s.rq.adds <= WakeExpired(s, now).rq.adds
    decreases |s.timeouts|
  {
    if s.timeouts != [] && s.threads[s.timeouts[0]].wakeupTime <= now {
      WakeExpiredMonotone(MakeReady(s, s.timeouts[0]), now);
    }
  }

  lemma RunAdvances(ss: seq<State>, es: seq<Event>, x: Tid)
    requires IsRun(ss, es) && (forall i :: 0 <= i < |ss| ==> Inv(ss[i])) && Legal(ss[0]) && Queued(ss[0].rq, x)
    ensures Advances(ss[0].rq, ss[|es|].rq, x)
  {
    for j := 0 to |es|
      invariant Advances(ss[0].rq, ss[j].rq, x)
    {
      if Queued(ss[j].rq, x) {
        StepAdvances(ss[j], es[j], x);
      }
      StepMonotone(ss[j], es[j]);
      StepValid(ss[j + 1]);
      AdvancesTransitive(ss[0].rq, ss[j].rq, ss[j + 1].rq, x);
    }
  }

  lemma StepValid(s: State)
    requires Inv(s)
    ensures Valid(s.rq)
  {
    var h :| InvFor(s, h);
  }

  /** No starvation, over any run from any reachable state: a thread queued at level L with boost
      counter c has, after L*500-c queue additions, been selected or reached level 0; and at position
      k of level 0 it is selected within k+1 further selections, whatever other threads do. */
  lemma NoStarvation(ss: seq<State>, es: seq<Event>, t: Tid, k: nat)
    requires IsRun(ss, es) && Inv(ss[0]) && Legal(ss[0]) && Queued(ss[0].rq, t)
    ensures Legal(ss[|es|]) && ss[0].rq.picks <= ss[|es|].rq.picks
    ensures
      var a, b := ss[0].rq, ss[|es|].rq;
      && (b.adds - a.adds >= BOOST_THRESHOLD * a.level[t] - a.ops ==>
            t in b.picks[|a.picks|..] || (t in b.level && b.level[t] == 0 && t in b.queues[0]))
      && (k < |a.queues[0]| && a.queues[0][k] == t && |b.picks| - |a.picks| >= k + 1 ==>
            t in b.picks[|a.picks|..])
  {
    RunInv(ss, es);
    RunAdvances(ss, es, t);
    AdvancesBounds(ss[0].rq, ss[|es|].rq, t, k);
  }

  // ---------- timeouts ----------

  /** What an expiry scan at `now` makes of `s`: the threads due by then are READY and off the list,
      the list keeps its later entries in order, and nothing else changes. */
  ghost predicate ExactlyExpired(s: State, r: State, now: nat)
    requires s.threads.Keys == r.threads.Keys
  {
    && (exists k: nat :: k <= |s.timeouts| && r.timeouts == s.timeouts[k..])
    && forall t :: t in s.threads ==>
      if t in s.timeouts && s.threads[t].wakeupTime <= now
      then t !in r.timeouts && r.threads[t] == s.threads[t].(state := Ready, wakeupTime := NO_TIMEOUT)
      else r.threads[t] == s.threads[t] && (t in r.timeouts <==> t in s.timeouts)
  }

  lemma FirstExpired(s: State, t0: Tid, r: State, now: nat)
    requires Wf(s) && NoDup(s.timeouts) && s.timeouts != [] && t0 == s.timeouts[0]
    requires s.threads[t0].wakeupTime <= now < NO_TIMEOUT && r.threads.Keys == s.threads.Keys
    requires ExactlyExpired(MakeReady(s, t0), r, now)
    ensures ExactlyExpired(s, r, now)
  {
    var m := MakeReady(s, t0);
    assert s.timeouts == [t0] + s.timeouts[1..];
    WithoutAbsent(s.timeouts[1..], t0);
    assert m.timeouts == s.timeouts[1..];
    var k: nat :| k <= |m.timeouts| && r.timeouts == m.timeouts[k..];
    assert s.timeouts[1..][k..] == s.timeouts[k + 1..];
  }

  /** An expiry scan readies exactly the threads due by `now`. */
  lemma {:induction false} ExpiryExact(s: State, h: map<Tid, Home>, now: nat)
    requires InvFor(s, h) && now < NO_TIMEOUT
    ensures ExactlyExpired(s, WakeExpired(s, now), now)
    decreases |s.timeouts|
  {
    if s.timeouts == [] || s.threads[s.timeouts[0]].wakeupTime > now {
      assert s.timeouts[0..] == s.timeouts;
      NoneDue(s, now);
    } else {
      var t0 := s.timeouts[0];
      TimedMeans(s, h, t0);
      MakeReadyKeeps(s, h, t0);
      ExpiryExact(MakeReady(s, t0), h, now);
      FirstExpired(s, t0, WakeExpired(MakeReady(s, t0), now), now);
    }
  }

  lemma NoneDue(s: State, now: nat)
    requires Wf(s) && Sorted(s) && (s.timeouts == [] || s.threads[s.timeouts[0]].wakeupTime > now)
    ensures forall t :: t in s.timeouts ==> s.threads[t].wakeupTime > now
  {
    forall t | t in s.timeouts ensures s.threads[t].wakeupTime > now {
      var i :| 0 <= i < |s.timeouts| && s.timeouts[i] == t;
      assert i == 0 || s.threads[s.timeouts[0]].wakeupTime <= s.threads[s.timeouts[i]].wakeupTime;
    }
  }

  lemma SleepBreaks(s: State, c: nat, timeout: nat, now: nat)
    requires Legal(s) && c < |s.cores| && timeout != NO_TIMEOUT && WakeTime(now, timeout) == NO_TIMEOUT
    ensures !Inv(Sleep(s, c, false, timeout, now))
  {
    var t := s.cores[c].current;
    InsertHolds(s.(threads := s.threads[t := s.threads[t].(state := Stopped)],
                   cores := s.cores[c := s.cores[c].(pc := Parked)]), t, timeout, now);
    if h :| InvFor(Sleep(s, c, false, timeout, now), h) {
      TimedMeans(Sleep(s, c, false, timeout, now), h, t);
    }
  }

  /** The sleep section keeps the invariant exactly when the stored wakeup time does not collide
      with the NO_TIMEOUT marker. */
  lemma SleepKeepsIff(s: State, c: nat, exit: bool, timeout: nat, now: nat)
    requires Inv(s) && Legal(s) && c < |s.cores| && s.cores[c].pc == Executing
    requires !s.threads[s.cores[c].current].idle
    ensures Inv(Sleep(s, c, exit, timeout, now)) <==>
      exit || timeout == NO_TIMEOUT || WakeTime(now, timeout) != NO_TIMEOUT
  {
    if exit || timeout == NO_TIMEOUT || WakeTime(now, timeout) != NO_TIMEOUT {
      var h :| InvFor(s, h);
      SleepKeeps(s, h, c, exit, timeout, now);
    } else {
      SleepBreaks(s, c, timeout, now);
    }
  }

  lemma InsertHolds(s: State, t: Tid, timeout: nat, now: nat)
    requires Wf(s) && t in s.threads && timeout != NO_TIMEOUT
    ensures t in RegisterTimeout(s, t, timeout, now).timeouts
    ensures RegisterTimeout(s, t, timeout, now).threads[t].wakeupTime == WakeTime(now, timeout)
  {}

  /** A wakeup time is the requested instant exactly when the 64-bit clock addition does not wrap. */
  lemma WakeTimeExact(now: nat, timeout: nat)
    ensures WakeTime(now, timeout) == now + timeout <==> now + timeout < TIMER_RANGE
    ensures now < TIMER_RANGE <= now + timeout && timeout < TIMER_RANGE ==> WakeTime(now, timeout) < now
  {}
}
