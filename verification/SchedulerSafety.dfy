/** Safety of the scheduler over every interleaving of its locked sections. */
module SchedulerSafety {
  import opened Sequences
  import opened Mlfq
  import opened Scheduler

  // ---------- runs ----------

  datatype Event =
    | SpawnEvent(t: Tid)
    | WakeupEvent(t: Tid)
    | SleepEvent(c: nat, exit: bool, timeout: nat, now: nat)
    | YieldEvent(c: nat, cause: Cause, now: nat)
    | GainEvent(c: nat)

  /** What the callers of the scheduler guarantee.  Only a RUNNING normal thread sleeps, a wakeup
      names a live TCB, and the stored wakeup time is not the NO_TIMEOUT marker. */
  ghost predicate Enabled(s: State, e: Event) {
    match e
    case SpawnEvent(t) => t !in s.threads && t !in s.released
    case WakeupEvent(t) => t in s.threads
    case SleepEvent(c, exit, timeout, now) =>
      && c < |s.cores| && s.cores[c].pc == Executing
      && s.cores[c].current in s.threads && !s.threads[s.cores[c].current].idle
      && (exit || timeout == NO_TIMEOUT || WakeTime(now, timeout) != NO_TIMEOUT)
    case YieldEvent(c, cause, now) => c < |s.cores| && s.cores[c].pc != Switching && now < NO_TIMEOUT
    case GainEvent(c) => c < |s.cores| && s.cores[c].pc == Switching
  }

  /** What the code takes for granted when it dereferences: see `InvLegal`. */
  ghost predicate Legal(s: State) {
    && Wf(s) && CoresWf(s)
    && forall c: nat :: c < |s.cores| && s.cores[c].pc == Switching ==>
      && s.cores[c].previous in s.threads
      && (s.cores[c].previous in s.timeouts ==> s.threads[s.cores[c].previous].state == Stopped)
  }

  ghost function Apply(s: State, e: Event): State
    requires Legal(s) && Enabled(s, e)
  {
    match e
    case SpawnEvent(t) => Spawn(s, t)
    case WakeupEvent(t) => Wakeup(s, t)
    case SleepEvent(c, exit, timeout, now) => Sleep(s, c, exit, timeout, now)
    case YieldEvent(c, cause, now) => Yield(s, c, cause, now)
    case GainEvent(c) => Gain(s, c)
  }

  ghost predicate IsRun(ss: seq<State>, es: seq<Event>) {
    && |ss| == |es| + 1
    && forall i :: 0 <= i < |es| ==> Legal(ss[i]) && Enabled(ss[i], es[i]) && ss[i + 1] == Apply(ss[i], es[i])
  }

  /** Every core runs its idle thread, named like the core, and there are no other threads. */
  ghost predicate AllIdle(threads: map<Tid, Tcb>, cores: seq<Core>) {
    && (forall t: Tid :: t in threads <==> t < |cores|)
    && (forall t :: t in threads ==> threads[t] == Tcb(true, Running, Dirty, NO_TIMEOUT, Idle))
    && (forall c: nat :: c < |cores| ==> cores[c] == Core(Executing, c, c, c))
  }

  ghost predicate Initial(s: State) {
    && s.rq == RunQueues([[], [], [], [], []], s.rq.level, 0, 0, [])
    && s.rq.level.Keys == s.threads.Keys && (forall t :: t in s.threads ==> s.rq.level[t] == 0)
    && s.timeouts == [] && s.active == 0 && s.released == []
    && AllIdle(s.threads, s.cores)
  }

  // ---------- the invariant ----------

  /** Which core, if any, a thread belongs to: it is on the core's stack, or the core has picked
      it and not yet run gain. */
  datatype Home = Off | OnCore(core: nat) | InTransit(core: nat)

  function StackThread(k: Core): Tid {
    if k.pc == Switching then k.previous else k.current
  }

  ghost predicate Sorted(s: State)
    requires Wf(s)
  {
    forall i, j :: 0 <= i < j < |s.timeouts| ==>
      s.threads[s.timeouts[i]].wakeupTime <= s.threads[s.timeouts[j]].wakeupTime
  }

  ghost predicate Structural(s: State) {
    Wf(s) && Valid(s.rq) && NoDup(s.timeouts) && Sorted(s)
  }

  /** What holds of one thread, given its home, whether it is queued and whether it is timed. */
  ghost predicate ThreadOk(t: Tid, b: Tcb, home: Home, queued: bool, timed: bool, cores: seq<Core>) {
    && (b.phase == Dirty <==> home.OnCore?)
    && (queued <==> !b.idle && b.state == Ready && home == Off)
    && (timed <==> b.wakeupTime != NO_TIMEOUT)
    && (timed ==> b.state == Stopped)
    && (b.idle ==> b.state == Ready || b.state == Running)
    && (b.idle && home != Off ==> home.core < |cores| && t == cores[home.core].idle)
    && match home
       case Off => b.state == Init || b.state == Ready || b.state == Stopped
       case OnCore(c) => c < |cores| && t == StackThread(cores[c]) && b.state != Init
       case InTransit(c) =>
         && c < |cores| && cores[c].pc == Switching && b.state == Ready
         && t == cores[c].current && t != cores[c].previous
  }

  ghost predicate CoreOk(k: Core, c: nat, threads: map<Tid, Tcb>, h: map<Tid, Home>)
    requires h.Keys == threads.Keys
  {
    && k.current in threads
    && k.idle in threads && threads[k.idle].idle
    && (h[k.idle] == Off || h[k.idle].core == c)
    && StackThread(k) in threads && h[StackThread(k)] == OnCore(c)
    && (k.pc == Executing <==> threads[StackThread(k)].state == Running)
    && (k.pc == Switching ==>
          if k.current == k.previous then threads[k.current].state == Ready
          else h[k.current] == InTransit(c))
  }

  ghost predicate ThreadsOk(threads: map<Tid, Tcb>, h: map<Tid, Home>, queued: set<Tid>, timed: set<Tid>,
                            cores: seq<Core>)
    requires h.Keys == threads.Keys
  {
    forall t {:trigger ThreadOk(t, threads[t], h[t], t in queued, t in timed, cores)} ::
      t in threads ==> ThreadOk(t, threads[t], h[t], t in queued, t in timed, cores)
  }

  ghost predicate CoresOk(cores: seq<Core>, threads: map<Tid, Tcb>, h: map<Tid, Home>)
    requires h.Keys == threads.Keys
  {
    && (forall c: nat {:trigger CoreOk(cores[c], c, threads, h)} :: c < |cores| ==> CoreOk(cores[c], c, threads, h))
    && (forall c, d :: 0 <= c < d < |cores| ==> cores[c].idle != cores[d].idle)
  }

  ghost predicate InvFor(s: State, h: map<Tid, Home>) {
    && Structural(s)
    && h.Keys == s.threads.Keys
    && ThreadsOk(s.threads, h, QueuedSet(s.rq), Elems(s.timeouts), s.cores)
    && CoresOk(s.cores, s.threads, h)
  }

  ghost predicate Inv(s: State) {
    exists h :: InvFor(s, h)
  }

  lemma InvLegal(s: State)
    requires Inv(s)
    ensures Legal(s)
  {
    var h :| InvFor(s, h);
    CoreNames(s.cores, s.threads, h);
    forall c: nat | c < |s.cores| && s.cores[c].pc == Switching
      ensures s.cores[c].previous in s.threads
      ensures s.cores[c].previous in s.timeouts ==> s.threads[s.cores[c].previous].state == Stopped
    {
      LeavingUntimed(s, h, c);
    }
    hide ThreadsOk, CoresOk, QueuedSet, Elems, Valid, NoDup;
  }

  lemma LeavingUntimed(s: State, h: map<Tid, Home>, c: nat)
    requires InvFor(s, h) && c < |s.cores| && s.cores[c].pc == Switching
    ensures var t := s.cores[c].previous;
      t in s.threads && (t in s.timeouts ==> s.threads[t].state == Stopped)
  {
    assert CoreOk(s.cores[c], c, s.threads, h);
    var t := s.cores[c].previous;
    assert ThreadOk(t, s.threads[t], h[t], t in QueuedSet(s.rq), t in Elems(s.timeouts), s.cores);
  }

  lemma CoreNames(cores: seq<Core>, threads: map<Tid, Tcb>, h: map<Tid, Home>)
    requires h.Keys == threads.Keys && CoresOk(cores, threads, h)
    ensures forall c: nat :: c < |cores| ==> cores[c].current in threads && cores[c].idle in threads
  {
    forall c: nat | c < |cores| ensures cores[c].current in threads && cores[c].idle in threads {
      assert CoreOk(cores[c], c, threads, h);
    }
  }

  // ---------- changing one thread ----------

  /** The cores still hold every thread other than `t` the way they did. */
  ghost predicate SameHolds(cores: seq<Core>, cores': seq<Core>, t: Tid) {
    && |cores| == |cores'|
    && forall c: nat :: c < |cores| ==>
      && cores'[c].idle == cores[c].idle
      && (StackThread(cores[c]) != t ==> StackThread(cores'[c]) == StackThread(cores[c]))
      && (cores[c].pc == Switching && cores[c].current != t && cores[c].current != cores[c].previous ==>
            cores'[c].pc == Switching && cores'[c].current == cores[c].current
            && cores'[c].previous == cores[c].previous)
  }

  lemma ThreadsUpdate(threads: map<Tid, Tcb>, h: map<Tid, Home>, queued: set<Tid>, timed: set<Tid>, cores: seq<Core>,
                      t: Tid, b: Tcb, home: Home, queued': set<Tid>, timed': set<Tid>, cores': seq<Core>)
    requires h.Keys == threads.Keys && ThreadsOk(threads, h, queued, timed, cores)
    requires queued' - {t} == queued - {t} && timed' - {t} == timed - {t} && SameHolds(cores, cores', t)
    requires ThreadOk(t, b, home, t in queued', t in timed', cores')
    ensures ThreadsOk(threads[t := b], h[t := home], queued', timed', cores')
  {
    forall x | x in threads && x != t
      ensures ThreadOk(x, threads[x], h[x], x in queued', x in timed', cores')
    {
      assert ThreadOk(x, threads[x], h[x], x in queued, x in timed, cores);
      assert x in queued' <==> x in queued' - {t};
      assert x in timed' <==> x in timed' - {t};
    }
  }

  lemma CoresUpdate(cores: seq<Core>, threads: map<Tid, Tcb>, h: map<Tid, Home>, t: Tid, b: Tcb, home: Home,
                    cores': seq<Core>, c: nat)
    requires h.Keys == threads.Keys && CoresOk(cores, threads, h)
    requires t in threads ==> b.idle == threads[t].idle
    requires t in threads && h[t] != Off ==> h[t].core == c
    requires |cores'| == |cores| && forall d: nat :: d < |cores| && d != c ==> cores'[d] == cores[d]
    requires c < |cores| ==> cores'[c].idle == cores[c].idle && CoreOk(cores'[c], c, threads[t := b], h[t := home])
    requires home == Off || home.core == c || t !in threads
    requires t in threads && b.idle && home != Off ==> c < |cores| && t == cores[c].idle
    ensures CoresOk(cores', threads[t := b], h[t := home])
  {
    forall d: nat | d < |cores'| ensures CoreOk(cores'[d], d, threads[t := b], h[t := home]) {
      if d != c {
        assert CoreOk(cores[d], d, threads, h);
      }
    }
  }

  lemma SortedFrame(s: State, r: State)
    requires Wf(s) && Wf(r) && Sorted(s) && r.timeouts == s.timeouts
    requires forall t :: t in s.timeouts ==> r.threads[t].wakeupTime == s.threads[t].wakeupTime
    ensures Sorted(r)
  {}

  // ---------- each section keeps the invariant ----------

  lemma SpawnKeeps(s: State, h: map<Tid, Home>, t: Tid)
    requires InvFor(s, h) && t !in s.threads
    ensures InvFor(Spawn(s, t), h[t := Off])
  {
    var r := Spawn(s, t);
    var b := r.threads[t];
    RegisterLevel(s.rq, t, 1);
    SortedFrame(s, r);
    ThreadsUpdate(s.threads, h, QueuedSet(s.rq), Elems(s.timeouts), s.cores,
                  t, b, Off, QueuedSet(r.rq), Elems(r.timeouts), r.cores);
    CoresUpdate(s.cores, s.threads, h, t, b, Off, r.cores, |s.cores|);
  }

  lemma ReadyControl(threads: map<Tid, Tcb>, h: map<Tid, Home>, queued: set<Tid>, timed: set<Tid>, cores: seq<Core>,
                     t: Tid)
    requires h.Keys == threads.Keys && ThreadsOk(threads, h, queued, timed, cores) && CoresOk(cores, threads, h)
    requires t in threads && (threads[t].state == Stopped || threads[t].state == Init)
    ensures var threads' := threads[t := threads[t].(state := Ready, wakeupTime := NO_TIMEOUT)];
      && ThreadsOk(threads', h, if threads[t].phase == Clean then queued + {t} else queued, timed - {t}, cores)
      && CoresOk(cores, threads', h)
  {
    var b := threads[t].(state := Ready, wakeupTime := NO_TIMEOUT);
    assert ThreadOk(t, threads[t], h[t], t in queued, t in timed, cores);
    if h[t] != Off { assert CoreOk(cores[h[t].core], h[t].core, threads, h); }
    ThreadsUpdate(threads, h, queued, timed, cores, t, b, h[t],
                  if threads[t].phase == Clean then queued + {t} else queued, timed - {t}, cores);
    CoresUpdate(cores, threads, h, t, b, h[t], cores, if h[t] == Off then |cores| else h[t].core);
    SelfUpdate(h, t);
  }

  lemma MakeReadyKeeps(s: State, h: map<Tid, Home>, t: Tid)
    requires InvFor(s, h) && t in s.threads
    requires s.threads[t].state == Stopped || s.threads[t].state == Init
    ensures InvFor(MakeReady(s, t), h)
  {
    assert ThreadOk(t, s.threads[t], h[t], t in QueuedSet(s.rq), t in Elems(s.timeouts), s.cores);
    if s.threads[t].phase == Clean {
      AddValid(s.rq, t, s.threads[t].cause);
    }
    MakeReadyTimeouts(s, t);
    ReadyControl(s.threads, h, QueuedSet(s.rq), Elems(s.timeouts), s.cores, t);
  }

  lemma MakeReadyTimeouts(s: State, t: Tid)
    requires Wf(s) && NoDup(s.timeouts) && Sorted(s) && t in s.threads
    requires s.threads[t].wakeupTime == NO_TIMEOUT ==> t !in s.timeouts
    ensures NoDup(MakeReady(s, t).timeouts) && Sorted(MakeReady(s, t))
    ensures Elems(MakeReady(s, t).timeouts) == Elems(s.timeouts) - {t}
  {
    var r := MakeReady(s, t);
    if s.threads[t].wakeupTime != NO_TIMEOUT {
      WithoutNoDup(s.timeouts, t);
      SubSorted(s.threads, s.timeouts, t);
    }
    var m := s.(timeouts := r.timeouts);
    SortedFrame(m, r);
  }

  lemma {:induction false} SubSorted(threads: map<Tid, Tcb>, q: seq<Tid>, t: Tid)
    requires forall i :: 0 <= i < |q| ==> q[i] in threads
    requires forall i, j :: 0 <= i < j < |q| ==> threads[q[i]].wakeupTime <= threads[q[j]].wakeupTime
    ensures forall i :: 0 <= i < |Without(q, t)| ==> Without(q, t)[i] in threads
    ensures forall i, j :: 0 <= i < j < |Without(q, t)| ==>
      threads[Without(q, t)[i]].wakeupTime <= threads[Without(q, t)[j]].wakeupTime
  {
    if q != [] {
      SubSorted(threads, q[1..], t);
      var r := Without(q[1..], t);
      forall j | 0 <= j < |r| ensures threads[q[0]].wakeupTime <= threads[r[j]].wakeupTime {
        assert r[j] in q[1..];
      }
    }
  }

  lemma {:induction false} WakeExpiredKeeps(s: State, h: map<Tid, Home>, now: nat)
    requires InvFor(s, h) && now < NO_TIMEOUT
    ensures InvFor(WakeExpired(s, now), h)
    decreases |s.timeouts|
  {
    if s.timeouts != [] && s.threads[s.timeouts[0]].wakeupTime <= now {
      var t := s.timeouts[0];
      assert t in Elems(s.timeouts);
      assert ThreadOk(t, s.threads[t], h[t], t in QueuedSet(s.rq), t in Elems(s.timeouts), s.cores);
      MakeReadyKeeps(s, h, t);
      WakeExpiredKeeps(MakeReady(s, t), h, now);
    }
  }

  /** Parking the current thread of core `c` in a state other than RUNNING. */
  lemma ParkControl(threads: map<Tid, Tcb>, h: map<Tid, Home>, queued: set<Tid>, timed: set<Tid>, cores: seq<Core>,
                    c: nat, b: Tcb)
    requires h.Keys == threads.Keys && ThreadsOk(threads, h, queued, timed, cores) && CoresOk(cores, threads, h)
    requires c < |cores| && cores[c].pc != Switching && cores[c].current in threads
    requires b == threads[cores[c].current].(state := b.state, cause := b.cause)
    requires b.state == threads[cores[c].current].state || b.wakeupTime == NO_TIMEOUT
    requires b.state != Init && b.state != Running && (b.idle ==> b.state == Ready)
    ensures ThreadsOk(threads[cores[c].current := b], h, queued, timed, cores[c := cores[c].(pc := Parked)])
    ensures CoresOk(cores[c := cores[c].(pc := Parked)], threads[cores[c].current := b], h)
  {
    var t, cores' := cores[c].current, cores[c := cores[c].(pc := Parked)];
    assert CoreOk(cores[c], c, threads, h);
    assert ThreadOk(t, threads[t], h[t], t in queued, t in timed, cores);
    ThreadsUpdate(threads, h, queued, timed, cores, t, b, h[t], queued, timed, cores');
    CoresUpdate(cores, threads, h, t, b, h[t], cores', c);
    SelfUpdate(h, t);
  }

  lemma ParkedKeeps(s: State, h: map<Tid, Home>, c: nat, r: State, b: Tcb)
    requires InvFor(s, h) && c < |s.cores| && s.cores[c].pc != Switching && s.cores[c].current in s.threads
    requires r == s.(threads := s.threads[s.cores[c].current := b], cores := s.cores[c := s.cores[c].(pc := Parked)])
    requires b == s.threads[s.cores[c].current].(state := b.state, cause := b.cause)
    requires b.state == s.threads[s.cores[c].current].state || b.wakeupTime == NO_TIMEOUT
    requires b.state != Init && b.state != Running && (b.idle ==> b.state == Ready)
    ensures InvFor(r, h)
  {
    hide QueuedSet, Elems, ThreadOk, CoreOk;
    ParkControl(s.threads, h, QueuedSet(s.rq), Elems(s.timeouts), s.cores, c, b);
    SortedFrame(s, r);
  }

  lemma ParkKeeps(s: State, h: map<Tid, Home>, c: nat, cause: Cause)
    requires InvFor(s, h) && CoresWf(s) && c < |s.cores| && s.cores[c].pc != Switching
    ensures InvFor(Park(s, c, cause), h)
  {
    assert CoreOk(s.cores[c], c, s.threads, h);
    var r, t := Park(s, c, cause), s.cores[c].current;
    assert ThreadOk(t, s.threads[t], h[t], t in QueuedSet(s.rq), t in Elems(s.timeouts), s.cores);
    ParkedKeeps(s, h, c, r, r.threads[t]);
  }

  /** `t`, due at `w`, stands at place `i` of the new list: after every entry that is due no later
      and before every later one, so ties stay in arrival order; the others keep their order. */
  ghost predicate InsertedAt(q: seq<Tid>, r: seq<Tid>, threads: map<Tid, Tcb>, t: Tid, w: nat, i: nat)
    requires forall x :: x in r ==> x in threads
  {
    && i < |r| && r[i] == t && threads[t].wakeupTime == w
    && r[..i] + r[i + 1..] == q
    && (forall j :: 0 <= j < i ==> threads[r[j]].wakeupTime <= w)
    && (forall j :: i < j < |r| ==> w < threads[r[j]].wakeupTime)
  }

  lemma InsertPlaceAt(threads: map<Tid, Tcb>, q: seq<Tid>, t: Tid, w: nat, i: nat)
    requires forall x :: x in q ==> x in threads
    requires forall j, k :: 0 <= j < k < |q| ==> threads[q[j]].wakeupTime <= threads[q[k]].wakeupTime
    requires t in threads && t !in q && i <= |q|
    requires forall j :: 0 <= j < i ==> threads[q[j]].wakeupTime <= w
    requires i < |q| ==> w < threads[q[i]].wakeupTime
    ensures var r, threads' := Insert(q, i, t), threads[t := threads[t].(wakeupTime := w)];
      (forall x :: x in r ==> x in threads') && InsertedAt(q, r, threads', t, w, i)
  {
    InsertRemoves(q, i, t);
    InsertOrdered(threads, q, t, w, i);
  }

  lemma InsertPlace(s: State, t: Tid, timeout: nat, now: nat)
    requires Wf(s) && Sorted(s) && t in s.threads && t !in s.timeouts && timeout != NO_TIMEOUT
    ensures var r := RegisterTimeout(s, t, timeout, now);
      exists i: nat :: InsertedAt(s.timeouts, r.timeouts, r.threads, t, WakeTime(now, timeout), i)
  {
    var r, w := RegisterTimeout(s, t, timeout, now), WakeTime(now, timeout);
    InsertPlaceAt(s.threads, s.timeouts, t, w, InsertPos(s, w, 0));
    assert InsertedAt(s.timeouts, r.timeouts, r.threads, t, w, InsertPos(s, w, 0));
  }

  lemma InsertSorted(s: State, t: Tid, timeout: nat, now: nat)
    requires Wf(s) && NoDup(s.timeouts) && Sorted(s) && t in s.threads && t !in s.timeouts && timeout != NO_TIMEOUT
    ensures NoDup(RegisterTimeout(s, t, timeout, now).timeouts) && Sorted(RegisterTimeout(s, t, timeout, now))
    ensures Elems(RegisterTimeout(s, t, timeout, now).timeouts) == Elems(s.timeouts) + {t}
  {
    var w := WakeTime(now, timeout);
    var i := InsertPos(s, w, 0);
    InsertNoDup(s.timeouts, i, t);
    InsertElems(s.timeouts, i, t);
    InsertOrdered(s.threads, s.timeouts, t, w, i);
  }

  lemma InsertOrdered(threads: map<Tid, Tcb>, q: seq<Tid>, t: Tid, w: nat, i: nat)
    requires forall j :: 0 <= j < |q| ==> q[j] in threads
    requires forall j, k :: 0 <= j < k < |q| ==> threads[q[j]].wakeupTime <= threads[q[k]].wakeupTime
    requires t in threads && t !in q && i <= |q|
    requires forall j :: 0 <= j < i ==> threads[q[j]].wakeupTime <= w
    requires i < |q| ==> w < threads[q[i]].wakeupTime
    ensures var r, threads' := Insert(q, i, t), threads[t := threads[t].(wakeupTime := w)];
      && (forall j :: 0 <= j < |r| ==> r[j] in threads')
      && (forall j, k :: 0 <= j < k < |r| ==> threads'[r[j]].wakeupTime <= threads'[r[k]].wakeupTime)
      && (forall j :: 0 <= j < i ==> threads'[r[j]].wakeupTime <= w)
      && (forall j :: i < j < |r| ==> threads'[r[j]].wakeupTime > w)
  {
    var r, threads' := Insert(q, i, t), threads[t := threads[t].(wakeupTime := w)];
    assert forall j :: 0 <= j < |q| ==> q[j] != t;
    forall j | i < j < |r| ensures threads'[r[j]].wakeupTime > w {
      assert r[j] == q[j - 1];
    }
    forall j, k | 0 <= j < k < |r| ensures threads'[r[j]].wakeupTime <= threads'[r[k]].wakeupTime {
      if k < i {
        assert r[j] == q[j] && r[k] == q[k];
      } else if i < j {
        assert r[j] == q[j - 1] && r[k] == q[k - 1];
      }
    }
  }

  lemma RegisterKeeps(s: State, h: map<Tid, Home>, t: Tid, timeout: nat, now: nat)
    requires InvFor(s, h) && t in s.threads && s.threads[t].state == Stopped && t !in s.timeouts
    requires timeout == NO_TIMEOUT || WakeTime(now, timeout) != NO_TIMEOUT
    ensures InvFor(RegisterTimeout(s, t, timeout, now), h)
  {
    if timeout != NO_TIMEOUT {
      var r := RegisterTimeout(s, t, timeout, now);
      InsertSorted(s, t, timeout, now);
      assert ThreadOk(t, s.threads[t], h[t], t in QueuedSet(s.rq), t in Elems(s.timeouts), s.cores);
      ThreadsUpdate(s.threads, h, QueuedSet(s.rq), Elems(s.timeouts), s.cores,
                    t, r.threads[t], h[t], QueuedSet(r.rq), Elems(r.timeouts), r.cores);
      if h[t] != Off { assert CoreOk(s.cores[h[t].core], h[t].core, s.threads, h); }
      CoresUpdate(s.cores, s.threads, h, t, r.threads[t], h[t], r.cores, if h[t] == Off then |s.cores| else h[t].core);
      SelfUpdate(h, t);
    }
  }

  lemma SleepKeeps(s: State, h: map<Tid, Home>, c: nat, exit: bool, timeout: nat, now: nat)
    requires InvFor(s, h) && CoresWf(s) && Enabled(s, SleepEvent(c, exit, timeout, now))
    ensures InvFor(Sleep(s, c, exit, timeout, now), h)
  {
    assert CoreOk(s.cores[c], c, s.threads, h);
    var m, t := Sleep(s, c, exit, NO_TIMEOUT, 0), s.cores[c].current;
    assert ThreadOk(t, s.threads[t], h[t], t in QueuedSet(s.rq), t in Elems(s.timeouts), s.cores);
    ParkedKeeps(s, h, c, m, m.threads[t]);
    if !exit {
      RegisterKeeps(m, h, t, timeout, now);
    }
  }

  /** Core `c` hands over to `next`: the head of the queues if there is one, else its current
      thread if that is READY, else its idle thread. */
  lemma PickControl(threads: map<Tid, Tcb>, h: map<Tid, Home>, queued: set<Tid>, timed: set<Tid>, cores: seq<Core>,
                    c: nat, next: Tid)
    returns (home: Home)
    requires h.Keys == threads.Keys && ThreadsOk(threads, h, queued, timed, cores) && CoresOk(cores, threads, h)
    requires c < |cores| && cores[c].pc == Parked && cores[c].current in threads && next in threads
    requires next in queued ||
      next == if threads[cores[c].current].state == Ready then cores[c].current else cores[c].idle
    ensures var cores' := cores[c := cores[c].(pc := Switching, previous := cores[c].current, current := next)];
      && ThreadsOk(threads, h[next := home], queued - {next}, timed, cores')
      && CoresOk(cores', threads, h[next := home])
  {
    var k := cores[c];
    var cores' := cores[c := k.(pc := Switching, previous := k.current, current := next)];
    assert CoreOk(k, c, threads, h);
    assert ThreadOk(next, threads[next], h[next], next in queued, next in timed, cores);
    home := if next == k.current then h[next] else InTransit(c);
    ThreadsUpdate(threads, h, queued, timed, cores, next, threads[next], home, queued - {next}, timed, cores');
    CoresUpdate(cores, threads, h, next, threads[next], home, cores', c);
    SelfUpdate(threads, next);
  }

  lemma PickTakes(s: State, c: nat)
    requires Structural(s) && CoresWf(s) && c < |s.cores|
    ensures Structural(PickNext(s, c))
    ensures var next := PickNext(s, c).cores[c].current;
      && QueuedSet(PickNext(s, c).rq) == QueuedSet(s.rq) - {next}
      && (next in QueuedSet(s.rq) ||
          next == if s.threads[s.cores[c].current].state == Ready then s.cores[c].current else s.cores[c].idle)
      && next in s.threads
  {
    PopValid(s.rq);
    SortedFrame(s, PickNext(s, c));
  }

  lemma PickNextKeeps(s: State, h: map<Tid, Home>, c: nat) returns (h': map<Tid, Home>)
    requires InvFor(s, h) && CoresWf(s) && c < |s.cores| && s.cores[c].pc == Parked
    ensures InvFor(PickNext(s, c), h')
  {
    hide QueuedSet, Elems, ThreadOk, CoreOk;
    PickTakes(s, c);
    var r := PickNext(s, c);
    var next := r.cores[c].current;
    var home := PickControl(s.threads, h, QueuedSet(s.rq), Elems(s.timeouts), s.cores, c, next);
    h' := h[next := home];
  }

  // gain on core `c`, when it switches to another thread

  ghost function GainThreads(threads: map<Tid, Tcb>, k: Core): map<Tid, Tcb>
    requires k.current in threads && k.previous in threads && k.current != k.previous
  {
    threads[k.current := threads[k.current].(state := Running, phase := Dirty)]
           [k.previous := threads[k.previous].(phase := Clean)]
  }

  ghost function GainHomes(h: map<Tid, Home>, k: Core, c: nat): map<Tid, Home> {
    h[k.current := OnCore(c)][k.previous := Off]
  }

  /** What an EXITED previous thread leaves behind. */
  ghost function Dead(threads: map<Tid, Tcb>, k: Core): set<Tid>
    requires k.previous in threads
  {
    if threads[k.previous].state == Exited then {k.previous} else {}
  }

  ghost function GainQueued(threads: map<Tid, Tcb>, queued: set<Tid>, k: Core): set<Tid>
    requires k.previous in threads
  {
    if threads[k.previous].state == Ready && !threads[k.previous].idle then queued + {k.previous} else queued
  }

  /** Some core is between yield and gain, and what that says about the two threads involved. */
  ghost predicate Gaining(threads: map<Tid, Tcb>, h: map<Tid, Home>, queued: set<Tid>, timed: set<Tid>,
                          cores: seq<Core>, c: nat)
    requires h.Keys == threads.Keys
  {
    && c < |cores| && cores[c].pc == Switching && cores[c].current != cores[c].previous
    && cores[c].current in threads && cores[c].previous in threads
    && h[cores[c].current] == InTransit(c) && h[cores[c].previous] == OnCore(c)
    && cores[c].previous !in queued && cores[c].current !in queued && cores[c].current !in timed
    && threads[cores[c].current].state == Ready && threads[cores[c].current].phase == Clean
    && threads[cores[c].previous].state in {Ready, Stopped, Exited}
    && (threads[cores[c].previous].state == Exited ==>
          cores[c].previous !in timed && !threads[cores[c].previous].idle)
  }

  lemma GainFacts(threads: map<Tid, Tcb>, h: map<Tid, Home>, queued: set<Tid>, timed: set<Tid>,
                  cores: seq<Core>, c: nat)
    requires h.Keys == threads.Keys && ThreadsOk(threads, h, queued, timed, cores) && CoresOk(cores, threads, h)
    requires c < |cores| && cores[c].pc == Switching && cores[c].current != cores[c].previous
    ensures Gaining(threads, h, queued, timed, cores, c)
  {
    assert CoreOk(cores[c], c, threads, h);
    var t, u := cores[c].current, cores[c].previous;
    assert ThreadOk(t, threads[t], h[t], t in queued, t in timed, cores);
    assert ThreadOk(u, threads[u], h[u], u in queued, u in timed, cores);
  }

  lemma GainThreadsOk(threads: map<Tid, Tcb>, h: map<Tid, Home>, queued: set<Tid>, timed: set<Tid>,
                      cores: seq<Core>, c: nat)
    requires h.Keys == threads.Keys && ThreadsOk(threads, h, queued, timed, cores)
    requires Gaining(threads, h, queued, timed, cores, c)
    ensures ThreadsOk(GainThreads(threads, cores[c]) - Dead(threads, cores[c]),
                      GainHomes(h, cores[c], c) - Dead(threads, cores[c]),
                      GainQueued(threads, queued, cores[c]), timed, cores[c := cores[c].(pc := Executing)])
  {
    var k, dead := cores[c], Dead(threads, cores[c]);
    var threads', h' := GainThreads(threads, k) - dead, GainHomes(h, k, c) - dead;
    var queued', cores' := GainQueued(threads, queued, k), cores[c := k.(pc := Executing)];
    forall t | t in threads' ensures ThreadOk(t, threads'[t], h'[t], t in queued', t in timed, cores') {
      assert ThreadOk(t, threads[t], h[t], t in queued, t in timed, cores);
    }
  }

  lemma GainCoresOk(threads: map<Tid, Tcb>, h: map<Tid, Home>, queued: set<Tid>, timed: set<Tid>,
                    cores: seq<Core>, c: nat)
    requires h.Keys == threads.Keys && ThreadsOk(threads, h, queued, timed, cores) && CoresOk(cores, threads, h)
    requires Gaining(threads, h, queued, timed, cores, c)
    ensures CoresOk(cores[c := cores[c].(pc := Executing)], GainThreads(threads, cores[c]) - Dead(threads, cores[c]),
                    GainHomes(h, cores[c], c) - Dead(threads, cores[c]))
  {
    var k, cores' := cores[c], cores[c := cores[c].(pc := Executing)];
    var threads', h' := GainThreads(threads, k), GainHomes(h, k, c);
    forall d: nat | d < |cores'| ensures CoreOk(cores'[d], d, threads', h') {
      assert CoreOk(cores[d], d, threads, h);
    }
    if threads[k.previous].state == Exited {
      CoresForget(cores', threads', h', k.previous);
    } else {
      assert threads' - {} == threads' && h' - {} == h';
    }
  }

  /** No core refers to a thread without a home that is not an idle thread. */
  lemma CoresForget(cores: seq<Core>, threads: map<Tid, Tcb>, h: map<Tid, Home>, t: Tid)
    requires h.Keys == threads.Keys && CoresOk(cores, threads, h)
    requires t in threads && h[t] == Off && !threads[t].idle
    ensures CoresOk(cores, threads - {t}, h - {t})
  {
    forall d: nat | d < |cores| ensures CoreOk(cores[d], d, threads - {t}, h - {t}) {
      assert CoreOk(cores[d], d, threads, h);
    }
  }

  lemma GainQueues(s: State, c: nat)
    requires Legal(s) && Valid(s.rq) && c < |s.cores| && s.cores[c].pc == Switching
    requires s.cores[c].current != s.cores[c].previous && s.cores[c].previous !in QueuedSet(s.rq)
    ensures Valid(Gain(s, c).rq) && QueuedSet(Gain(s, c).rq) == GainQueued(s.threads, QueuedSet(s.rq), s.cores[c])
  {
    var prev := s.cores[c].previous;
    assert !Queued(s.rq, prev);
    if s.threads[prev].state == Exited {
      ForgetLevel(s.rq, prev);
    } else if s.threads[prev].state == Ready && !s.threads[prev].idle {
      AddValid(s.rq, prev, s.threads[prev].cause);
    }
  }

  lemma GainEffect(s: State, c: nat)
    requires Legal(s) && c < |s.cores| && s.cores[c].pc == Switching && s.cores[c].current != s.cores[c].previous
    ensures Gain(s, c).threads == GainThreads(s.threads, s.cores[c]) - Dead(s.threads, s.cores[c])
    ensures Gain(s, c).cores == s.cores[c := s.cores[c].(pc := Executing)] && Gain(s, c).timeouts == s.timeouts
  {
    var threads := GainThreads(s.threads, s.cores[c]);
    assert threads - {} == threads;
  }

  lemma GainStructural(s: State, c: nat)
    requires Legal(s) && Structural(s) && c < |s.cores| && s.cores[c].pc == Switching
    requires s.cores[c].current != s.cores[c].previous && s.cores[c].previous !in QueuedSet(s.rq)
    ensures Structural(Gain(s, c))
  {
    GainQueues(s, c);
    GainEffect(s, c);
    SortedFrame(s, Gain(s, c));
  }

  /** In particular gain's `assert(0)` is not reached: the previous thread is READY, STOPPED or EXITED. */
  lemma GainKeeps(s: State, h: map<Tid, Home>, c: nat) returns (h': map<Tid, Home>)
    requires InvFor(s, h) && Legal(s) && c < |s.cores| && s.cores[c].pc == Switching
    requires s.cores[c].current != s.cores[c].previous
    ensures s.threads[s.cores[c].previous].state in {Ready, Stopped, Exited}
    ensures InvFor(Gain(s, c), h')
  {
    hide QueuedSet, Elems, ThreadOk, CoreOk;
    GainFacts(s.threads, h, QueuedSet(s.rq), Elems(s.timeouts), s.cores, c);
    GainThreadsOk(s.threads, h, QueuedSet(s.rq), Elems(s.timeouts), s.cores, c);
    GainCoresOk(s.threads, h, QueuedSet(s.rq), Elems(s.timeouts), s.cores, c);
    GainStructural(s, c);
    GainQueues(s, c);
    GainEffect(s, c);
    h' := GainHomes(h, s.cores[c], c) - Dead(s.threads, s.cores[c]);
  }

  lemma GainSelfKeeps(s: State, h: map<Tid, Home>, c: nat)
    requires InvFor(s, h) && Legal(s) && c < |s.cores| && s.cores[c].pc == Switching
    requires s.cores[c].current == s.cores[c].previous
    ensures InvFor(Gain(s, c), h)
  {
    var k, r := s.cores[c], Gain(s, c);
    var t, b := k.current, r.threads[k.current];
    assert CoreOk(k, c, s.threads, h);
    assert ThreadOk(t, s.threads[t], h[t], t in QueuedSet(s.rq), t in Elems(s.timeouts), s.cores);
    ThreadsUpdate(s.threads, h, QueuedSet(s.rq), Elems(s.timeouts), s.cores,
                  t, b, h[t], QueuedSet(r.rq), Elems(r.timeouts), r.cores);
    CoresUpdate(s.cores, s.threads, h, t, b, h[t], r.cores, c);
    SelfUpdate(h, t);
    SortedFrame(s, r);
  }
}
