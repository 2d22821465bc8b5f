/** kernel_sched.c as code: each procedure that runs under `sched_spinlock` is a method on the
    scheduler's global variables, proved to compute the corresponding step of the state machine. */
module SchedulerCode {
  import opened Sequences
  import Q = Mlfq
  import S = Scheduler
  import Safety = SchedulerSafety
  import Runs = SchedulerRuns
  import Effects = SchedulerEffects

  type Tid = Q.Tid

  class Kernel {
    var threads: map<Tid, S.Tcb>
    var priority: map<Tid, int>          // tcb->priority_level
    const sched: array<seq<Tid>>         // SCHED[QUEUES]
    var timeoutList: seq<Tid>            // TIMEOUT_LIST
    var schedOperations: nat             // SCHED_OPERATIONS
    var cores: seq<S.Core>               // cctx[]
    var activeThreads: int
    ghost var adds: nat
    ghost var picks: seq<Tid>
    ghost var released: seq<Tid>

    ghost function Queues(): Q.RunQueues
      reads this, sched
    {
      Q.RunQueues(sched[..], priority, schedOperations, adds, picks)
    }

    ghost function View(): S.State
      reads this, sched
    {
      S.State(threads, Queues(), timeoutList, cores, activeThreads, released)
    }

    /** initialize_scheduler, with `n` cores that run their idle threads. */
    constructor (n: nat)
      ensures Safety.Initial(View()) && Safety.Inv(View()) && |cores| == n
    {
      var names := seq(n, i requires 0 <= i => i as Tid);
      threads := map t | t in names :: S.Tcb(true, S.Running, S.Dirty, S.NO_TIMEOUT, Q.Idle);
      priority := map t | t in names :: 0;
      sched := new seq<Tid>[Q.QUEUES](_ => []);
      timeoutList, schedOperations, activeThreads := [], 0, 0;
      cores := seq(n, c requires 0 <= c => S.Core(S.Executing, c, c, c));
      adds, picks, released := 0, [], [];
      new;
      assert sched[..] == [[], [], [], [], []];
      forall t: Tid ensures t in threads <==> t < n {
        if t < n { assert names[t] == t; }
      }
      Runs.InitialInv(View());
    }

    /** The inner loop of the boost: every thread of queue `i` gets level `i`. */
    method Relabel(i: nat)
      requires i < sched.Length && forall t :: t in sched[i] ==> t in priority
      modifies this`priority
      ensures priority == RelabelledBy(old(priority), sched[i], i)
    {
      var p := 0;
      while p < |sched[i]|
        invariant 0 <= p <= |sched[i]|
        invariant priority == RelabelledBy(old(priority), sched[i][..p], i)
      {
        assert sched[i][p] in sched[i];
        assert sched[i][..p + 1] == sched[i][..p] + [sched[i][p]];
        priority := priority[sched[i][p] := i];
        p := p + 1;
      }
      assert sched[i][..p] == sched[i];
    }

    /** rlist_append of queue `i + 1` to queue `i` */
    method Append(i: nat)
      requires i + 1 < sched.Length
      modifies sched
      ensures sched[i] == old(sched[i] + sched[i + 1]) && sched[i + 1] == []
      ensures forall j :: 0 <= j < sched.Length && j != i && j != i + 1 ==> sched[j] == old(sched[j])
    {
      sched[i] := sched[i] + sched[i + 1];
      sched[i + 1] := [];
    }

    /** The append-and-relabel loop of sched_queue_add. */
    method MergeQueues()
      requires sched.Length == Q.QUEUES
      requires forall i, t :: 0 <= i < Q.QUEUES && t in sched[i] ==> t in priority
      modifies this`priority, sched
      ensures sched[..] == Merged(old(sched[..]))
      ensures priority == RelabelledTo(old(priority), Merged(old(sched[..])), Q.QUEUES - 1)
    {
      ghost var q := sched[..];
      ghost var b := Merged(q);
      var i := 0;
      while i < Q.QUEUES - 1
        invariant 0 <= i <= Q.QUEUES - 1
        invariant forall j :: 0 <= j < i ==> sched[j] == b[j]
        invariant sched[i] == if i == 0 then q[0] else []
        invariant forall j :: i < j < Q.QUEUES ==> sched[j] == q[j]
        invariant priority == RelabelledTo(old(priority), b, i)
      {
        Append(i);
        assert sched[i] == b[i];
        RelabelledKeys(old(priority), b, i);
        assert forall t :: t in b[i] ==> t in q[i] || t in q[i + 1];
        Relabel(i);
        i := i + 1;
      }
    }

    method Boost()
      requires Q.Shape(Queues()) && Q.Labelled(Queues())
      modifies this`priority, this`schedOperations, sched
      ensures Queues() == Q.Boost(old(Queues()))
      ensures var q := old(sched[..]); sched[..] == [q[0] + q[1], q[2], q[3], q[4], []]
    {
      BoostByRelabelling(Queues());
      MergeQueues();
      schedOperations := 0;
    }

    /** The placement rule of sched_queue_add, by the cause of the thread's last yield. */
    method PushByCause(t: Tid)
      requires Q.Shape(Queues()) && t in threads && t in priority
      modifies this`priority, this`schedOperations, this`adds, sched
      ensures Queues() == Q.Enqueue(old(Queues()), t, threads[t].cause)
    {
      schedOperations := schedOperations + 1;
      adds := adds + 1;
      var queue := priority[t];
      var cause := threads[t].cause;
      if cause == Q.Quantum && queue != Q.QUEUES - 1 {
        sched[queue + 1] := sched[queue + 1] + [t];
        priority := priority[t := queue + 1];
      } else if cause == Q.Io && queue != 0 {
        sched[queue - 1] := sched[queue - 1] + [t];
        priority := priority[t := queue - 1];
      } else if cause == Q.MutexContention && queue != Q.QUEUES - 1 {
        sched[Q.QUEUES - 1] := sched[Q.QUEUES - 1] + [t];
        priority := priority[t := Q.QUEUES - 1];
      } else {
        sched[queue] := sched[queue] + [t];
        SelfUpdate(priority, t);
      }
    }

    method QueueAdd(t: Tid)
      requires Q.Valid(Queues()) && t in threads && t in priority && !Q.Queued(Queues(), t)
      modifies this`priority, this`schedOperations, this`adds, sched
      ensures Queues() == Q.Add(old(Queues()), t, threads[t].cause)
      ensures old(schedOperations) + 1 != 500 ==>
        var l := priority[t];
        && Q.Moves(threads[t].cause, old(priority[t]), l) && 0 <= l < 5
        && sched[..] == old(sched[..])[l := old(sched[..])[l] + [t]]
        && (forall x :: x in old(priority) && x != t ==> x in priority && priority[x] == old(priority[x]))
        && schedOperations == old(schedOperations) + 1
    {
      if schedOperations + 1 != 500 { Q.AddEffect(Queues(), t, threads[t].cause); }
      Q.EnqueueValid(Queues(), t, threads[t].cause);
      PushByCause(t);
      if schedOperations == Q.BOOST_THRESHOLD {
        Boost();
      }
    }

    /** spawn_thread */
    method SpawnThread(t: Tid)
      requires S.Wf(View()) && t !in threads
      modifies this`threads, this`priority, this`activeThreads
      ensures View() == S.Spawn(old(View()), t)
    {
      threads := threads[t := S.Tcb(false, S.Init, S.Clean, S.NO_TIMEOUT, Q.Idle)];
      priority := priority[t := 1];
      activeThreads := activeThreads + 1;
    }

    /** sched_make_ready; its two asserts hold in every reachable state. */
    method MakeReady(t: Tid, ghost h: map<Tid, Safety.Home>)
      requires Safety.InvFor(View(), h) && t in threads
      requires threads[t].state == S.Stopped || threads[t].state == S.Init
      modifies this, sched
      ensures View() == S.MakeReady(old(View()), t)
    {
      hide Safety.InvFor, Q.Moves;
      ReadyFacts(View(), h, t);
      if threads[t].wakeupTime != S.NO_TIMEOUT {
        assert t in timeoutList && threads[t].state == S.Stopped;
        timeoutList := Without(timeoutList, t);
      }
      if threads[t].phase == S.Clean {
        QueueAdd(t);
      }
      threads := threads[t := threads[t].(state := S.Ready, wakeupTime := S.NO_TIMEOUT)];
    }

    /** sched_wakeup_expired_timeouts */
    method WakeupExpiredTimeouts(now: nat, ghost h: map<Tid, Safety.Home>)
      requires Safety.InvFor(View(), h) && now < S.NO_TIMEOUT
      modifies this, sched
      ensures View() == S.WakeExpired(old(View()), now)
      ensures Safety.InvFor(View(), h)
    {
      while timeoutList != []
        invariant Safety.InvFor(View(), h)
        invariant S.WakeExpired(View(), now) == S.WakeExpired(old(View()), now)
        decreases |timeoutList|
      {
        var t := timeoutList[0];
        if threads[t].wakeupTime > now {
          break;
        }
        Runs.TimedMeans(View(), h, t);
        Safety.MakeReadyKeeps(View(), h, t);
        MakeReady(t, h);
      }
    }

    /** sched_register_timeout */
    method RegisterTimeout(t: Tid, timeout: nat, now: nat)
      requires S.Wf(View()) && t in threads && t !in timeoutList
      modifies this`threads, this`timeoutList
      ensures View() == S.RegisterTimeout(old(View()), t, timeout, now)
    {
      if timeout != S.NO_TIMEOUT {
        var w := (now + timeout) % S.TIMER_RANGE;
        var n := 0;
        while n < |timeoutList| && threads[timeoutList[n]].wakeupTime <= w
          invariant 0 <= n <= |timeoutList|
          invariant S.InsertPos(View(), w, n) == S.InsertPos(View(), w, 0)
        {
          n := n + 1;
        }
        threads := threads[t := threads[t].(wakeupTime := w)];
        timeoutList := timeoutList[..n] + [t] + timeoutList[n..];
      }
    }

    /** wakeup */
    method Wakeup(t: Tid) returns (woken: bool)
      requires Safety.Inv(View()) && t in threads
      modifies this, sched
      ensures S.Wf(old(View())) && View() == S.Wakeup(old(View()), t)
      ensures Safety.Inv(View()) && t in threads && Q.Shape(Queues())
      ensures woken <==> old(threads[t].state == S.Stopped || threads[t].state == S.Init)
      ensures woken ==>
        && threads[t] == old(threads[t]).(state := S.Ready, wakeupTime := S.NO_TIMEOUT) && t !in timeoutList
        && (Q.Queued(Queues(), t) <==> threads[t].phase == S.Clean)
      ensures forall x :: x in old(threads) && x != t ==> x in threads && threads[x] == old(threads[x])
      ensures !woken ==> View() == old(View())
    {
      ghost var h :| Safety.InvFor(View(), h);
      Effects.WakeupEffect(View(), t);
      hide Safety.InvFor;
      woken := false;
      if threads[t].state == S.Stopped || threads[t].state == S.Init {
        Safety.MakeReadyKeeps(View(), h, t);
        MakeReady(t, h);
        woken := true;
      }
      ShapeOfInv(View());
    }

    /** The locked section of sleep_releasing on core `c`. */
    method SleepReleasing(c: nat, exit: bool, timeout: nat, now: nat)
      requires Safety.Inv(View()) && Safety.Legal(View()) && c < |cores| && cores[c].pc == S.Executing
      modifies this`threads, this`timeoutList, this`cores
      ensures View() == S.Sleep(old(View()), c, exit, timeout, now)
      ensures var t := old(cores[c].current);
        && t in threads && threads[t].state == (if exit then S.Exited else S.Stopped)
        && (t in timeoutList <==> !exit && timeout != S.NO_TIMEOUT)
        && threads[t].wakeupTime ==
             (if exit || timeout == S.NO_TIMEOUT then S.NO_TIMEOUT else (now + timeout) % S.TIMER_RANGE)
    {
      Effects.SleepEffect(View(), c, exit, timeout, now);
      hide Safety.Inv;
      RunningUntimed(View(), c);
      var t := cores[c].current;
      threads := threads[t := threads[t].(state := if exit then S.Exited else S.Stopped)];
      cores := cores[c := cores[c].(pc := S.Parked)];
      if !exit {
        RegisterTimeout(t, timeout, now);
      }
    }

    /** sched_queue_select for core `c` */
    method QueueSelect(current: Tid, idle: Tid) returns (next: Tid)
      requires Q.Shape(Queues()) && current in threads
      modifies this`picks, sched
      ensures Queues() == Q.Pop(old(Queues())).1
      ensures next == match Q.Pop(old(Queues())).0
        case Some(t) => t
        case None => if threads[current].state == S.Ready then current else idle
    {
      var n := 0;
      while n < Q.QUEUES - 1 && sched[n] == []
        invariant 0 <= n < Q.QUEUES
        invariant Q.TopQueue(sched[..], n) == Q.TopQueue(sched[..], 0)
      {
        n := n + 1;
      }
      if sched[n] == [] {
        next := if threads[current].state == S.Ready then current else idle;
      } else {
        next := sched[n][0];
        sched[n] := sched[n][1..];
        picks := picks + [next];
      }
    }

    method ParkCurrent(c: nat, cause: Q.Cause)
      requires S.Wf(View()) && S.CoresWf(View()) && c < |cores|
      modifies this`threads, this`cores
      ensures View() == S.Park(old(View()), c, cause)
    {
      var current := cores[c].current;
      var b := threads[current];
      if b.state == S.Running {
        b := b.(state := S.Ready);
      }
      threads := threads[current := b.(cause := cause)];
      cores := cores[c := cores[c].(pc := S.Parked)];
    }

    method HandOver(c: nat)
      requires S.Wf(View()) && S.CoresWf(View()) && c < |cores|
      modifies this`picks, this`cores, sched
      ensures View() == S.PickNext(old(View()), c)
    {
      var current := cores[c].current;
      var next := QueueSelect(current, cores[c].idle);
      cores := cores[c := cores[c].(pc := S.Switching, previous := current, current := next)];
    }

    /** The locked section of yield on core `c`, and the hand-over that follows it. */
    method Yield(c: nat, cause: Q.Cause, now: nat)
      requires Safety.Inv(View()) && Safety.Legal(View())
      requires c < |cores| && cores[c].pc != S.Switching && now < S.NO_TIMEOUT
      modifies this, sched
      ensures View() == S.Yield(old(View()), c, cause, now)
      ensures forall x :: x in timeoutList ==> x in old(threads) && old(threads)[x].wakeupTime > now
      ensures threads.Keys == old(threads).Keys
      ensures forall x :: x in old(threads) && x in old(timeoutList) && old(threads)[x].wakeupTime <= now ==>
        threads[x].state == S.Ready && threads[x].wakeupTime == S.NO_TIMEOUT
    {
      ghost var h :| Safety.InvFor(View(), h);
      hide Safety.InvFor, Safety.Inv, Safety.Legal;
      YieldFacts(View(), h, c, cause, now);
      Safety.ParkKeeps(View(), h, c, cause);
      ParkCurrent(c, cause);
      WakeupExpiredTimeouts(now, h);
      HandOver(c);
    }

    method Dispose(prev: Tid)
      requires S.Wf(View()) && Q.Valid(Queues()) && !Q.Queued(Queues(), prev) && prev in threads
      requires threads[prev].state in {S.Ready, S.Stopped, S.Exited}
      requires prev in timeoutList ==> threads[prev].state == S.Stopped
      modifies this, sched
      ensures View() == Disposed(old(View()), prev)
    {
      match threads[prev].state {
        case Ready =>
          if !threads[prev].idle {
            QueueAdd(prev);
          }
        case Exited =>
          threads := threads - {prev};
          priority := priority - {prev};
          activeThreads := activeThreads - 1;
          released := released + [prev];
        case Stopped =>
        case _ =>
          assert false;
      }
    }

    /** gain on core `c` */
    method Gain(c: nat)
      requires Safety.Inv(View()) && Safety.Legal(View())
      requires c < |cores| && cores[c].pc == S.Switching
      modifies this, sched
      ensures View() == S.Gain(old(View()), c)
    {
      hide Safety.Inv;
      GainReady(View(), c);
      var current, prev := cores[c].current, cores[c].previous;
      cores := cores[c := cores[c].(pc := S.Executing)];
      threads := threads[current := threads[current].(state := S.Running, phase := S.Dirty)];
      if current != prev {
        threads := threads[prev := threads[prev].(phase := S.Clean)];
        Dispose(prev);
      }
    }
  }

  /** What gain does with the previous thread once its context is saved. */
  ghost function Disposed(s: S.State, prev: Tid): S.State
    requires S.Wf(s) && prev in s.threads
    requires prev in s.timeouts ==> s.threads[prev].state == S.Stopped
  {
    match s.threads[prev].state
    case Ready => if s.threads[prev].idle then s else s.(rq := Q.Add(s.rq, prev, s.threads[prev].cause))
    case Exited => S.Release(s, prev)
    case _ => s
  }

  lemma GainReady(s: S.State, c: nat)
    requires Safety.Inv(s) && Safety.Legal(s) && c < |s.cores| && s.cores[c].pc == S.Switching
    ensures Q.Valid(s.rq)
    ensures s.cores[c].current != s.cores[c].previous ==>
      && !Q.Queued(s.rq, s.cores[c].previous)
      && s.threads[s.cores[c].previous].state in {S.Ready, S.Stopped, S.Exited}
      && S.Gain(s, c) == Disposed(S.Switch(s, c), s.cores[c].previous)
  {
    var h :| Safety.InvFor(s, h);
    if s.cores[c].current != s.cores[c].previous {
      PreviousDisposable(s, h, c);
      hide Safety.InvFor, Q.QueuedSet, Elems;
      GainDisposes(s, c);
    }
  }

  lemma GainDisposes(s: S.State, c: nat)
    requires Safety.Legal(s) && c < |s.cores| && s.cores[c].pc == S.Switching
    requires s.cores[c].current != s.cores[c].previous
    ensures S.Gain(s, c) == Disposed(S.Switch(s, c), s.cores[c].previous)
  {}

  lemma RunningUntimed(s: S.State, c: nat)
    requires Safety.Inv(s) && c < |s.cores| && s.cores[c].pc == S.Executing
    ensures s.cores[c].current in s.threads && s.cores[c].current !in s.timeouts
  {
    var h :| Safety.InvFor(s, h);
    assert Safety.CoreOk(s.cores[c], c, s.threads, h);
    Runs.TimedMeans(s, h, s.cores[c].current);
  }

  lemma PreviousDisposable(s: S.State, h: map<Tid, Safety.Home>, c: nat)
    requires Safety.InvFor(s, h) && c < |s.cores| && s.cores[c].pc == S.Switching
    requires s.cores[c].current != s.cores[c].previous
    ensures s.cores[c].previous in s.threads && !Q.Queued(s.rq, s.cores[c].previous)
    ensures s.threads[s.cores[c].previous].state in {S.Ready, S.Stopped, S.Exited}
  {
    Safety.GainFacts(s.threads, h, Q.QueuedSet(s.rq), Elems(s.timeouts), s.cores, c);
    assert s.cores[c].previous !in Q.QueuedSet(s.rq);
  }

  /** What sched_make_ready relies on: the asserts of the source, and that its thread is not queued. */
  lemma ReadyFacts(s: S.State, h: map<Tid, Safety.Home>, t: Tid)
    requires Safety.InvFor(s, h) && t in s.threads
    ensures Q.Valid(s.rq) && S.Wf(s)
    ensures s.threads[t].wakeupTime != S.NO_TIMEOUT ==> t in s.timeouts && s.threads[t].state == S.Stopped
    ensures s.threads[t].state != S.Ready ==> !Q.Queued(s.rq, t)
  {
    Runs.TimedMeans(s, h, t);
    if s.threads[t].state != S.Ready { ReadyUnqueued(s, h, t); }
  }

  lemma YieldFacts(s: S.State, h: map<Tid, Safety.Home>, c: nat, cause: Q.Cause, now: nat)
    requires Safety.InvFor(s, h) && Safety.Legal(s)
    requires c < |s.cores| && s.cores[c].pc != S.Switching && now < S.NO_TIMEOUT
    ensures S.Wf(s) && S.CoresWf(s)
    ensures var r := S.Yield(s, c, cause, now);
      && r.threads.Keys == s.threads.Keys
      && (forall x :: x in r.timeouts ==> x in s.threads && s.threads[x].wakeupTime > now)
      && (forall x :: x in s.threads && x in s.timeouts && s.threads[x].wakeupTime <= now ==>
            r.threads[x].state == S.Ready && r.threads[x].wakeupTime == S.NO_TIMEOUT)
  {
    Effects.YieldThreads(s, h, c, cause, now);
    Effects.YieldTimeouts(s, h, c, cause, now);
    hide Safety.InvFor, S.Yield;
  }

  lemma ShapeOfInv(s: S.State)
    requires Safety.Inv(s)
    ensures Q.Shape(s.rq)
  {
    var h :| Safety.InvFor(s, h);
  }

  lemma ReadyUnqueued(s: S.State, h: map<Tid, Safety.Home>, t: Tid)
    requires Safety.InvFor(s, h) && t in s.threads && s.threads[t].state != S.Ready
    ensures !Q.Queued(s.rq, t)
  {
    assert Safety.ThreadOk(t, s.threads[t], h[t], t in Q.QueuedSet(s.rq), t in Elems(s.timeouts), s.cores);
  }

  function Merged(q: seq<seq<Tid>>): (r: seq<seq<Tid>>)
    requires |q| == Q.QUEUES
    ensures |r| == Q.QUEUES
  {
    [q[0] + q[1], q[2], q[3], q[4], []]
  }

  /** Every thread of `queue` gets level `i`. */
  function RelabelledBy(level: map<Tid, int>, queue: seq<Tid>, i: int): map<Tid, int> {
    map t | t in level :: if t in queue then i else level[t]
  }

  /** The levels once the first `i` merged queues have been relabelled. */
  ghost function RelabelledTo(level: map<Tid, int>, merged: seq<seq<Tid>>, i: nat): map<Tid, int>
    requires i <= |merged|
  {
    if i == 0 then level else RelabelledBy(RelabelledTo(level, merged, i - 1), merged[i - 1], i - 1)
  }

  lemma RelabelledKeys(level: map<Tid, int>, merged: seq<seq<Tid>>, i: nat)
    requires i <= |merged|
    ensures RelabelledTo(level, merged, i).Keys == level.Keys
  {}

  /** The last queue to hold a thread decides its level. */
  ghost function LastLevel(b: seq<seq<Tid>>, t: Tid, level: int): int
    requires |b| >= 4
  {
    if t in b[3] then 3 else if t in b[2] then 2 else if t in b[1] then 1 else if t in b[0] then 0 else level
  }

  lemma RelabelledLast(level: map<Tid, int>, b: seq<seq<Tid>>, t: Tid)
    requires |b| >= 4 && t in level
    ensures t in RelabelledTo(level, b, 4) && RelabelledTo(level, b, 4)[t] == LastLevel(b, t, level[t])
  {
    var l1 := RelabelledBy(level, b[0], 0);
    var l2 := RelabelledBy(l1, b[1], 1);
    var l3 := RelabelledBy(l2, b[2], 2);
    assert RelabelledTo(level, b, 0) == level && RelabelledTo(level, b, 1) == l1;
    assert RelabelledTo(level, b, 2) == l2 && RelabelledTo(level, b, 3) == l3;
  }

  lemma BoostedAt(rq: Q.RunQueues, t: Tid)
    requires Q.Shape(rq) && Q.Labelled(rq) && t in rq.level
    ensures LastLevel(Q.Boost(rq).queues, t, rq.level[t]) == Q.BoostedLevel(rq.queues, t, rq.level[t])
  {
    assert forall i :: 0 <= i < Q.QUEUES && t in rq.queues[i] ==> rq.level[t] == i;
  }

  /** Relabelling the merged queues one by one labels every thread as the boost says. */
  lemma BoostByRelabelling(rq: Q.RunQueues)
    requires Q.Shape(rq) && Q.Labelled(rq)
    ensures RelabelledTo(rq.level, Q.Boost(rq).queues, 4) == Q.Boost(rq).level
  {
    var b := Q.Boost(rq).queues;
    RelabelledKeys(rq.level, b, 4);
    forall t | t in rq.level ensures RelabelledTo(rq.level, b, 4)[t] == Q.BoostedLevel(rq.queues, t, rq.level[t]) {
      RelabelledLast(rq.level, b, t);
      BoostedAt(rq, t);
    }
  }
}
