/** The run queues of kernel_sched.c: a multi-level feedback queue with periodic boost. */
module Mlfq {
  import opened Sequences

  const QUEUES := 5
  const BOOST_THRESHOLD := 500

  type Tid = nat

  /** Why a thread entered the scheduler (kernel_sched.h). */
  datatype Cause = Quantum | Io | MutexContention | PipeSleep | Poll | Idle | User

  /** `queues` is SCHED[], `level` the priority_level of every live thread, `ops` is
      SCHED_OPERATIONS.  `adds` and `picks` are history: how many queue additions and which
      selections have happened so far. */
  datatype RunQueues = RunQueues(
    queues: seq<seq<Tid>>, level: map<Tid, int>, ops: nat,
    adds: nat, picks: seq<Tid>)

  ghost predicate Shape(rq: RunQueues) {
    && |rq.queues| == QUEUES
    && forall t :: t in rq.level ==> 0 <= rq.level[t] < QUEUES
  }

  /** Every queued thread carries the index of its queue, and is in it once. */
  ghost predicate Labelled(rq: RunQueues)
    requires |rq.queues| == QUEUES
  {
    && (forall i, t :: 0 <= i < QUEUES && t in rq.queues[i] ==> t in rq.level && rq.level[t] == i)
    && (forall i :: 0 <= i < QUEUES ==> NoDup(rq.queues[i]))
  }

  ghost predicate Valid(rq: RunQueues) {
    Shape(rq) && Labelled(rq) && rq.ops < BOOST_THRESHOLD
  }

  ghost predicate Queued(rq: RunQueues, t: Tid)
    requires Shape(rq)
  {
    t in rq.level && t in rq.queues[rq.level[t]]
  }

  ghost function QueuedSet(rq: RunQueues): set<Tid>
    requires Shape(rq)
  {
    set t | t in rq.level && Queued(rq, t)
  }

  /** A quantum expiry demotes by one, I/O promotes by one, a contended mutex sends to the bottom. */
  function PlacedLevel(level: int, cause: Cause): (r: int)
    ensures 0 <= level < QUEUES ==> 0 <= r < QUEUES
  {
    if cause == Quantum && level != QUEUES - 1 then level + 1
    else if cause == Io && level != 0 then level - 1
    else if cause == MutexContention && level != QUEUES - 1 then QUEUES - 1
    else level
  }

  function Enqueue(rq: RunQueues, t: Tid, cause: Cause): (r: RunQueues)
    requires Shape(rq) && t in rq.level
    ensures Shape(r) && r.level.Keys == rq.level.Keys
  {
    var i := PlacedLevel(rq.level[t], cause);
    rq.(queues := rq.queues[i := rq.queues[i] + [t]], level := rq.level[t := i],
        ops := rq.ops + 1, adds := rq.adds + 1)
  }

  function BoostedLevel(queues: seq<seq<Tid>>, t: Tid, level: int): (r: int)
    requires |queues| == QUEUES
    ensures 0 <= level < QUEUES ==> 0 <= r < QUEUES
  {
    if t in queues[0] || t in queues[1] then 0
    else if t in queues[2] then 1
    else if t in queues[3] then 2
    else if t in queues[4] then 3
    else level
  }

  /** All queues move up by one; the two highest merge. */
  function Boost(rq: RunQueues): (r: RunQueues)
    requires Shape(rq)
    ensures Shape(r) && r.level.Keys == rq.level.Keys
  {
    var q := rq.queues;
    rq.(queues := [q[0] + q[1], q[2], q[3], q[4], []],
        level := map t | t in rq.level :: BoostedLevel(q, t, rq.level[t]),
        ops := 0)
  }

  /** sched_queue_add */
  function Add(rq: RunQueues, t: Tid, cause: Cause): (r: RunQueues)
    requires Shape(rq) && t in rq.level
    ensures Shape(r) && r.level.Keys == rq.level.Keys
  {
    var e := Enqueue(rq, t, cause);
    if e.ops == BOOST_THRESHOLD then Boost(e) else e
  }

  /** The index the scan of sched_queue_select stops at. */
  function TopQueue(queues: seq<seq<Tid>>, from: nat): (n: nat)
    requires |queues| == QUEUES && from < QUEUES
    ensures from <= n < QUEUES
    ensures forall j :: from <= j < n ==> queues[j] == []
    ensures n == QUEUES - 1 || queues[n] != []
    decreases QUEUES - from
  {
    if from == QUEUES - 1 || queues[from] != [] then from else TopQueue(queues, from + 1)
  }

  /** The pop of sched_queue_select; `None` when the pop finds the sentinel. */
  function Pop(rq: RunQueues): (r: (Option<Tid>, RunQueues))
    requires |rq.queues| == QUEUES
  {
    var n := TopQueue(rq.queues, 0);
    if rq.queues[n] == [] then (None, rq)
    else
      var t := rq.queues[n][0];
      (Some(t), rq.(queues := rq.queues[n := rq.queues[n][1..]], picks := rq.picks + [t]))
  }

  // ---------- what the operations do ----------

  /** A quantum expiry moves a thread one level down, I/O one up, a contended mutex to the bottom, and
      any other cause leaves it; the ends of the range stay where they are. */
  ghost predicate Moves(cause: Cause, level: int, level': int) {
    && (cause == Quantum ==> level' == if level == 4 then 4 else level + 1)
    && (cause == Io ==> level' == if level == 0 then 0 else level - 1)
    && (cause == MutexContention ==> level' == 4)
    && (cause in {PipeSleep, Poll, Idle, User} ==> level' == level)
  }

  /** Without a boost an addition moves the thread by its cause, behind all threads of that level, and
      touches nothing else. */
  lemma AddEffect(rq: RunQueues, t: Tid, cause: Cause)
    requires Shape(rq) && t in rq.level && rq.ops + 1 != 500
    ensures var r := Add(rq, t, cause); var l := r.level[t];
      && Moves(cause, rq.level[t], l) && 0 <= l < 5
      && r.queues == rq.queues[l := rq.queues[l] + [t]]
      && (forall x :: x in rq.level && x != t ==> r.level[x] == rq.level[x])
      && r.ops == rq.ops + 1 && r.adds == rq.adds + 1 && r.picks == rq.picks
  {}

  /** The index of the first queue that holds `t`, or the level it has in none. */
  ghost function LevelIn(queues: seq<seq<Tid>>, t: Tid, level: int): int
    requires |queues| == 5
  {
    if t in queues[0] then 0 else if t in queues[1] then 1 else if t in queues[2] then 2
    else if t in queues[3] then 3 else if t in queues[4] then 4 else level
  }

  /** The 500th addition does the same, and then every level moves one up, the first two in line. */
  lemma AddBoosts(rq: RunQueues, t: Tid, cause: Cause) returns (l: int)
    requires Shape(rq) && t in rq.level && rq.ops + 1 == 500
    ensures Moves(cause, rq.level[t], l) && 0 <= l < 5
    ensures var q, r := rq.queues[l := rq.queues[l] + [t]], Add(rq, t, cause);
      && r.queues == [q[0] + q[1], q[2], q[3], q[4], []]
      && (forall x :: x in rq.level ==>
            r.level[x] == LevelIn(r.queues, x, if x == t then l else rq.level[x]))
      && r.ops == 0 && r.adds == rq.adds + 1 && r.picks == rq.picks
  {
    l := PlacedLevel(rq.level[t], cause);
    var q: seq<seq<Tid>> := rq.queues[l := rq.queues[l] + [t]];
    assert forall x: Tid :: x in q[0] + q[1] <==> x in q[0] || x in q[1];
  }

  /** A selection takes one thread off the front of one queue and touches nothing else. */
  lemma PopEffect(rq: RunQueues) returns (n: nat)
    requires Shape(rq) && Pop(rq).0.Some?
    ensures n < 5 && var (t, r) := Pop(rq);
      && rq.queues[n] == [t.value] + r.queues[n]
      && (forall j :: 0 <= j < 5 && j != n ==> r.queues[j] == rq.queues[j])
      && |r.queues| == 5 && r.level == rq.level && r.ops == rq.ops && r.adds == rq.adds
      && r.picks == rq.picks + [t.value]
  {
    n := TopQueue(rq.queues, 0);
  }

  // ---------- what the operations keep ----------

  /** A queued thread is at exactly one place of exactly one queue. */
  lemma QueuedOnce(rq: RunQueues, t: Tid)
    requires Valid(rq)
    ensures Queued(rq, t) <==> exists i :: 0 <= i < QUEUES && t in rq.queues[i]
    ensures forall i, j, k, l ::
      (0 <= i < QUEUES && 0 <= j < QUEUES && 0 <= k < |rq.queues[i]| && 0 <= l < |rq.queues[j]|
       && rq.queues[i][k] == t && rq.queues[j][l] == t) ==> i == j && k == l
  {
    forall i, k | 0 <= i < QUEUES && 0 <= k < |rq.queues[i]| && rq.queues[i][k] == t
      ensures t in rq.level && rq.level[t] == i
    {
      assert t in rq.queues[i];
    }
  }

  lemma EnqueueValid(rq: RunQueues, t: Tid, cause: Cause)
    requires Valid(rq) && t in rq.level && !Queued(rq, t)
    ensures Labelled(Enqueue(rq, t, cause))
    ensures forall x :: Queued(Enqueue(rq, t, cause), x) <==> Queued(rq, x) || x == t
  {
    var i := PlacedLevel(rq.level[t], cause);
    NoDupSnoc(rq.queues[i], t);
  }

  lemma BoostValid(rq: RunQueues)
    requires Shape(rq) && Labelled(rq)
    ensures Valid(Boost(rq))
    ensures forall x :: Queued(Boost(rq), x) <==> Queued(rq, x)
  {
    var q, b := rq.queues, Boost(rq);
    forall x | x in q[0] ensures x !in q[1] {
      assert rq.level[x] == 0;
    }
    NoDupConcat(q[0], q[1]);
    assert forall i :: 1 <= i < QUEUES - 1 ==> b.queues[i] == q[i + 1];
    forall x | x in rq.level ensures Queued(b, x) <==> Queued(rq, x) {
      assert forall i :: 0 <= i < QUEUES && x in q[i] ==> rq.level[x] == i;
    }
  }

  /** An addition queues exactly the added thread and keeps the labelling. */
  lemma AddValid(rq: RunQueues, t: Tid, cause: Cause)
    requires Valid(rq) && t in rq.level && !Queued(rq, t)
    ensures Valid(Add(rq, t, cause))
    ensures QueuedSet(Add(rq, t, cause)) == QueuedSet(rq) + {t}
  {
    EnqueueValid(rq, t, cause);
    if rq.ops + 1 == BOOST_THRESHOLD {
      BoostValid(Enqueue(rq, t, cause));
    }
  }

  /** Selection takes the head of the lowest-index non-empty queue, and fails only if all are empty. */
  lemma PopTakesTop(rq: RunQueues)
    requires Valid(rq)
    ensures Pop(rq).0 == None <==> forall i :: 0 <= i < QUEUES ==> rq.queues[i] == []
    ensures Pop(rq).0 == None ==> Pop(rq).1 == rq
    ensures Pop(rq).0.Some? ==>
      exists n :: 0 <= n < QUEUES && rq.queues[n] != [] && Pop(rq).0.value == rq.queues[n][0]
                  && forall j :: 0 <= j < n ==> rq.queues[j] == []
  {
    assert TopQueue(rq.queues, 0) < QUEUES;
  }

  lemma PopLabelled(rq: RunQueues)
    requires Valid(rq)
    ensures Valid(Pop(rq).1)
    ensures Pop(rq).0.Some? ==> forall i :: 0 <= i < QUEUES ==> Pop(rq).0.value !in Pop(rq).1.queues[i]
  {
    var n := TopQueue(rq.queues, 0);
    if rq.queues[n] != [] {
      var t, p := rq.queues[n][0], Pop(rq).1;
      assert rq.queues[n] == [t] + p.queues[n] && t in rq.queues[n];
      ConsNoDup(t, p.queues[n]);
      assert rq.level[t] == n;
      forall i | 0 <= i < QUEUES ensures t !in p.queues[i] {
        assert t in rq.queues[i] ==> rq.level[t] == i;
        assert i != n ==> p.queues[i] == rq.queues[i];
      }
    }
  }

  lemma PopTakes(rq: RunQueues)
    requires Valid(rq) && Valid(Pop(rq).1)
    requires Pop(rq).0.Some? ==> forall i :: 0 <= i < QUEUES ==> Pop(rq).0.value !in Pop(rq).1.queues[i]
    ensures Pop(rq).0.Some? ==> Queued(rq, Pop(rq).0.value)
    ensures match Pop(rq).0
      case Some(t) => QueuedSet(Pop(rq).1) == QueuedSet(rq) - {t}
      case None => QueuedSet(Pop(rq).1) == QueuedSet(rq) == {}
  {
    var n := TopQueue(rq.queues, 0);
    if rq.queues[n] != [] {
      var t, p := rq.queues[n][0], Pop(rq).1;
      assert t in rq.queues[n];
      assert forall x :: x in rq.queues[n] <==> x in p.queues[n] || x == t by {
        assert rq.queues[n] == [t] + p.queues[n];
      }
    }
  }

  lemma PopValid(rq: RunQueues)
    requires Valid(rq)
    ensures Valid(Pop(rq).1)
    ensures Pop(rq).0.Some? ==> Queued(rq, Pop(rq).0.value)
    ensures match Pop(rq).0
      case Some(t) => QueuedSet(Pop(rq).1) == QueuedSet(rq) - {t}
      case None => QueuedSet(Pop(rq).1) == QueuedSet(rq) == {}
  {
    PopLabelled(rq);
    PopTakes(rq);
  }

  /** A thread that is not queued comes and goes without disturbing the queues. */
  lemma RegisterLevel(rq: RunQueues, t: Tid, l: int)
    requires Valid(rq) && t !in rq.level && 0 <= l < QUEUES
    ensures Valid(rq.(level := rq.level[t := l]))
    ensures QueuedSet(rq.(level := rq.level[t := l])) == QueuedSet(rq)
  {}

  lemma ForgetLevel(rq: RunQueues, t: Tid)
    requires Valid(rq) && !Queued(rq, t)
    ensures Valid(rq.(level := rq.level - {t}))
    ensures QueuedSet(rq.(level := rq.level - {t})) == QueuedSet(rq)
  {}

  // ---------- no starvation ----------

  /** Queue additions still needed to lift `t` to level 0. */
  ghost function Debt(rq: RunQueues, t: Tid): int
    requires t in rq.level
  {
    BOOST_THRESHOLD * rq.level[t] - rq.ops
  }

  ghost predicate TopAt(rq: RunQueues, t: Tid, k: nat)
    requires |rq.queues| == QUEUES
  {
    k < |rq.queues[0]| && rq.queues[0][k] == t
  }

  /** `t` was selected between `a` and `b`. */
  ghost predicate Picked(a: RunQueues, b: RunQueues, t: Tid)
    requires a.picks <= b.picks
  {
    t in b.picks[|a.picks|..]
  }

  /** `t` stayed queued from `a` to `b`: each addition paid off one unit of debt until level 0,
      and at level 0 each selection moved it one place forward. */
  ghost predicate StillWaiting(a: RunQueues, b: RunQueues, t: Tid)
    requires Shape(a) && Shape(b)
  {
    && Queued(b, t) && t in a.level && t in b.level
    && (a.level[t] == 0 ==> b.level[t] == 0)
    && (b.level[t] > 0 ==> Debt(b, t) + b.adds == Debt(a, t) + a.adds)
    && (forall k: nat :: TopAt(a, t, k) ==>
          |b.picks| - |a.picks| <= k && TopAt(b, t, k - (|b.picks| - |a.picks|)))
  }

  /** What waiting in the queues buys `t` between `a` and `b`, whatever happens to other threads. */
  ghost predicate Advances(a: RunQueues, b: RunQueues, t: Tid) {
    && Valid(a) && Valid(b) && Queued(a, t) && a.picks <= b.picks && a.adds <= b.adds
    && (Picked(a, b, t) || StillWaiting(a, b, t))
  }

  lemma AdvancesTransitive(a: RunQueues, b: RunQueues, c: RunQueues, t: Tid)
    requires Advances(a, b, t)
    requires b.picks <= c.picks && b.adds <= c.adds && Valid(c)
    requires Queued(b, t) ==> Advances(b, c, t)
    ensures Advances(a, c, t)
  {
    assert c.picks[|a.picks|..] == b.picks[|a.picks|..] + c.picks[|b.picks|..];
    if Picked(a, b, t) || Picked(b, c, t) {
      assert Picked(a, c, t);
    }
  }

  lemma EnqueueKeepsPlace(rq: RunQueues, t: Tid, cause: Cause, x: Tid)
    requires Valid(rq) && t in rq.level && !Queued(rq, t) && Queued(rq, x)
    ensures x in rq.level && x in Enqueue(rq, t, cause).queues[rq.level[x]]
    ensures Enqueue(rq, t, cause).level[x] == rq.level[x]
    ensures forall k: nat :: TopAt(rq, x, k) ==> TopAt(Enqueue(rq, t, cause), x, k)
  {}

  lemma BoostLifts(rq: RunQueues, x: Tid)
    requires Shape(rq) && Labelled(rq) && x in rq.level && x in rq.queues[rq.level[x]]
    ensures Boost(rq).level[x] == if rq.level[x] == 0 then 0 else rq.level[x] - 1
    ensures forall k: nat :: TopAt(rq, x, k) ==> TopAt(Boost(rq), x, k)
  {
    assert forall i :: 0 <= i < QUEUES && i != rq.level[x] ==> x !in rq.queues[i];
  }

  /** A plain addition leaves `x` its place and takes one unit off its debt. */
  lemma EnqueueAdvances(rq: RunQueues, t: Tid, cause: Cause, x: Tid)
    requires Valid(rq) && t in rq.level && !Queued(rq, t) && Queued(rq, x) && rq.ops + 1 != BOOST_THRESHOLD
    ensures Advances(rq, Add(rq, t, cause), x)
  {
    AddValid(rq, t, cause);
    EnqueueKeepsPlace(rq, t, cause, x);
    hide Labelled;
  }

  /** An addition that boosts lifts `x` by one level, which is what the unit was for. */
  lemma BoostAdvances(rq: RunQueues, t: Tid, cause: Cause, x: Tid)
    requires Valid(rq) && t in rq.level && !Queued(rq, t) && Queued(rq, x) && rq.ops + 1 == BOOST_THRESHOLD
    ensures Advances(rq, Add(rq, t, cause), x)
  {
    hide NoDup;
    AddValid(rq, t, cause);
    EnqueueKeepsPlace(rq, t, cause, x);
    EnqueueValid(rq, t, cause);
    hide Labelled;
    BoostValid(Enqueue(rq, t, cause));
    BoostLifts(Enqueue(rq, t, cause), x);
    assert Queued(Add(rq, t, cause), x);
    hide Queued, Boost, Enqueue, QueuedSet, Valid;
  }

  lemma AddAdvances(rq: RunQueues, t: Tid, cause: Cause, x: Tid)
    requires Valid(rq) && t in rq.level && !Queued(rq, t) && Queued(rq, x)
    ensures Advances(rq, Add(rq, t, cause), x)
  {
    hide Advances, Valid, Queued;
    if rq.ops + 1 == BOOST_THRESHOLD {
      BoostAdvances(rq, t, cause, x);
    } else {
      EnqueueAdvances(rq, t, cause, x);
    }
  }

  lemma PopAdvances(rq: RunQueues, x: Tid)
    requires Valid(rq) && Queued(rq, x)
    ensures Advances(rq, Pop(rq).1, x)
  {
    PopValid(rq);
    var p := Pop(rq).1;
    assert TopQueue(rq.queues, 0) <= rq.level[x];
    if !Picked(rq, p, x) {
      assert p.picks[|rq.picks|..] == [Pop(rq).0.value];
    }
  }

  /** The starvation bound: after L*500-c additions `t` has been selected or is at level 0, and
      from position k of level 0 it is selected within k+1 selections. */
  lemma AdvancesBounds(a: RunQueues, b: RunQueues, t: Tid, k: nat)
    requires Advances(a, b, t)
    ensures t in a.level
    ensures b.adds - a.adds >= BOOST_THRESHOLD * a.level[t] - a.ops ==>
      Picked(a, b, t) || (Queued(b, t) && b.level[t] == 0)
    ensures TopAt(a, t, k) && |b.picks| - |a.picks| >= k + 1 ==> Picked(a, b, t)
  {}
}
