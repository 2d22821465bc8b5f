/** Condition variables of kernel_cc.c.  Each step is one section under `waitset_lock`: enqueueing
    and going to sleep, a signal or broadcast, and the tidy-up after waking.  Sleepers may also be
    woken by their timeout, or by anything else, at any time. */
module CondVars {
  import opened Sequences

  type Tid = nat

  /** A `__cv_waiter` on the stack of a waiting thread.  `asleep` is whether the thread is STOPPED;
      `ticket` is history: the waits are numbered in arrival order. */
  datatype Waiter = Waiter(asleep: bool, signalled: bool, removed: bool, ticket: nat)

  /** `ring` is the waitset from its head.  `tickets`, `chosen` and `returned` are history: the next
      ticket, the waits chosen by signals, and the waits that returned, with their return value. */
  datatype Cv = Cv(
    ring: seq<Tid>, waiters: map<Tid, Waiter>,
    tickets: nat, chosen: seq<nat>, returned: seq<(nat, bool)>)

  const COND_INIT := Cv([], map[], 0, [], [])

  ghost predicate Wf(cv: Cv) {
    forall t :: t in cv.ring ==> t in cv.waiters
  }

  /** The first half of cv_wait. */
  function Enqueue(cv: Cv, t: Tid): (r: Cv)
    requires Wf(cv)
    ensures Wf(r)
  {
    cv.(ring := cv.ring + [t], waiters := cv.waiters[t := Waiter(true, false, false, cv.tickets)],
        tickets := cv.tickets + 1)
  }

  /** A timeout, or any other wakeup, of a waiting thread. */
  function Wake(cv: Cv, t: Tid): (r: Cv)
    requires Wf(cv) && t in cv.waiters
    ensures Wf(r)
  {
    cv.(waiters := cv.waiters[t := cv.waiters[t].(asleep := false)])
  }

  /** Taking the head off the ring. */
  function Drop(cv: Cv): (r: Cv)
    requires Wf(cv) && cv.ring != []
    ensures Wf(r)
  {
    cv.(ring := cv.ring[1..], waiters := cv.waiters[cv.ring[0] := cv.waiters[cv.ring[0]].(removed := true)])
  }

  /** Waking the head, whose thread is asleep. */
  function Choose(cv: Cv): (r: Cv)
    requires Wf(cv) && cv.ring != []
    ensures Wf(r)
  {
    var t, w := cv.ring[0], cv.waiters[cv.ring[0]];
    cv.(ring := cv.ring[1..], waiters := cv.waiters[t := w.(asleep := false, signalled := true, removed := true)],
        chosen := cv.chosen + [w.ticket])
  }

  /** cv_signal: drop waiters from the head until one is actually woken. */
  function Signal(cv: Cv): (r: Cv)
    requires Wf(cv)
    ensures Wf(r) && r.waiters.Keys == cv.waiters.Keys
    decreases |cv.ring|
  {
    if cv.ring == [] then cv
    else
      if cv.waiters[cv.ring[0]].asleep then Choose(cv) else Signal(Drop(cv))
  }

  /** Cond_Broadcast */
  function Broadcast(cv: Cv): (r: Cv)
    requires Wf(cv)
    ensures Wf(r) && r.waiters.Keys == cv.waiters.Keys
    decreases |cv.ring|
  {
    if cv.ring == [] then cv
    else
      SignalShrinks(cv);
      Broadcast(Signal(cv))
  }

  lemma {:induction false} SignalShrinks(cv: Cv)
    requires Wf(cv) && cv.ring != []
    ensures |Signal(cv).ring| < |cv.ring|
    decreases |cv.ring|
  {
    if !cv.waiters[cv.ring[0]].asleep && |cv.ring| > 1 {
      SignalShrinks(Drop(cv));
    }
  }

  /** The second half of cv_wait: leave the ring if no signal removed us; the wait then returns. */
  function Return(cv: Cv, t: Tid): (r: Cv)
    requires Wf(cv) && t in cv.waiters && (cv.waiters[t].removed ==> t !in cv.ring)
    ensures Wf(r)
  {
    var w := cv.waiters[t];
    cv.(ring := if w.removed then cv.ring else Without(cv.ring, t), waiters := cv.waiters - {t},
        returned := cv.returned + [(w.ticket, w.signalled)])
  }

  // ---------- the invariant ----------

  ghost predicate WaiterOk(w: Waiter, inRing: bool, tickets: nat, chosen: seq<nat>) {
    && w.ticket < tickets
    && (inRing <==> !w.removed)
    && (w.asleep ==> !w.removed)
    && (w.signalled ==> w.removed && !w.asleep)
    && (w.signalled <==> w.ticket in chosen)
  }

  ghost predicate WaitersOk(cv: Cv) {
    forall t :: t in cv.waiters ==> WaiterOk(cv.waiters[t], t in cv.ring, cv.tickets, cv.chosen)
  }

  /** The ring is in arrival order. */
  ghost predicate InOrder(ring: seq<Tid>, waiters: map<Tid, Waiter>)
    requires forall t :: t in ring ==> t in waiters
  {
    forall i, j :: 0 <= i < j < |ring| ==> waiters[ring[i]].ticket < waiters[ring[j]].ticket
  }

  ghost predicate Distinct(waiters: map<Tid, Waiter>) {
    forall t, u :: t in waiters && u in waiters && t != u ==> waiters[t].ticket != waiters[u].ticket
  }

  /** A wait that returned said truthfully whether a signal had chosen it, and is over. */
  ghost predicate ReturnedOk(cv: Cv) {
    && (forall i :: 0 <= i < |cv.returned| ==>
          cv.returned[i].0 < cv.tickets && (cv.returned[i].1 <==> cv.returned[i].0 in cv.chosen))
    && (forall i, t :: 0 <= i < |cv.returned| && t in cv.waiters ==> cv.returned[i].0 != cv.waiters[t].ticket)
    && (forall k :: k in cv.chosen ==> k < cv.tickets)
  }

  ghost predicate Inv(cv: Cv) {
    && Wf(cv) && NoDup(cv.ring) && NoDup(cv.chosen)
    && WaitersOk(cv) && InOrder(cv.ring, cv.waiters) && Distinct(cv.waiters) && ReturnedOk(cv)
  }

  lemma EnqueueInv(cv: Cv, t: Tid)
    requires Inv(cv) && t !in cv.waiters
    ensures Wf(cv) && Inv(Enqueue(cv, t))
  {
    NoDupSnoc(cv.ring, t);
  }

  lemma WakeInv(cv: Cv, t: Tid)
    requires Inv(cv) && t in cv.waiters
    ensures Inv(Wake(cv, t))
  {}

  lemma Tail(cv: Cv)
    requires Wf(cv) && NoDup(cv.ring) && InOrder(cv.ring, cv.waiters) && cv.ring != []
    ensures NoDup(cv.ring[1..]) && cv.ring[0] !in cv.ring[1..]
    ensures forall t :: t in cv.ring[1..] <==> t in cv.ring && t != cv.ring[0]
    ensures InOrder(cv.ring[1..], cv.waiters)
  {
    assert cv.ring == [cv.ring[0]] + cv.ring[1..];
  }

  lemma OrderFrame(ring: seq<Tid>, waiters: map<Tid, Waiter>, t: Tid, w: Waiter)
    requires (forall x :: x in ring ==> x in waiters) && InOrder(ring, waiters) && t !in ring
    ensures InOrder(ring, waiters[t := w])
  {
    assert forall i :: 0 <= i < |ring| ==> ring[i] != t;
  }

  lemma DropInv(cv: Cv)
    requires Inv(cv) && cv.ring != [] && !cv.waiters[cv.ring[0]].asleep
    ensures Inv(Drop(cv))
  {
    Tail(cv);
    OrderFrame(cv.ring[1..], cv.waiters, cv.ring[0], Drop(cv).waiters[cv.ring[0]]);
  }

  lemma ChooseInv(cv: Cv)
    requires Inv(cv) && cv.ring != [] && cv.waiters[cv.ring[0]].asleep
    ensures Inv(Choose(cv))
  {
    var t, r := cv.ring[0], Choose(cv);
    var k := cv.waiters[t].ticket;
    Tail(cv);
    OrderFrame(r.ring, cv.waiters, t, r.waiters[t]);
    assert WaiterOk(cv.waiters[t], true, cv.tickets, cv.chosen);
    NoDupSnoc(cv.chosen, k);
    ChooseWaiters(cv);
    ChooseReturned(cv);
  }

  lemma ChooseWaiters(cv: Cv)
    requires Wf(cv) && cv.ring != [] && WaitersOk(cv) && Distinct(cv.waiters) && cv.ring[0] !in cv.ring[1..]
    requires forall t :: t in cv.ring[1..] <==> t in cv.ring && t != cv.ring[0]
    ensures WaitersOk(Choose(cv)) && Distinct(Choose(cv).waiters)
  {
    var k := cv.waiters[cv.ring[0]].ticket;
    assert forall j :: j in cv.chosen + [k] <==> j in cv.chosen || j == k;
  }

  lemma ChooseReturned(cv: Cv)
    requires Wf(cv) && cv.ring != [] && WaitersOk(cv) && ReturnedOk(cv)
    ensures ReturnedOk(Choose(cv))
  {
    var k := cv.waiters[cv.ring[0]].ticket;
    assert forall j :: j in cv.chosen + [k] <==> j in cv.chosen || j == k;
  }

  lemma {:induction false} SignalInv(cv: Cv)
    requires Inv(cv)
    ensures Inv(Signal(cv))
    decreases |cv.ring|
  {
    if cv.ring != [] {
      if cv.waiters[cv.ring[0]].asleep {
        ChooseInv(cv);
      } else {
        DropInv(cv);
        SignalInv(Drop(cv));
      }
    }
  }

  lemma {:induction false} BroadcastInv(cv: Cv)
    requires Inv(cv)
    ensures Inv(Broadcast(cv))
    decreases |cv.ring|
  {
    if cv.ring != [] {
      SignalShrinks(cv);
      SignalInv(cv);
      BroadcastInv(Signal(cv));
    }
  }

  lemma ConsInOrder(t: Tid, r: seq<Tid>, waiters: map<Tid, Waiter>)
    requires t in waiters && (forall x :: x in r ==> x in waiters) && InOrder(r, waiters)
    requires forall j :: 0 <= j < |r| ==> waiters[t].ticket < waiters[r[j]].ticket
    ensures InOrder([t] + r, waiters)
  {
    var q := [t] + r;
    forall i, j | 0 <= i < j < |q| ensures waiters[q[i]].ticket < waiters[q[j]].ticket {
      assert q[j] == r[j - 1];
      assert i > 0 ==> q[i] == r[i - 1];
    }
  }

  lemma {:induction false} WithoutInOrder(ring: seq<Tid>, waiters: map<Tid, Waiter>, t: Tid)
    requires (forall x :: x in ring ==> x in waiters) && InOrder(ring, waiters)
    ensures InOrder(Without(ring, t), waiters)
  {
    if ring != [] {
      var rest := ring[1..];
      assert forall i :: 0 <= i < |rest| ==> rest[i] == ring[i + 1];
      WithoutInOrder(rest, waiters, t);
      var r := Without(rest, t);
      if ring[0] != t {
        forall j | 0 <= j < |r| ensures waiters[ring[0]].ticket < waiters[r[j]].ticket {
          assert r[j] in rest;
        }
        ConsInOrder(ring[0], r, waiters);
      }
    }
  }

  lemma ReturnRing(cv: Cv, t: Tid)
    requires Wf(cv) && NoDup(cv.ring) && InOrder(cv.ring, cv.waiters) && t in cv.waiters
    requires t in cv.ring <==> !cv.waiters[t].removed
    ensures NoDup(Return(cv, t).ring) && InOrder(Return(cv, t).ring, Return(cv, t).waiters)
    ensures forall x :: x in Return(cv, t).ring <==> x in cv.ring && x != t
  {
    WithoutNoDup(cv.ring, t);
    WithoutInOrder(cv.ring, cv.waiters, t);
    var r := Return(cv, t);
    forall i, j | 0 <= i < j < |r.ring| ensures r.waiters[r.ring[i]].ticket < r.waiters[r.ring[j]].ticket {
      assert r.ring[i] in r.ring && r.ring[j] in r.ring;
      assert cv.waiters[r.ring[i]].ticket < cv.waiters[r.ring[j]].ticket;
    }
  }

  lemma ReturnRest(cv: Cv, t: Tid)
    requires WaitersOk(cv) && Distinct(cv.waiters) && ReturnedOk(cv) && Wf(cv) && t in cv.waiters
    requires t in cv.ring <==> !cv.waiters[t].removed
    requires forall x :: x in Return(cv, t).ring <==> x in cv.ring && x != t
    ensures WaitersOk(Return(cv, t)) && Distinct(Return(cv, t).waiters) && ReturnedOk(Return(cv, t))
  {
    assert WaiterOk(cv.waiters[t], t in cv.ring, cv.tickets, cv.chosen);
  }

  lemma ReturnInv(cv: Cv, t: Tid)
    requires Inv(cv) && t in cv.waiters && !cv.waiters[t].asleep
    ensures (t in cv.ring <==> !cv.waiters[t].removed) && Inv(Return(cv, t))
  {
    assert WaiterOk(cv.waiters[t], t in cv.ring, cv.tickets, cv.chosen);
    ReturnRing(cv, t);
    ReturnRest(cv, t);
  }

  // ---------- what signals do ----------

  /** `t` is the first waiter in arrival order whose thread is still STOPPED. */
  ghost predicate FirstAsleep(cv: Cv, t: Tid) {
    && t in cv.waiters && cv.waiters[t].asleep
    && forall u :: u in cv.waiters && cv.waiters[u].asleep ==> cv.waiters[t].ticket <= cv.waiters[u].ticket
  }

  ghost predicate NobodyAsleep(cv: Cv) {
    forall u :: u in cv.waiters ==> !cv.waiters[u].asleep
  }

  /** Dropping an awake head changes nothing for the others. */
  lemma HeadAwake(cv: Cv)
    requires Inv(cv) && cv.ring != [] && !cv.waiters[cv.ring[0]].asleep
    ensures forall t :: FirstAsleep(Drop(cv), t) <==> FirstAsleep(cv, t)
    ensures NobodyAsleep(Drop(cv)) <==> NobodyAsleep(cv)
  {
    assert forall u :: u in cv.waiters ==> Drop(cv).waiters[u].asleep == cv.waiters[u].asleep
                                           && Drop(cv).waiters[u].ticket == cv.waiters[u].ticket;
  }

  lemma HeadFirst(cv: Cv)
    requires Inv(cv) && cv.ring != [] && cv.waiters[cv.ring[0]].asleep
    ensures FirstAsleep(cv, cv.ring[0])
  {
    forall u | u in cv.waiters && cv.waiters[u].asleep ensures cv.waiters[cv.ring[0]].ticket <= cv.waiters[u].ticket {
      assert WaiterOk(cv.waiters[u], u in cv.ring, cv.tickets, cv.chosen);
      var i :| 0 <= i < |cv.ring| && cv.ring[i] == u;
      assert i == 0 || cv.waiters[cv.ring[0]].ticket < cv.waiters[cv.ring[i]].ticket;
    }
  }

  /** What one signal does to the waiter `w` of a thread, when the chosen one has ticket `k`. */
  ghost predicate AfterSignal(w: Waiter, w': Waiter, inRing: bool, k: nat) {
    if w.ticket == k then w' == w.(asleep := false, signalled := true, removed := true)
    else if inRing && w.ticket < k then w' == w.(removed := true)
    else w' == w
  }

  /** Cond_Signal wakes exactly the first waiter in arrival order that is still STOPPED, and discards,
      unsignalled, the timed-out waiters ahead of it. */
  lemma {:induction false} SignalChoosesFirst(cv: Cv, t: Tid)
    requires Inv(cv) && FirstAsleep(cv, t)
    ensures Signal(cv).chosen == cv.chosen + [cv.waiters[t].ticket]
    ensures forall u :: u in cv.waiters ==>
      AfterSignal(cv.waiters[u], Signal(cv).waiters[u], u in cv.ring, cv.waiters[t].ticket)
    decreases |cv.ring|
  {
    assert WaiterOk(cv.waiters[t], t in cv.ring, cv.tickets, cv.chosen);
    if cv.waiters[cv.ring[0]].asleep {
      HeadFirst(cv);
      assert t == cv.ring[0];
      NoneAhead(cv);
    } else {
      var d := Drop(cv);
      DropInv(cv);
      HeadAwake(cv);
      SignalChoosesFirst(d, t);
      Tail(cv);
      forall u | u in cv.waiters
        ensures AfterSignal(cv.waiters[u], Signal(cv).waiters[u], u in cv.ring, cv.waiters[t].ticket)
      {
        assert AfterSignal(d.waiters[u], Signal(d).waiters[u], u in d.ring, d.waiters[t].ticket);
        if u == cv.ring[0] { HeadBefore(cv, t); }
      }
    }
  }

  lemma NoneAhead(cv: Cv)
    requires Inv(cv) && cv.ring != []
    ensures forall u :: u in cv.ring ==> cv.waiters[cv.ring[0]].ticket <= cv.waiters[u].ticket
  {
    forall u | u in cv.ring ensures cv.waiters[cv.ring[0]].ticket <= cv.waiters[u].ticket {
      var i :| 0 <= i < |cv.ring| && cv.ring[i] == u;
    }
  }

  lemma HeadBefore(cv: Cv, t: Tid)
    requires Inv(cv) && t in cv.ring && t != cv.ring[0]
    ensures cv.waiters[cv.ring[0]].ticket < cv.waiters[t].ticket
  {
    var i :| 0 <= i < |cv.ring| && cv.ring[i] == t;
  }

  /** With nobody asleep a signal wakes nobody and empties the ring. */
  lemma {:induction false} SignalIdle(cv: Cv)
    requires Inv(cv) && NobodyAsleep(cv)
    ensures Signal(cv).ring == [] && Signal(cv).chosen == cv.chosen
    ensures forall u :: u in cv.waiters ==>
      Signal(cv).waiters[u] == cv.waiters[u].(removed := cv.waiters[u].removed || u in cv.ring)
    decreases |cv.ring|
  {
    if cv.ring != [] {
      DropInv(cv);
      HeadAwake(cv);
      Tail(cv);
      SignalIdle(Drop(cv));
    }
  }

  /** Cond_Broadcast empties the ring and leaves nobody asleep; it signals exactly the sleepers. */
  lemma {:induction false} BroadcastWakesAll(cv: Cv)
    requires Inv(cv)
    ensures Broadcast(cv).ring == []
    ensures forall u :: u in cv.waiters ==>
      Broadcast(cv).waiters[u] ==
        cv.waiters[u].(asleep := false, signalled := cv.waiters[u].signalled || cv.waiters[u].asleep, removed := true)
      || (u !in cv.ring && Broadcast(cv).waiters[u] == cv.waiters[u])
    decreases |cv.ring|
  {
    if cv.ring != [] {
      SignalShrinks(cv);
      SignalInv(cv);
      BroadcastWakesAll(Signal(cv));
      SignalPreserves(cv);
    }
  }

  /** One signal, seen by each waiter. */
  lemma {:induction false} SignalPreserves(cv: Cv)
    requires Inv(cv)
    ensures forall u :: u in cv.waiters ==>
      var w, w' := cv.waiters[u], Signal(cv).waiters[u];
      && (u in Signal(cv).ring ==> u in cv.ring && w' == w)
      && (u !in cv.ring ==> w' == w)
      && (u in cv.ring && u !in Signal(cv).ring ==>
            w' == w.(asleep := false, signalled := w.asleep, removed := true))
    decreases |cv.ring|
  {
    forall u | u in cv.waiters ensures WaiterOk(cv.waiters[u], u in cv.ring, cv.tickets, cv.chosen) {}
    if cv.ring != [] {
      Tail(cv);
      if !cv.waiters[cv.ring[0]].asleep {
        DropInv(cv);
        SignalPreserves(Drop(cv));
      }
    }
  }

  // ---------- what the other sections do ----------

  /** A wait goes to the back of the ring, asleep and unsignalled: the next signal still reaches whom it would
      have reached, and this thread if that is nobody. */
  lemma EnqueueEffect(cv: Cv, t: Tid)
    requires Inv(cv) && t !in cv.waiters
    ensures (forall u :: FirstAsleep(cv, u) ==> FirstAsleep(Enqueue(cv, t), u))
    ensures NobodyAsleep(cv) ==> FirstAsleep(Enqueue(cv, t), t)
    ensures var r := Enqueue(cv, t);
      && r.ring == cv.ring + [t] && r.waiters == cv.waiters[t := Waiter(true, false, false, cv.tickets)]
      && r.tickets == cv.tickets + 1 && r.chosen == cv.chosen && r.returned == cv.returned
  {
    forall u | FirstAsleep(cv, u) ensures FirstAsleep(Enqueue(cv, t), u) {
      assert WaiterOk(cv.waiters[u], u in cv.ring, cv.tickets, cv.chosen);
    }
  }

  /** A timeout wakes its thread and leaves it on the ring, unsignalled. */
  lemma WakeEffect(cv: Cv, t: Tid)
    requires Inv(cv) && t in cv.waiters && cv.waiters[t].asleep
    ensures var r := Wake(cv, t);
      && r.ring == cv.ring && t in r.ring && r.chosen == cv.chosen && r.returned == cv.returned
      && t in r.waiters && !r.waiters[t].asleep && !r.waiters[t].signalled && !r.waiters[t].removed
      && r.waiters == cv.waiters[t := r.waiters[t]]
  {
    assert WaiterOk(cv.waiters[t], t in cv.ring, cv.tickets, cv.chosen);
  }

  /** A wait that ends is off the ring, the others in their order, and returns whether it was chosen. */
  lemma ReturnEffect(cv: Cv, t: Tid)
    requires Inv(cv) && t in cv.waiters && !cv.waiters[t].asleep
    ensures t in cv.ring <==> !cv.waiters[t].removed
    ensures var r := Return(cv, t);
      && r.waiters == cv.waiters - {t} && r.ring == Without(cv.ring, t) && r.chosen == cv.chosen
      && r.returned == cv.returned + [(cv.waiters[t].ticket, cv.waiters[t].ticket in cv.chosen)]
  {
    assert WaiterOk(cv.waiters[t], t in cv.ring, cv.tickets, cv.chosen);
    if t !in cv.ring { WithoutAbsent(cv.ring, t); }
  }

  // ---------- runs ----------

  datatype Event = WaitEvent(t: Tid) | WakeEvent(t: Tid) | SignalEvent | BroadcastEvent | ReturnEvent(t: Tid)

  ghost predicate Enabled(cv: Cv, e: Event) {
    match e
    case WaitEvent(t) => t !in cv.waiters
    case WakeEvent(t) => t in cv.waiters && cv.waiters[t].asleep
    case ReturnEvent(t) => t in cv.waiters && !cv.waiters[t].asleep
    case _ => true
  }

  ghost function Apply(cv: Cv, e: Event): Cv
    requires Inv(cv) && Enabled(cv, e)
  {
    match e
    case WaitEvent(t) => Enqueue(cv, t)
    case WakeEvent(t) => Wake(cv, t)
    case SignalEvent => Signal(cv)
    case BroadcastEvent => Broadcast(cv)
    case ReturnEvent(t) => assert WaiterOk(cv.waiters[t], t in cv.ring, cv.tickets, cv.chosen); Return(cv, t)
  }

  lemma StepInv(cv: Cv, e: Event)
    requires Inv(cv) && Enabled(cv, e)
    ensures Inv(Apply(cv, e))
  {
    match e
    case WaitEvent(t) => EnqueueInv(cv, t);
    case WakeEvent(t) => WakeInv(cv, t);
    case SignalEvent => SignalInv(cv);
    case BroadcastEvent => BroadcastInv(cv);
    case ReturnEvent(t) => ReturnInv(cv, t);
  }

  /** The final state of a run in which every event is possible when it happens. */
  ghost predicate Reaches(cv: Cv, es: seq<Event>, r: Cv)
    requires Inv(cv)
    decreases |es|
  {
    if es == [] then r == cv
    else Enabled(cv, es[0]) && (StepInv(cv, es[0]); Reaches(Apply(cv, es[0]), es[1..], r))
  }

  /** In every race of signals, timeouts and other wakeups: cv_wait returns 1 iff a signal chose it,
      no wait is chosen twice, nobody sleeps outside the ring, where no signal could reach it, and the
      assert of cv_wait holds. */
  lemma {:induction false} RunSafe(cv: Cv, es: seq<Event>, r: Cv)
    requires Inv(cv) && Reaches(cv, es, r)
    ensures Inv(r)
    ensures forall i :: 0 <= i < |r.returned| ==> (r.returned[i].1 <==> r.returned[i].0 in r.chosen)
    ensures NoDup(r.chosen)
    ensures forall t :: t in r.waiters && r.waiters[t].asleep ==> t in r.ring
    ensures forall t :: t in r.waiters && !r.waiters[t].removed ==> !r.waiters[t].signalled
    decreases |es|
  {
    if es != [] {
      StepInv(cv, es[0]);
      RunSafe(Apply(cv, es[0]), es[1..], r);
    }
    forall t | t in r.waiters ensures WaiterOk(r.waiters[t], t in r.ring, r.tickets, r.chosen) {}
  }

  lemma InitInv()
    ensures Inv(COND_INIT)
  {}
}
