/** The dining philosophers of symposium.c, for any number of them.  Each step is one section under the
    monitor's mutex; a sleeping philosopher may also be woken for no reason. */
module Symposium {

  datatype Phil = NotHere | Thinking | Hungry | Eating

  /** Where a philosopher's thread is, with the bites still to take. */
  datatype Pc = Arriving | Ponders(left: nat) | Asleep(left: nat) | Woken(left: nat) | Dines(left: nat) | Leaving | Gone

  /** `meals` is history. */
  datatype State = State(state: seq<Phil>, pcs: seq<Pc>, meals: seq<nat>)

  function Left(i: nat, n: nat): (r: nat)
    requires i < n
    ensures r == if i == n - 1 then 0 else i + 1
  {
    (i + 1) % n
  }

  function Right(i: nat, n: nat): (r: nat)
    requires i < n
    ensures r == if i == 0 then n - 1 else i - 1
  {
    assert i > 0 ==> (i + n - 1) % n == i - 1;
    (i + n - 1) % n
  }

  /** The neighbours are mutual, and two different ones from three philosophers on. */
  lemma Neighbours(i: nat, n: nat)
    requires i < n
    ensures Left(Right(i, n), n) == i && Right(Left(i, n), n) == i
    ensures (Left(i, n) == i <==> n == 1) && (Left(i, n) == Right(i, n) <==> n <= 2)
  {}

  ghost predicate Wf(s: State) {
    |s.state| == |s.pcs| == |s.meals|
  }

  // ---------- the monitor's sections ----------

  predicate CanEat(state: seq<Phil>, i: nat)
    requires i < |state|
  {
    state[i] == Hungry && state[Left(i, |state|)] != Eating && state[Right(i, |state|)] != Eating
  }

  /** Cond_Signal on hungry[i], where only philosopher i ever waits. */
  function Signal(pc: Pc): Pc {
    if pc.Asleep? then Woken(pc.left) else pc
  }

  function TryToEat(s: State, i: nat): (r: State)
    requires Wf(s) && i < |s.state|
    ensures Wf(r) && |r.state| == |s.state|
  {
    if CanEat(s.state, i) then s.(state := s.state[i := Eating], pcs := s.pcs[i := Signal(s.pcs[i])]) else s
  }

  function Resume(left: nat): Pc {
    if left > 0 then Ponders(left) else Leaving
  }

  function Arrive(s: State, i: nat, bites: nat): (r: State)
    requires Wf(s) && i < |s.state|
    ensures Wf(r)
  {
    s.(state := s.state[i := Thinking], pcs := s.pcs[i := Resume(bites)])
  }

  /** After the think: hungry, and eating at once or asleep. */
  function GetHungry(s: State, i: nat): (r: State)
    requires Wf(s) && i < |s.state| && s.pcs[i].Ponders?
    ensures Wf(r)
  {
    var t := TryToEat(s.(state := s.state[i := Hungry]), i);
    t.(pcs := t.pcs[i := if t.state[i] == Hungry then Asleep(s.pcs[i].left) else Dines(s.pcs[i].left)])
  }

  /** A woken philosopher looks again. */
  function Look(s: State, i: nat): (r: State)
    requires Wf(s) && i < |s.state| && s.pcs[i].Woken?
    ensures Wf(r)
  {
    s.(pcs := s.pcs[i := if s.state[i] == Hungry then Asleep(s.pcs[i].left) else Dines(s.pcs[i].left)])
  }

  /** After the meal: think again, and let the neighbours try. */
  function Finish(s: State, i: nat): (r: State)
    requires Wf(s) && i < |s.state| && s.pcs[i].Dines? && s.pcs[i].left > 0
    ensures Wf(r)
  {
    var n := |s.state|;
    var t := s.(state := s.state[i := Thinking], pcs := s.pcs[i := Resume(s.pcs[i].left - 1)],
                meals := s.meals[i := s.meals[i] + 1]);
    TryToEat(TryToEat(t, Left(i, n)), Right(i, n))
  }

  function Leave(s: State, i: nat): (r: State)
    requires Wf(s) && i < |s.state|
    ensures Wf(r)
  {
    s.(state := s.state[i := NotHere], pcs := s.pcs[i := Gone])
  }

  // ---------- the invariant ----------

  ghost predicate PhilOk(p: Phil, pc: Pc, meals: nat, bites: nat) {
    match pc
    case Arriving => p == NotHere && meals == 0
    case Ponders(left) => p == Thinking && left > 0 && left + meals == bites
    case Asleep(left) => p == Hungry && left > 0 && left + meals == bites
    case Woken(left) => p in {Hungry, Eating} && left > 0 && left + meals == bites
    case Dines(left) => p == Eating && left > 0 && left + meals == bites
    case Leaving => p == Thinking && meals == bites
    case Gone => p == NotHere && meals == bites
  }

  ghost predicate PhilsOk(s: State, bites: nat)
    requires Wf(s)
  {
    forall i: nat :: i < |s.state| ==> PhilOk(s.state[i], s.pcs[i], s.meals[i], bites)
  }

  /** No two neighbours eat. */
  ghost predicate Apart(state: seq<Phil>) {
    forall i: nat :: i < |state| && state[i] == Eating && Left(i, |state|) != i ==> state[Left(i, |state|)] != Eating
  }

  ghost predicate HasEatingNeighbour(state: seq<Phil>, i: nat)
    requires i < |state|
  {
    state[Left(i, |state|)] == Eating || state[Right(i, |state|)] == Eating
  }

  /** Whoever is hungry has an eating neighbour. */
  ghost predicate Blocked(state: seq<Phil>) {
    forall i: nat :: i < |state| && state[i] == Hungry ==> HasEatingNeighbour(state, i)
  }

  ghost predicate Inv(s: State, bites: nat) {
    Wf(s) && PhilsOk(s, bites) && Apart(s.state) && Blocked(s.state)
  }

  // ---------- preservation ----------

  /** Hungry philosophers without an eating neighbour are only those in `k`. */
  ghost predicate BlockedBut(state: seq<Phil>, k: set<nat>) {
    forall i: nat :: i < |state| && state[i] == Hungry && i !in k ==> HasEatingNeighbour(state, i)
  }

  lemma TryKeeps(s: State, i: nat, bites: nat, k: set<nat>)
    requires Wf(s) && i < |s.state| && PhilsOk(s, bites) && Apart(s.state) && BlockedBut(s.state, k)
    ensures var r := TryToEat(s, i);
      PhilsOk(r, bites) && Apart(r.state) && BlockedBut(r.state, k - {i}) && |r.state| == |s.state|
  {
    var r := TryToEat(s, i);
    TryApart(s.state, i);
    if CanEat(s.state, i) {
      TryBlocked(s.state, i, k);
    }
  }

  lemma TryApart(state: seq<Phil>, i: nat)
    requires i < |state| && Apart(state)
    ensures CanEat(state, i) ==> Apart(state[i := Eating])
  {
    if CanEat(state, i) {
      var r, n := state[i := Eating], |state|;
      forall j: nat | j < n && r[j] == Eating && Left(j, n) != j ensures r[Left(j, n)] != Eating {}
    }
  }

  lemma TryBlocked(state: seq<Phil>, i: nat, k: set<nat>)
    requires i < |state| && BlockedBut(state, k)
    ensures BlockedBut(state[i := Eating], k - {i})
  {
    var r, n := state[i := Eating], |state|;
    forall j: nat | j < n && r[j] == Hungry && j !in k - {i} ensures HasEatingNeighbour(r, j) {
      assert HasEatingNeighbour(state, j);
    }
  }

  /** Changing the state of a philosopher who was not eating, to one that is not eating. */
  lemma QuietKeeps(state: seq<Phil>, i: nat, p: Phil)
    requires i < |state| && state[i] != Eating && p != Eating && Apart(state) && Blocked(state)
    ensures Apart(state[i := p]) && BlockedBut(state[i := p], if p == Hungry then {i} else {})
  {
    var r, n := state[i := p], |state|;
    forall j: nat | j < n && r[j] == Eating && Left(j, n) != j ensures r[Left(j, n)] != Eating {}
    forall j: nat | j < n && r[j] == Hungry && j !in (if p == Hungry then {i} else {})
      ensures HasEatingNeighbour(r, j)
    {
      assert HasEatingNeighbour(state, j);
    }
  }

  lemma ArriveInv(s: State, i: nat, bites: nat)
    requires Inv(s, bites) && i < |s.state| && s.pcs[i] == Arriving
    ensures Inv(Arrive(s, i, bites), bites)
  {
    QuietKeeps(s.state, i, Thinking);
  }

  lemma LeaveInv(s: State, i: nat, bites: nat)
    requires Inv(s, bites) && i < |s.state| && s.pcs[i] == Leaving
    ensures Inv(Leave(s, i), bites)
  {
    assert PhilOk(s.state[i], s.pcs[i], s.meals[i], bites);
    QuietKeeps(s.state, i, NotHere);
  }

  lemma GetHungryInv(s: State, i: nat, bites: nat)
    requires Inv(s, bites) && i < |s.state| && s.pcs[i].Ponders?
    ensures Inv(GetHungry(s, i), bites)
  {
    assert PhilOk(s.state[i], s.pcs[i], s.meals[i], bites);
    var h := s.state[i := Hungry];
    QuietKeeps(s.state, i, Hungry);
    TryApart(h, i);
    if CanEat(h, i) { TryBlocked(h, i, {i}); }
    hide Apart;
    var r := GetHungry(s, i);
    forall j: nat | j < |r.state| && r.state[j] == Hungry ensures HasEatingNeighbour(r.state, j) {}
  }

  lemma LookInv(s: State, i: nat, bites: nat)
    requires Inv(s, bites) && i < |s.state| && s.pcs[i].Woken?
    ensures Inv(Look(s, i), bites)
  {
    assert PhilOk(s.state[i], s.pcs[i], s.meals[i], bites);
  }

  lemma FinishInv(s: State, i: nat, bites: nat)
    requires Inv(s, bites) && i < |s.state| && s.pcs[i].Dines? && s.pcs[i].left > 0
    ensures Inv(Finish(s, i), bites)
  {
    assert PhilOk(s.state[i], s.pcs[i], s.meals[i], bites);
    var n := |s.state|;
    var t := s.(state := s.state[i := Thinking], pcs := s.pcs[i := Resume(s.pcs[i].left - 1)],
                meals := s.meals[i := s.meals[i] + 1]);
    var k := {Left(i, n), Right(i, n)};
    StopEating(s.state, i);
    assert PhilsOk(t, bites);
    TryKeeps(t, Left(i, n), bites, k);
    var u := TryToEat(t, Left(i, n));
    TryKeeps(u, Right(i, n), bites, k - {Left(i, n)});
    var r := TryToEat(u, Right(i, n));
    assert k - {Left(i, n)} - {Right(i, n)} == {};
    assert Blocked(r.state);
  }

  lemma StopEating(state: seq<Phil>, i: nat)
    requires i < |state| && Apart(state) && Blocked(state)
    ensures Apart(state[i := Thinking])
    ensures BlockedBut(state[i := Thinking], {Left(i, |state|), Right(i, |state|)})
  {
    var r, n := state[i := Thinking], |state|;
    forall j: nat | j < n && r[j] == Eating && Left(j, n) != j ensures r[Left(j, n)] != Eating {}
    forall j: nat | j < n && r[j] == Hungry && j !in {Left(i, n), Right(i, n)} ensures HasEatingNeighbour(r, j) {
      assert HasEatingNeighbour(state, j);
    }
  }

  // ---------- runs ----------

  /** `WakeEvent` is a wakeup for no reason. */
  datatype Event =
    | ArriveEvent(i: nat) | HungryEvent(i: nat) | LookEvent(i: nat) | FinishEvent(i: nat)
    | LeaveEvent(i: nat) | WakeEvent(i: nat)

  ghost predicate Enabled(s: State, e: Event)
    requires Wf(s)
  {
    && e.i < |s.state|
    && match e
       case ArriveEvent(i) => s.pcs[i] == Arriving
       case HungryEvent(i) => s.pcs[i].Ponders?
       case LookEvent(i) => s.pcs[i].Woken?
       case FinishEvent(i) => s.pcs[i].Dines? && s.pcs[i].left > 0
       case LeaveEvent(i) => s.pcs[i] == Leaving
       case WakeEvent(i) => s.pcs[i].Asleep?
  }

  ghost function Apply(s: State, e: Event, bites: nat): State
    requires Wf(s) && Enabled(s, e)
  {
    match e
    case ArriveEvent(i) => Arrive(s, i, bites)
    case HungryEvent(i) => GetHungry(s, i)
    case LookEvent(i) => Look(s, i)
    case FinishEvent(i) => Finish(s, i)
    case LeaveEvent(i) => Leave(s, i)
    case WakeEvent(i) => s.(pcs := s.pcs[i := Woken(s.pcs[i].left)])
  }

  lemma StepInv(s: State, e: Event, bites: nat)
    requires Inv(s, bites) && Enabled(s, e)
    ensures Inv(Apply(s, e, bites), bites)
  {
    match e
    case ArriveEvent(i) => ArriveInv(s, i, bites);
    case HungryEvent(i) => GetHungryInv(s, i, bites);
    case LookEvent(i) => LookInv(s, i, bites);
    case FinishEvent(i) => FinishInv(s, i, bites);
    case LeaveEvent(i) => LeaveInv(s, i, bites);
    case WakeEvent(i) => assert PhilOk(s.state[i], s.pcs[i], s.meals[i], bites);
  }

  /** SymposiumTable_init: everybody is yet to arrive. */
  function Initial(n: nat): State {
    State(seq(n, i => NotHere), seq(n, i => Arriving), seq(n, i => 0))
  }

  ghost predicate Next(s: State, e: Event, s': State, bites: nat) {
    Wf(s) && Enabled(s, e) && s' == Apply(s, e, bites)
  }

  ghost predicate IsRun(ss: seq<State>, es: seq<Event>, bites: nat) {
    |ss| == |es| + 1 && forall i :: 0 <= i < |es| ==> Next(ss[i], es[i], ss[i + 1], bites)
  }

  /** In every state of every run: no two neighbours eat, whoever is asleep is hungry, whoever is hungry
      has an eating neighbour, and a philosopher who stops waiting is eating. */
  lemma RunSafe(ss: seq<State>, es: seq<Event>, n: nat, bites: nat)
    requires IsRun(ss, es, bites) && ss[0] == Initial(n)
    ensures forall i :: 0 <= i < |ss| ==> Inv(ss[i], bites) && |ss[i].state| == n
  {
    for j := 0 to |es|
      invariant forall i :: 0 <= i <= j ==> Inv(ss[i], bites) && |ss[i].state| == n
    {
      assert Next(ss[j], es[j], ss[j + 1], bites);
      StepInv(ss[j], es[j], bites);
      SameNumber(ss[j], es[j], bites);
    }
  }

  lemma SameNumber(s: State, e: Event, bites: nat)
    requires Wf(s) && Enabled(s, e)
    ensures |Apply(s, e, bites).state| == |s.state|
  {}

  // ---------- no deadlock ----------

  ghost predicate AllGone(s: State) {
    forall i: nat :: i < |s.pcs| ==> s.pcs[i] == Gone
  }

  /** What philosopher `i` can do without a stray wakeup. */
  ghost function Move(s: State, i: nat): Event
    requires i < |s.pcs|
  {
    match s.pcs[i]
    case Arriving => ArriveEvent(i)
    case Ponders(_) => HungryEvent(i)
    case Asleep(_) => WakeEvent(i)
    case Woken(_) => LookEvent(i)
    case Dines(_) => FinishEvent(i)
    case Leaving => LeaveEvent(i)
    case Gone => LeaveEvent(i)
  }

  /** No reachable state is a deadlock: unless all are gone, somebody can move unaided. */
  lemma NoDeadlock(s: State, bites: nat) returns (e: Event)
    requires Inv(s, bites) && !AllGone(s)
    ensures Enabled(s, e) && !e.WakeEvent?
  {
    var i: nat :| i < |s.pcs| && s.pcs[i] != Gone;
    assert PhilOk(s.state[i], s.pcs[i], s.meals[i], bites);
    if s.pcs[i].Asleep? {
      assert HasEatingNeighbour(s.state, i);
      var n := |s.state|;
      var j := if s.state[Left(i, n)] == Eating then Left(i, n) else Right(i, n);
      assert PhilOk(s.state[j], s.pcs[j], s.meals[j], bites);
      e := Move(s, j);
    } else {
      e := Move(s, i);
    }
  }

  // ---------- termination ----------

  /** Without stray wakeups, a woken philosopher is eating. */
  ghost predicate Prompt(s: State)
    requires Wf(s)
  {
    forall i: nat :: i < |s.state| && s.pcs[i].Woken? ==> s.state[i] == Eating
  }

  ghost function Weight(pc: Pc, bites: nat): nat {
    match pc
    case Arriving => 4 * bites + 2
    case Ponders(left) => 4 * left + 1
    case Asleep(left) => 4 * left
    case Woken(left) => if left == 0 then 0 else 4 * left - 1
    case Dines(left) => if left == 0 then 0 else 4 * left - 2
    case Leaving => 1
    case Gone => 0
  }

  ghost function Total(pcs: seq<Pc>, bites: nat): nat {
    if pcs == [] then 0 else Weight(pcs[0], bites) + Total(pcs[1..], bites)
  }

  lemma {:induction false} TotalDrops(pcs: seq<Pc>, pcs': seq<Pc>, i: nat, bites: nat)
    requires |pcs'| == |pcs| && i < |pcs|
    requires forall j: nat :: j < |pcs| ==> Weight(pcs'[j], bites) <= Weight(pcs[j], bites)
    requires Weight(pcs'[i], bites) < Weight(pcs[i], bites)
    ensures Total(pcs', bites) < Total(pcs, bites)
    decreases |pcs|
  {
    if i == 0 {
      TotalKept(pcs[1..], pcs'[1..], bites);
    } else {
      assert pcs'[1..][i - 1] == pcs'[i] && pcs[1..][i - 1] == pcs[i];
      TotalDrops(pcs[1..], pcs'[1..], i - 1, bites);
    }
  }

  lemma {:induction false} TotalKept(pcs: seq<Pc>, pcs': seq<Pc>, bites: nat)
    requires |pcs'| == |pcs|
    requires forall j: nat :: j < |pcs| ==> Weight(pcs'[j], bites) <= Weight(pcs[j], bites)
    ensures Total(pcs', bites) <= Total(pcs, bites)
    decreases |pcs|
  {
    if pcs != [] { TotalKept(pcs[1..], pcs'[1..], bites); }
  }

  lemma {:induction false} TotalBound(pcs: seq<Pc>, bites: nat)
    requires forall i: nat :: i < |pcs| ==> pcs[i] == Arriving
    ensures Total(pcs, bites) == |pcs| * (4 * bites + 2)
  {
    if pcs != [] { TotalBound(pcs[1..], bites); }
  }

  ghost predicate NoHeavier(pcs: seq<Pc>, pcs': seq<Pc>, bites: nat) {
    && |pcs'| == |pcs|
    && forall j: nat :: j < |pcs| ==> Weight(pcs'[j], bites) <= Weight(pcs[j], bites)
  }

  lemma TryPcs(s: State, i: nat, bites: nat)
    requires Wf(s) && i < |s.state| && Prompt(s)
    ensures Prompt(TryToEat(s, i)) && NoHeavier(s.pcs, TryToEat(s, i).pcs, bites)
    ensures !s.pcs[i].Asleep? ==> TryToEat(s, i).pcs == s.pcs
  {}

  lemma FinishPcs(s: State, i: nat, bites: nat)
    requires Wf(s) && i < |s.state| && s.pcs[i].Dines? && s.pcs[i].left > 0 && Prompt(s)
    ensures Prompt(Finish(s, i)) && NoHeavier(s.pcs, Finish(s, i).pcs, bites)
    ensures Weight(Finish(s, i).pcs[i], bites) < Weight(s.pcs[i], bites)
  {
    var n := |s.state|;
    var t := s.(state := s.state[i := Thinking], pcs := s.pcs[i := Resume(s.pcs[i].left - 1)],
                meals := s.meals[i := s.meals[i] + 1]);
    assert Prompt(t) && NoHeavier(s.pcs, t.pcs, bites);
    TryPcs(t, Left(i, n), bites);
    TryPcs(TryToEat(t, Left(i, n)), Right(i, n), bites);
    hide Prompt, TryToEat;
  }

  /** What a step does to the threads. */
  lemma StepPcs(s: State, e: Event, bites: nat)
    requires Inv(s, bites) && Enabled(s, e) && !e.WakeEvent? && Prompt(s)
    ensures var r := Apply(s, e, bites);
      && Prompt(r) && NoHeavier(s.pcs, r.pcs, bites)
      && Weight(r.pcs[e.i], bites) < Weight(s.pcs[e.i], bites)
  {
    assert PhilOk(s.state[e.i], s.pcs[e.i], s.meals[e.i], bites);
    hide Apart, Blocked, PhilsOk;
    if e.FinishEvent? {
      FinishPcs(s, e.i, bites);
    } else if e.HungryEvent? {
      TryPcs(s.(state := s.state[e.i := Hungry]), e.i, bites);
    }
  }

  lemma StepDrops(s: State, e: Event, bites: nat)
    requires Inv(s, bites) && Enabled(s, e) && !e.WakeEvent? && Prompt(s)
    ensures Prompt(Apply(s, e, bites))
    ensures Total(Apply(s, e, bites).pcs, bites) < Total(s.pcs, bites)
  {
    StepPcs(s, e, bites);
    TotalDrops(s.pcs, Apply(s, e, bites).pcs, e.i, bites);
  }

  /** Without stray wakeups every run is finite, and one that cannot go on has everybody gone after
      exactly `bites` meals each. */
  lemma RunTerminates(ss: seq<State>, es: seq<Event>, n: nat, bites: nat)
    requires IsRun(ss, es, bites) && ss[0] == Initial(n)
    requires forall k :: 0 <= k < |es| ==> !es[k].WakeEvent?
    ensures |es| <= n * (4 * bites + 2)
    ensures Wf(ss[|es|]) && |ss[|es|].state| == n
    ensures (forall e: Event :: !e.WakeEvent? ==> !Enabled(ss[|es|], e)) ==>
      forall i: nat :: i < n ==> ss[|es|].state[i] == NotHere && ss[|es|].meals[i] == bites
  {
    RunSafe(ss, es, n, bites);
    TotalBound(ss[0].pcs, bites);
    for j := 0 to |es|
      invariant Prompt(ss[j]) && Total(ss[j].pcs, bites) + j <= n * (4 * bites + 2)
    {
      assert Next(ss[j], es[j], ss[j + 1], bites);
      StepDrops(ss[j], es[j], bites);
    }
    var s := ss[|es|];
    if forall e: Event :: !e.WakeEvent? ==> !Enabled(s, e) {
      if !AllGone(s) {
        var e := NoDeadlock(s, bites);
      }
      forall i: nat | i < n ensures s.state[i] == NotHere && s.meals[i] == bites {
        assert PhilOk(s.state[i], s.pcs[i], s.meals[i], bites);
      }
    }
  }
}
