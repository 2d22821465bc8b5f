/** Threads of one process (kernel_threads.c): creation, join, detach and exit on its PTCB list.  Each
    step is one section of a system call between taking the kernel and giving it up. */
module Threads {
  import opened Sequences

  /** A PTCB's address, which is also the thread's Tid; free memory may be used again. */
  type Addr = nat

  /** `gen` is history: it numbers the threads, since addresses are used again. */
  datatype Ptcb = Ptcb(exited: bool, detached: bool, exitval: int, refcount: int, gen: nat)

  /** A thread inside ThreadJoin, past the checks.  `gen` is history: the thread it joined. */
  datatype Joiner = Joiner(target: Addr, gen: nat, asleep: bool)

  /** What a join of a thread returns: 0 and an exit value, or -1. */
  datatype Outcome = Joined(exitval: int) | Refused

  /** History: the next number, what was decided for each thread, what each completed join returned, and
      the threads whose PTCB was freed. */
  datatype History = History(
    next: nat, decided: map<nat, Outcome>, results: seq<(nat, Outcome)>, freed: seq<nat>)

  /** `joining` maps the PTCB of a thread inside ThreadJoin to what it joins. */
  datatype State = State(ptcbs: map<Addr, Ptcb>, threadCount: int, joining: map<Addr, Joiner>, hist: History)

  ghost predicate Wf(s: State) {
    forall t :: t in s.joining ==> s.joining[t].target in s.ptcbs
  }

  /** The thread at `t` runs: it has not exited and is not inside ThreadJoin. */
  predicate Runs(s: State, t: Addr) {
    t in s.ptcbs && !s.ptcbs[t].exited && t !in s.joining
  }

  /** sys_CreateThread, the new PTCB at `a`. */
  function Create(s: State, a: Addr): State {
    s.(ptcbs := s.ptcbs[a := Ptcb(false, false, 0, 0, s.hist.next)], threadCount := s.threadCount + 1,
       hist := s.hist.(next := s.hist.next + 1))
  }

  /** The checks of sys_ThreadJoin. */
  predicate MayJoin(s: State, self: Addr, tid: Addr) {
    tid in s.ptcbs && tid != self && !s.ptcbs[tid].detached
  }

  /** sys_ThreadJoin up to its loop; a thread that fails the checks returns -1 at once. */
  function Enter(s: State, self: Addr, tid: Addr): State {
    if !MayJoin(s, self, tid) then s
    else
      var b := s.ptcbs[tid];
      s.(ptcbs := s.ptcbs[tid := b.(refcount := b.refcount + 1)],
         joining := s.joining[self := Joiner(tid, b.gen, false)])
  }

  /** The loop of sys_ThreadJoin from one check of its condition: the joiner sleeps, or returns. */
  function Check(s: State, self: Addr): State
    requires self in s.joining && s.joining[self].target in s.ptcbs
  {
    var a := s.joining[self].target;
    var b := s.ptcbs[a];
    if !b.exited && !b.detached then s.(joining := s.joining[self := s.joining[self].(asleep := true)])
    else
      var left := b.(refcount := b.refcount - 1);
      var g := s.joining[self].gen;
      var j := s.joining - {self};
      if left.detached then
        s.(ptcbs := s.ptcbs[a := left], joining := j, hist := s.hist.(results := s.hist.results + [(g, Refused)]))
      else
        var h := s.hist.(results := s.hist.results + [(g, Joined(left.exitval))]);
        if left.refcount == 0
        then s.(ptcbs := s.ptcbs - {a}, joining := j, hist := h.(freed := h.freed + [left.gen]))
        else s.(ptcbs := s.ptcbs[a := left], joining := j, hist := h)
  }

  /** kernel_broadcast on the exit_cv of `a`. */
  function WakeJoiners(joining: map<Addr, Joiner>, a: Addr): map<Addr, Joiner> {
    map t | t in joining :: if joining[t].target == a then joining[t].(asleep := false) else joining[t]
  }

  /** The outcome of a thread is decided by the first of its exit and its detachment. */
  function Decide(h: History, g: nat, o: Outcome): History {
    if g in h.decided then h else h.(decided := h.decided[g := o])
  }

  predicate MayDetach(s: State, tid: Addr) {
    tid in s.ptcbs && !s.ptcbs[tid].exited
  }

  /** sys_ThreadDetach */
  function Detach(s: State, tid: Addr): State {
    if !MayDetach(s, tid) then s
    else
      s.(ptcbs := s.ptcbs[tid := s.ptcbs[tid].(detached := true)], joining := WakeJoiners(s.joining, tid),
         hist := Decide(s.hist, s.ptcbs[tid].gen, Refused))
  }

  /** The thread half of sys_ThreadExit. */
  function Exit(s: State, self: Addr, v: int): State
    requires self in s.ptcbs
  {
    s.(ptcbs := s.ptcbs[self := s.ptcbs[self].(exited := true, exitval := v)],
       joining := WakeJoiners(s.joining, self), threadCount := s.threadCount - 1,
       hist := Decide(s.hist, s.ptcbs[self].gen, Joined(v)))
  }

  /** Any other wakeup of a joiner. */
  function Wake(s: State, t: Addr): State
    requires t in s.joining
  {
    s.(joining := s.joining[t := s.joining[t].(asleep := false)])
  }

  // ---------- the invariant ----------

  ghost function JoinersOf(joining: map<Addr, Joiner>, a: Addr): set<Addr> {
    set t | t in joining && joining[t].target == a
  }

  ghost predicate PtcbOk(b: Ptcb, joiners: nat, h: History) {
    && b.refcount == joiners && b.gen < h.next
    && (b.gen in h.decided <==> b.exited || b.detached)
    && (b.detached ==> h.decided[b.gen] == Refused)
    && (b.exited && !b.detached ==> h.decided[b.gen] == Joined(b.exitval))
    && b.gen !in h.freed
  }

  ghost predicate PtcbsOk(ptcbs: map<Addr, Ptcb>, joining: map<Addr, Joiner>, h: History) {
    && (forall a {:trigger PtcbOk(ptcbs[a], |JoinersOf(joining, a)|, h)} ::
          a in ptcbs ==> PtcbOk(ptcbs[a], |JoinersOf(joining, a)|, h))
    && (forall a, b :: a in ptcbs && b in ptcbs && a != b ==> ptcbs[a].gen != ptcbs[b].gen)
  }

  /** A thread inside ThreadJoin has not exited, its target is still the thread it joined, and it sleeps
      only while that thread has neither exited nor been detached. */
  ghost predicate JoinerOk(ptcbs: map<Addr, Ptcb>, t: Addr, j: Joiner) {
    && t in ptcbs && !ptcbs[t].exited && j.target != t
    && j.target in ptcbs && ptcbs[j.target].gen == j.gen
    && (j.asleep ==> !ptcbs[j.target].exited && !ptcbs[j.target].detached)
  }

  ghost predicate JoinersOk(ptcbs: map<Addr, Ptcb>, joining: map<Addr, Joiner>) {
    forall t {:trigger JoinerOk(ptcbs, t, joining[t])} :: t in joining ==> JoinerOk(ptcbs, t, joining[t])
  }

  ghost predicate HistOk(h: History) {
    && (forall g :: g in h.decided ==> g < h.next)
    && NoDup(h.freed)
    && (forall g :: g in h.freed ==> g in h.decided && h.decided[g].Joined?)
    && (forall i :: 0 <= i < |h.results| ==>
          h.results[i].0 in h.decided && h.decided[h.results[i].0] == h.results[i].1)
  }

  ghost function Unexited(ptcbs: map<Addr, Ptcb>): set<Addr> {
    set a | a in ptcbs && !ptcbs[a].exited
  }

  ghost predicate Inv(s: State) {
    && PtcbsOk(s.ptcbs, s.joining, s.hist) && JoinersOk(s.ptcbs, s.joining) && HistOk(s.hist)
    && s.threadCount == |Unexited(s.ptcbs)|
  }

  // ---------- preservation ----------

  lemma CreateInv(s: State, a: Addr)
    requires Inv(s) && a !in s.ptcbs
    ensures Inv(Create(s, a))
  {
    hide PtcbsOk, JoinersOk, HistOk, Unexited, JoinersOf;
    NobodyJoins(s, a);
    CreateParts(s, a);
    CreateUnexited(s, a);
  }

  lemma CreateUnexited(s: State, a: Addr)
    requires a !in s.ptcbs
    ensures |Unexited(Create(s, a).ptcbs)| == |Unexited(s.ptcbs)| + 1
  {
    assert Unexited(Create(s, a).ptcbs) == Unexited(s.ptcbs) + {a};
  }

  lemma NobodyJoins(s: State, a: Addr)
    requires JoinersOk(s.ptcbs, s.joining) && a !in s.ptcbs
    ensures JoinersOf(s.joining, a) == {} && a !in s.joining
  {
    assert forall t :: t in s.joining ==> JoinerOk(s.ptcbs, t, s.joining[t]);
  }

  lemma CreateParts(s: State, a: Addr)
    requires PtcbsOk(s.ptcbs, s.joining, s.hist) && JoinersOk(s.ptcbs, s.joining) && HistOk(s.hist)
    requires a !in s.ptcbs && JoinersOf(s.joining, a) == {} && a !in s.joining
    ensures var r := Create(s, a);
      PtcbsOk(r.ptcbs, r.joining, r.hist) && JoinersOk(r.ptcbs, r.joining) && HistOk(r.hist)
  {
    var r := Create(s, a);
    forall x | x in r.ptcbs ensures PtcbOk(r.ptcbs[x], |JoinersOf(r.joining, x)|, r.hist) {
      if x != a { assert PtcbOk(s.ptcbs[x], |JoinersOf(s.joining, x)|, s.hist); }
    }
    forall x, y | x in r.ptcbs && y in r.ptcbs && x != y ensures r.ptcbs[x].gen != r.ptcbs[y].gen {
      assert x != a ==> PtcbOk(s.ptcbs[x], |JoinersOf(s.joining, x)|, s.hist);
      assert y != a ==> PtcbOk(s.ptcbs[y], |JoinersOf(s.joining, y)|, s.hist);
    }
    forall t | t in r.joining ensures JoinerOk(r.ptcbs, t, r.joining[t]) {
      assert JoinerOk(s.ptcbs, t, s.joining[t]);
    }
  }

  lemma EnterInv(s: State, self: Addr, tid: Addr)
    requires Inv(s) && Runs(s, self)
    ensures Inv(Enter(s, self, tid))
  {
    if MayJoin(s, self, tid) {
      var r := Enter(s, self, tid);
      assert Unexited(r.ptcbs) == Unexited(s.ptcbs);
      hide Unexited, HistOk;
      EnterPtcbs(s, self, tid);
      EnterJoiners(s, self, tid);
    }
  }

  lemma EnterPtcbs(s: State, self: Addr, tid: Addr)
    requires PtcbsOk(s.ptcbs, s.joining, s.hist) && Runs(s, self) && MayJoin(s, self, tid)
    ensures PtcbsOk(Enter(s, self, tid).ptcbs, Enter(s, self, tid).joining, s.hist)
  {
    hide JoinersOf;
    var r := Enter(s, self, tid);
    forall a | a in r.ptcbs ensures PtcbOk(r.ptcbs[a], |JoinersOf(r.joining, a)|, r.hist) {
      JoinersAdd(s.joining, self, r.joining[self], a);
      assert PtcbOk(s.ptcbs[a], |JoinersOf(s.joining, a)|, s.hist);
    }
  }

  lemma EnterJoiners(s: State, self: Addr, tid: Addr)
    requires JoinersOk(s.ptcbs, s.joining) && Runs(s, self) && MayJoin(s, self, tid)
    ensures JoinersOk(Enter(s, self, tid).ptcbs, Enter(s, self, tid).joining)
  {
    var r := Enter(s, self, tid);
    forall t | t in r.joining ensures JoinerOk(r.ptcbs, t, r.joining[t]) {
      assert t != self ==> JoinerOk(s.ptcbs, t, s.joining[t]);
    }
  }

  lemma JoinersAdd(joining: map<Addr, Joiner>, t: Addr, j: Joiner, a: Addr)
    requires t !in joining
    ensures |JoinersOf(joining[t := j], a)| == |JoinersOf(joining, a)| + if a == j.target then 1 else 0
  {
    if a == j.target {
      assert JoinersOf(joining[t := j], a) == JoinersOf(joining, a) + {t};
    } else {
      assert JoinersOf(joining[t := j], a) == JoinersOf(joining, a);
    }
  }

  lemma JoinersDel(joining: map<Addr, Joiner>, t: Addr, a: Addr)
    requires t in joining
    ensures |JoinersOf(joining - {t}, a)| == |JoinersOf(joining, a)| - if a == joining[t].target then 1 else 0
  {
    if a == joining[t].target {
      assert JoinersOf(joining - {t}, a) == JoinersOf(joining, a) - {t};
    } else {
      assert JoinersOf(joining - {t}, a) == JoinersOf(joining, a);
    }
  }

  /** A joiner whose thread is not decided yet goes to sleep, or a sleeper wakes. */
  lemma AsleepInv(s: State, t: Addr, asleep: bool)
    requires Inv(s) && t in s.joining && s.joining[t].target in s.ptcbs
    requires asleep ==> !s.ptcbs[s.joining[t].target].exited && !s.ptcbs[s.joining[t].target].detached
    ensures Inv(s.(joining := s.joining[t := s.joining[t].(asleep := asleep)]))
  {
    var j := s.joining[t := s.joining[t].(asleep := asleep)];
    SameTargets(s.joining, j);
    hide JoinersOf, PtcbOk;
    forall x | x in j ensures JoinerOk(s.ptcbs, x, j[x]) {
      assert JoinerOk(s.ptcbs, x, s.joining[x]);
    }
  }

  lemma SameTargets(j: map<Addr, Joiner>, j': map<Addr, Joiner>)
    requires j'.Keys == j.Keys && forall t :: t in j ==> j'[t].target == j[t].target
    ensures forall a :: JoinersOf(j', a) == JoinersOf(j, a)
  {}

  /** The end of a join: the outcome is the decided one. */
  lemma LeaveInv(s: State, self: Addr)
    requires Inv(s) && self in s.joining && s.joining[self].target in s.ptcbs
    requires var b := s.ptcbs[s.joining[self].target]; b.exited || b.detached
    ensures Inv(Check(s, self))
  {
    hide PtcbsOk, JoinersOk, HistOk, JoinersOf, Unexited;
    TargetFacts(s, self);
    LeaveJoiners(s, self);
    LeavePtcbs(s, self);
    var a := s.joining[self].target;
    LeaveHist(s.hist, s.ptcbs[a], |JoinersOf(s.joining, a)|);
    LeaveUnexited(s, self);
  }

  /** Only threads that had exited are freed. */
  lemma LeaveUnexited(s: State, self: Addr)
    requires Inv(s) && self in s.joining && s.joining[self].target in s.ptcbs
    requires var b := s.ptcbs[s.joining[self].target]; b.exited || b.detached
    ensures Unexited(Check(s, self).ptcbs) == Unexited(s.ptcbs)
  {
    hide PtcbsOk, JoinersOk, HistOk;
  }

  lemma LeavePtcbs(s: State, self: Addr)
    requires Inv(s) && self in s.joining && s.joining[self].target in s.ptcbs
    requires var b := s.ptcbs[s.joining[self].target]; b.exited || b.detached
    ensures PtcbsOk(Check(s, self).ptcbs, Check(s, self).joining, Check(s, self).hist)
  {
    hide JoinersOf, HistOk, JoinersOk, Unexited;
    var a := s.joining[self].target;
    var r := Check(s, self);
    forall x | x in r.ptcbs ensures PtcbOk(r.ptcbs[x], |JoinersOf(r.joining, x)|, r.hist) {
      JoinersDel(s.joining, self, x);
      assert PtcbOk(s.ptcbs[x], |JoinersOf(s.joining, x)|, s.hist);
    }
  }

  /** The result logged for a joiner of `b` is the decided one. */
  lemma LeaveHist(h: History, b: Ptcb, n: nat)
    requires HistOk(h) && PtcbOk(b, n, h) && (b.exited || b.detached)
    ensures b.detached ==> HistOk(h.(results := h.results + [(b.gen, Refused)]))
    ensures !b.detached ==>
      var h' := h.(results := h.results + [(b.gen, Joined(b.exitval))]);
      HistOk(h') && HistOk(h'.(freed := h.freed + [b.gen]))
  {
    NoDupSnoc(h.freed, b.gen);
  }

  lemma TargetFacts(s: State, self: Addr)
    requires PtcbsOk(s.ptcbs, s.joining, s.hist) && JoinersOk(s.ptcbs, s.joining) && self in s.joining
    ensures var j := s.joining[self];
      && j.target in s.ptcbs && s.ptcbs[j.target].gen == j.gen
      && PtcbOk(s.ptcbs[j.target], |JoinersOf(s.joining, j.target)|, s.hist)
  {
    assert JoinerOk(s.ptcbs, self, s.joining[self]);
  }

  lemma LeaveJoiners(s: State, self: Addr)
    requires JoinersOk(s.ptcbs, s.joining) && self in s.joining && s.joining[self].target in s.ptcbs
    requires var b := s.ptcbs[s.joining[self].target];
      (b.exited || b.detached) && b.refcount == |JoinersOf(s.joining, s.joining[self].target)|
    ensures JoinersOk(Check(s, self).ptcbs, Check(s, self).joining)
  {
    var a := s.joining[self].target;
    var r := Check(s, self);
    JoinersDel(s.joining, self, a);
    if a in r.ptcbs {
      hide JoinersOf;
      forall t | t in r.joining ensures JoinerOk(r.ptcbs, t, r.joining[t]) {
        assert JoinerOk(s.ptcbs, t, s.joining[t]);
      }
    } else {
      assert JoinersOf(r.joining, a) == {};
      forall t | t in r.joining ensures JoinerOk(r.ptcbs, t, r.joining[t]) {
        assert JoinerOk(s.ptcbs, t, s.joining[t]) && t !in JoinersOf(r.joining, a);
      }
    }
  }

  lemma CheckInv(s: State, self: Addr)
    requires Inv(s) && Wf(s) && self in s.joining
    ensures Inv(Check(s, self))
  {
    var b := s.ptcbs[s.joining[self].target];
    if b.exited || b.detached { LeaveInv(s, self); } else { AsleepInv(s, self, true); }
  }

  /** How the outcome of the thread at `a` gets decided: detached, or exited while not inside a join. */
  ghost predicate Decides(s: State, a: Addr, b: Ptcb, o: Outcome) {
    && a in s.ptcbs && !s.ptcbs[a].exited
    && ((b == s.ptcbs[a].(detached := true) && o == Refused)
        || (b == s.ptcbs[a].(exited := true, exitval := b.exitval) && o == Joined(b.exitval) && a !in s.joining))
  }

  /** What was decided stays decided. */
  ghost predicate Kept(a: map<nat, Outcome>, b: map<nat, Outcome>) {
    forall g :: g in a ==> g in b && b[g] == a[g]
  }

  lemma DecidePtcbs(s: State, a: Addr, b: Ptcb, o: Outcome)
    requires PtcbsOk(s.ptcbs, s.joining, s.hist) && Decides(s, a, b, o)
    ensures PtcbsOk(s.ptcbs[a := b], WakeJoiners(s.joining, a), Decide(s.hist, b.gen, o))
  {
    var h, p, j := Decide(s.hist, b.gen, o), s.ptcbs[a := b], WakeJoiners(s.joining, a);
    SameTargets(s.joining, j);
    hide JoinersOf, WakeJoiners;
    assert PtcbOk(s.ptcbs[a], |JoinersOf(s.joining, a)|, s.hist);
    forall x | x in p ensures PtcbOk(p[x], |JoinersOf(j, x)|, h) {
      assert PtcbOk(s.ptcbs[x], |JoinersOf(s.joining, x)|, s.hist);
    }
  }

  lemma DecideJoiners(s: State, a: Addr, b: Ptcb, o: Outcome)
    requires JoinersOk(s.ptcbs, s.joining) && Decides(s, a, b, o)
    ensures JoinersOk(s.ptcbs[a := b], WakeJoiners(s.joining, a))
  {
    var p, j := s.ptcbs[a := b], WakeJoiners(s.joining, a);
    forall t | t in j ensures JoinerOk(p, t, j[t]) {
      assert JoinerOk(s.ptcbs, t, s.joining[t]);
    }
  }

  lemma DecideInv(s: State, a: Addr, b: Ptcb, o: Outcome)
    requires Inv(s) && Decides(s, a, b, o)
    ensures var h, p, j := Decide(s.hist, b.gen, o), s.ptcbs[a := b], WakeJoiners(s.joining, a);
      PtcbsOk(p, j, h) && JoinersOk(p, j) && HistOk(h)
    ensures var h := Decide(s.hist, b.gen, o);
      && Kept(s.hist.decided, h.decided) && b.gen in h.decided
      && h.decided[b.gen] == if s.ptcbs[a].detached then Refused else o
  {
    hide JoinersOf, JoinersOk, WakeJoiners;
    assert PtcbOk(s.ptcbs[a], |JoinersOf(s.joining, a)|, s.hist);
    hide PtcbsOk;
    DecidePtcbs(s, a, b, o);
    DecideJoiners(s, a, b, o);
  }

  lemma DetachInv(s: State, tid: Addr)
    requires Inv(s)
    ensures Inv(Detach(s, tid))
  {
    if MayDetach(s, tid) {
      hide PtcbsOk, JoinersOk, HistOk;
      DecideInv(s, tid, s.ptcbs[tid].(detached := true), Refused);
      assert Unexited(Detach(s, tid).ptcbs) == Unexited(s.ptcbs);
    }
  }

  lemma ExitInv(s: State, self: Addr, v: int)
    requires Inv(s) && Runs(s, self)
    ensures Inv(Exit(s, self, v))
  {
    hide PtcbsOk, JoinersOk, HistOk;
    DecideInv(s, self, s.ptcbs[self].(exited := true, exitval := v), Joined(v));
    assert Unexited(Exit(s, self, v).ptcbs) == Unexited(s.ptcbs) - {self};
  }

  // ---------- runs ----------

  datatype Event =
    | CreateEvent(a: Addr) | EnterEvent(self: Addr, tid: Addr) | CheckEvent(self: Addr)
    | DetachEvent(tid: Addr) | ExitEvent(self: Addr, v: int) | WakeEvent(self: Addr)

  ghost predicate Enabled(s: State, e: Event) {
    match e
    case CreateEvent(a) => a !in s.ptcbs
    case EnterEvent(self, tid) => Runs(s, self)
    case CheckEvent(self) => self in s.joining && !s.joining[self].asleep
    case DetachEvent(tid) => true
    case ExitEvent(self, v) => Runs(s, self)
    case WakeEvent(self) => self in s.joining
  }

  ghost function Apply(s: State, e: Event): State
    requires Wf(s) && Enabled(s, e)
  {
    match e
    case CreateEvent(a) => Create(s, a)
    case EnterEvent(self, tid) => Enter(s, self, tid)
    case CheckEvent(self) => Check(s, self)
    case DetachEvent(tid) => Detach(s, tid)
    case ExitEvent(self, v) => Exit(s, self, v)
    case WakeEvent(self) => Wake(s, self)
  }

  lemma InvWf(s: State)
    requires Inv(s)
    ensures Wf(s)
  {
    assert forall t :: t in s.joining ==> JoinerOk(s.ptcbs, t, s.joining[t]);
  }

  lemma StepInv(s: State, e: Event)
    requires Inv(s) && Wf(s) && Enabled(s, e)
    ensures Inv(Apply(s, e))
  {
    hide Inv;
    match e
    case CreateEvent(a) => CreateInv(s, a);
    case EnterEvent(self, tid) => EnterInv(s, self, tid);
    case CheckEvent(self) => CheckInv(s, self);
    case DetachEvent(tid) => DetachInv(s, tid);
    case ExitEvent(self, v) => ExitInv(s, self, v);
    case WakeEvent(self) => AsleepInv(s, self, false);
  }

  ghost predicate Next(s: State, e: Event, s': State) {
    Wf(s) && Enabled(s, e) && s' == Apply(s, e)
  }

  ghost predicate IsRun(ss: seq<State>, es: seq<Event>) {
    |ss| == |es| + 1 && forall i :: 0 <= i < |es| ==> Next(ss[i], es[i], ss[i + 1])
  }

  /** A process with its main thread only. */
  ghost predicate Initial(s: State) {
    exists a :: s == State(map[a := Ptcb(false, false, 0, 0, 0)], 1, map[], History(1, map[], [], []))
  }

  lemma InitialInv(s: State)
    requires Initial(s)
    ensures Inv(s)
  {
    var a :| s == State(map[a := Ptcb(false, false, 0, 0, 0)], 1, map[], History(1, map[], [], []));
    assert Unexited(s.ptcbs) == {a};
    assert JoinersOf(s.joining, a) == {};
  }

  lemma RunInv(ss: seq<State>, es: seq<Event>)
    requires IsRun(ss, es) && Initial(ss[0])
    ensures forall i :: 0 <= i < |ss| ==> Inv(ss[i]) && Wf(ss[i])
  {
    InitialInv(ss[0]);
    InvWf(ss[0]);
    for j := 0 to |es|
      invariant forall i :: 0 <= i <= j ==> Inv(ss[i]) && Wf(ss[i])
    {
      assert Next(ss[j], es[j], ss[j + 1]);
      StepInv(ss[j], es[j]);
      InvWf(ss[j + 1]);
    }
  }

  ghost predicate Safe(s: State) {
    // all joins of one thread return the same
    && (forall i, j :: 0 <= i < j < |s.hist.results| && s.hist.results[i].0 == s.hist.results[j].0 ==>
          s.hist.results[i].1 == s.hist.results[j].1)
    // no PTCB is freed twice
    && NoDup(s.hist.freed)
    // thread_count is the number of threads that have not exited
    && s.threadCount == |set a | a in s.ptcbs && !s.ptcbs[a].exited|
    // a thread inside ThreadJoin uses the PTCB of the thread it joined, and sleeps only while that
    // thread has neither exited nor been detached
    && (forall t :: t in s.joining ==> JoinerOk(s.ptcbs, t, s.joining[t]))
  }

  lemma InvSafe(s: State)
    requires Inv(s)
    ensures Safe(s)
  {
    assert Unexited(s.ptcbs) == set a | a in s.ptcbs && !s.ptcbs[a].exited;
    hide PtcbsOk, JoinerOk;
  }

  lemma RunSafe(ss: seq<State>, es: seq<Event>)
    requires IsRun(ss, es) && Initial(ss[0])
    ensures forall i :: 0 <= i < |ss| ==> Wf(ss[i]) && Inv(ss[i]) && Safe(ss[i])
  {
    RunInv(ss, es);
    forall i | 0 <= i < |ss| ensures Safe(ss[i]) { InvSafe(ss[i]); }
  }

  /** The outcome of a thread, once decided, is the same ever after, and so for all who join it. */
  lemma OutcomeFixed(ss: seq<State>, es: seq<Event>, i: nat, g: nat)
    requires IsRun(ss, es) && Initial(ss[0]) && i < |ss| && g in ss[i].hist.decided
    ensures g in ss[|es|].hist.decided && ss[|es|].hist.decided[g] == ss[i].hist.decided[g]
    ensures forall k :: 0 <= k < |ss[|es|].hist.results| && ss[|es|].hist.results[k].0 == g ==>
      ss[|es|].hist.results[k].1 == ss[i].hist.decided[g]
  {
    RunInv(ss, es);
    for j := i to |es|
      invariant g in ss[j].hist.decided && ss[j].hist.decided[g] == ss[i].hist.decided[g]
    {
      assert Next(ss[j], es[j], ss[j + 1]);
      StepKeepsDecided(ss[j], es[j]);
    }
    assert HistOk(ss[|es|].hist);
  }

  lemma StepKeepsDecided(s: State, e: Event)
    requires Wf(s) && Enabled(s, e)
    ensures Kept(s.hist.decided, Apply(s, e).hist.decided)
  {}

  /** A PTCB is freed only by the last joiner of a thread that exited undetached: nobody is left inside. */
  lemma FreedWhenUnused(s: State, e: Event, a: Addr)
    requires Inv(s) && Wf(s) && Enabled(s, e) && a in s.ptcbs && a !in Apply(s, e).ptcbs
    ensures e.CheckEvent? && s.joining[e.self].target == a
    ensures s.ptcbs[a].exited && !s.ptcbs[a].detached
    ensures JoinersOf(Apply(s, e).joining, a) == {}
  {
    assert PtcbOk(s.ptcbs[a], |JoinersOf(s.joining, a)|, s.hist);
    JoinersDel(s.joining, e.self, a);
  }

  /** A detached thread can no longer be joined; all who were joining it are awake and return -1. */
  lemma DetachRefuses(s: State, tid: Addr, t: Addr)
    requires Inv(s) && MayDetach(s, tid)
    ensures !MayJoin(Detach(s, tid), t, tid)
    ensures t in s.joining && s.joining[t].target == tid ==>
      var d := Detach(s, tid);
      && t in d.joining && !d.joining[t].asleep && d.joining[t].target in d.ptcbs
      && t !in Check(d, t).joining
      && Check(d, t).hist.results == d.hist.results + [(s.ptcbs[tid].gen, Refused)]
  {
    if t in s.joining { assert JoinerOk(s.ptcbs, t, s.joining[t]); }
  }

  /** All who join a thread that exits undetached are awake and return its exit value. */
  lemma ExitDelivers(s: State, self: Addr, v: int, t: Addr)
    requires Inv(s) && Runs(s, self) && t in s.joining && s.joining[t].target == self && !s.ptcbs[self].detached
    ensures var d := Exit(s, self, v);
      && t in d.joining && !d.joining[t].asleep && d.joining[t].target in d.ptcbs
      && t !in Check(d, t).joining
      && Check(d, t).hist.results == d.hist.results + [(s.ptcbs[self].gen, Joined(v))]
  {
    assert JoinerOk(s.ptcbs, t, s.joining[t]);
  }

  // ---------- what each call does ----------

  /** A new thread is neither exited nor detached, nobody joins it, and the others are as they were. */
  lemma CreateEffect(s: State, a: Addr)
    requires Inv(s) && a !in s.ptcbs
    ensures var r := Create(s, a);
      && a in r.ptcbs && !r.ptcbs[a].exited && !r.ptcbs[a].detached && r.ptcbs[a].refcount == 0
      && r.ptcbs[a].gen == s.hist.next && r.hist == s.hist.(next := s.hist.next + 1)
      && r.ptcbs - {a} == s.ptcbs && r.joining == s.joining && r.threadCount == s.threadCount + 1 && Runs(r, a)
  {
    NobodyJoins(s, a);
  }

  /** A join of any other thread of the process that is not detached gets inside, whether that thread has
      exited or not; any other join is refused and changes nothing. */
  lemma EnterEffect(s: State, self: Addr, tid: Addr)
    requires Inv(s) && Runs(s, self)
    ensures var r := Enter(s, self, tid);
      if tid in s.ptcbs && tid != self && !s.ptcbs[tid].detached then
        && r.ptcbs == s.ptcbs[tid := s.ptcbs[tid].(refcount := s.ptcbs[tid].refcount + 1)]
        && r.joining == s.joining[self := Joiner(tid, s.ptcbs[tid].gen, false)]
        && r.threadCount == s.threadCount && r.hist == s.hist
      else r == s
  {}

  /** Joining a thread that has exited undetached returns its exit value at once, and frees its PTCB when
      nobody else is inside. */
  lemma JoinExited(s: State, self: Addr, tid: Addr)
    requires Inv(s) && Runs(s, self) && tid in s.ptcbs && tid != self
    requires s.ptcbs[tid].exited && !s.ptcbs[tid].detached
    ensures var e := Enter(s, self, tid);
      && self in e.joining && !e.joining[self].asleep && e.joining[self].target in e.ptcbs
      && var r, b := Check(e, self), s.ptcbs[tid];
      && self !in r.joining && r.hist.results == s.hist.results + [(b.gen, Joined(b.exitval))]
      && (b.refcount == 0 ==> tid !in r.ptcbs && r.hist.freed == s.hist.freed + [b.gen])
      && (b.refcount > 0 ==> tid in r.ptcbs && r.ptcbs[tid] == b && r.hist.freed == s.hist.freed)
  {}

  /** What a joiner finds: it sleeps while its thread has neither exited nor been detached; it gets -1 if it
      was detached; and else the exit value, the last one inside freeing the PTCB. */
  lemma CheckEffect(s: State, self: Addr)
    requires Inv(s) && Wf(s) && self in s.joining
    ensures var r, a, g := Check(s, self), s.joining[self].target, s.joining[self].gen;
      var b := s.ptcbs[a];
      && (forall x :: x in s.ptcbs && x != a ==> x in r.ptcbs && r.ptcbs[x] == s.ptcbs[x])
      && (forall x :: x in r.ptcbs ==> x in s.ptcbs)
      && r.threadCount == s.threadCount && r.hist.decided == s.hist.decided && r.hist.next == s.hist.next
      && (!b.exited && !b.detached ==>
            r == s.(joining := s.joining[self := s.joining[self].(asleep := true)]))
      && (b.exited || b.detached ==>
            r.joining == s.joining - {self}
            && r.hist.results == s.hist.results + [(g, if b.detached then Refused else Joined(b.exitval))])
      && (b.detached ==> a in r.ptcbs && r.ptcbs[a] == b.(refcount := b.refcount - 1) && r.hist.freed == s.hist.freed)
      && (b.exited && !b.detached && b.refcount > 1 ==>
            a in r.ptcbs && r.ptcbs[a] == b.(refcount := b.refcount - 1) && r.hist.freed == s.hist.freed)
      && (b.exited && !b.detached && b.refcount == 1 ==> a !in r.ptcbs && r.hist.freed == s.hist.freed + [b.gen])
  {
    TargetFacts(s, self);
  }

  /** Every thread of the process that has not exited can be detached, and no other. */
  lemma DetachEffect(s: State, tid: Addr)
    requires Inv(s)
    ensures var r := Detach(s, tid);
      if tid in s.ptcbs && !s.ptcbs[tid].exited then
        && r.ptcbs == s.ptcbs[tid := s.ptcbs[tid].(detached := true)] && r.threadCount == s.threadCount
        && r.joining.Keys == s.joining.Keys
        && forall t :: t in s.joining ==>
             r.joining[t] == if s.joining[t].target == tid then s.joining[t].(asleep := false) else s.joining[t]
      else r == s
  {}

  /** Any other wakeup lets its thread look again, and does no more. */
  lemma WakeEffect(s: State, t: Addr)
    requires t in s.joining
    ensures Wake(s, t) == s.(joining := s.joining[t := s.joining[t].(asleep := false)])
  {}

  /** A thread that exits leaves its value and wakes all who join it. */
  lemma ExitEffect(s: State, self: Addr, v: int)
    requires Inv(s) && Runs(s, self)
    ensures var r := Exit(s, self, v);
      && r.ptcbs == s.ptcbs[self := s.ptcbs[self].(exited := true, exitval := v)]
      && r.threadCount == s.threadCount - 1 && r.joining.Keys == s.joining.Keys
      && forall t :: t in s.joining ==>
           r.joining[t] == if s.joining[t].target == self then s.joining[t].(asleep := false) else s.joining[t]
  {}
}
