/** What each of the process calls does: who is reaped, what status is handed over, what is left behind. */
module ProcessEffects {
  import opened Sequences
  import opened Processes
  import opened ProcessTree
  import opened ProcessRuns

  // ---------- waiting ----------

  /** Zombie `c` of `p` is reaped: off both lists, its PCB at the front of the free list, its number and
      exit value handed over, and nothing else touched. */
  ghost predicate IsReaped(s: State, r: State, c: Pid, p: Pid) {
    && Reaped(s.pt, r.pt, c, p) && r.pt[c].parent == Head(s.free)
    && r.free == [c] + s.free && r.count == s.count - 1
    && r.hist == s.hist.(reaped := s.hist.reaped + [(s.pt[c].gen, s.pt[c].exitval)])
  }

  /** The waiter of `p` is done; the others wait as before. */
  ghost predicate WaitOver(s: State, r: State, p: Pid) {
    && p !in r.waiting
    && (forall q :: q in s.waiting && q != p ==> q in r.waiting && r.waiting[q] == s.waiting[q])
    && (forall q :: q in r.waiting ==> q in s.waiting)
    && (forall q :: q != p ==> (q in r.asleep <==> q in s.asleep))
  }

  /** The waiter of `p` sleeps, and nothing else happens. */
  ghost predicate Sleeps(s: State, r: State, p: Pid, w: Wait) {
    r == s.(waiting := s.waiting[p := w], asleep := s.asleep + {p})
  }

  /** What a WaitChild comes to: no child (NOPROC), a child and its status, or sleep. */
  datatype Answer = NoChild | Got(child: Pid, status: int) | Asleep

  /** The answer is true of what happened to the table and to the waiter of `p`. */
  ghost predicate Answers(s: State, r: State, p: Pid, a: Answer) {
    match a
    case NoChild => r.pt == s.pt && r.free == s.free && r.hist == s.hist && WaitOver(s, r, p)
    case Got(c, status) =>
      && c < |s.pt| && s.pt[c].pstate == Zombie && s.pt[c].parent == Some(p) && status == s.pt[c].exitval
      && IsReaped(s, r, c, p) && WaitOver(s, r, p) && p !in r.asleep
    case Asleep => r.pt == s.pt && r.free == s.free && r.hist == s.hist && p in r.waiting && p in r.asleep
  }

  /** Whatever a pass reaps is a zombie child, reaped as told. */
  lemma PassReaps(s: State, d: seq<nat>, p: Pid, w: Wait)
    requires InvFor(s, d) && Legal(s) && WaitOk(s.pt, p, w) && Reaps(s, p, w).Some?
    ensures var c := Reaps(s, p, w).value;
      && c < |s.pt| && s.pt[c].pstate == Zombie && s.pt[c].parent == Some(p)
      && IsReaped(s, EndWait(Cleanup(s, c), p), c, p)
  {
    var c := Reaps(s, p, w).value;
    ReapsChild(s, d, p, w);
    assert ParentOk(s.pt, d, c);
    hide InvFor, Legal;
    CleanupShape(s, c, p);
  }

  lemma PassEnds(s: State, p: Pid, c: Pid)
    requires c < |s.pt|
    ensures var r := EndWait(Cleanup(s, c), p);
      WaitOver(s, r, p) && p !in r.asleep && r.asleep == s.asleep - {p} && r.waiting == s.waiting - {p}
  {
    hide Unlink;
  }

  /** A pass through wait_for_specific_child sleeps while the child lives, and else reaps it. */
  lemma SpecificEffect(s: State, d: seq<nat>, p: Pid, c: Pid)
    requires InvFor(s, d) && Legal(s) && WaitOk(s.pt, p, Specific(c))
    requires p in s.waiting ==> s.waiting[p] == Specific(c)
    ensures var r := WaitStep(s, p, Specific(c));
      && (s.pt[c].pstate == Alive ==> Sleeps(s, r, p, Specific(c)))
      && (s.pt[c].pstate != Alive ==>
            s.pt[c].pstate == Zombie && IsReaped(s, r, c, p) && WaitOver(s, r, p) && p !in r.asleep)
  {
    if s.pt[c].pstate != Alive {
      PassReaps(s, d, p, Specific(c));
      PassEnds(s, p, c);
    }
    hide InvFor, Legal, Cleanup, IsReaped, WaitOver, EndWait;
  }

  /** A pass through wait_for_any_child ends without a child, takes the first that has exited, or sleeps. */
  lemma AnyEffect(s: State, d: seq<nat>, p: Pid)
    requires InvFor(s, d) && Legal(s) && WaitOk(s.pt, p, Any) && (p in s.waiting ==> s.waiting[p] == Any)
    ensures var r := WaitStep(s, p, Any);
      && (s.pt[p].children == [] ==> r.pt == s.pt && r.free == s.free && r.hist == s.hist && WaitOver(s, r, p))
      && (s.pt[p].children != [] && s.pt[p].exited != [] ==>
            var c := s.pt[p].exited[0];
            c < |s.pt| && s.pt[c].pstate == Zombie && IsReaped(s, r, c, p) && WaitOver(s, r, p) && p !in r.asleep)
      && (s.pt[p].children != [] && s.pt[p].exited == [] ==> Sleeps(s, r, p, Any))
  {
    hide InvFor, Cleanup, IsReaped;
    if s.pt[p].children != [] && s.pt[p].exited != [] {
      PassReaps(s, d, p, Any);
      PassEnds(s, p, s.pt[p].exited[0]);
      hide Legal, WaitOver, EndWait;
    } else {
      hide Legal;
    }
  }

  /** WaitChild refuses whatever is not a child in use, waits for the child it names, and for any child
      if it names none. */
  lemma WaitChildEffect(s: State, d: seq<nat>, p: Pid, cpid: Option<int>)
    requires InvFor(s, d) && Legal(s) && Enabled(s, WaitEvent(p, cpid))
    ensures var r := WaitChild(s, p, cpid);
      && (cpid == None ==> WaitOk(s.pt, p, Any) && r == WaitStep(s, p, Any))
      && (cpid.Some? && cpid.value !in s.pt[p].children ==> r == s)
      && (cpid.Some? && cpid.value in s.pt[p].children ==>
            && WaitOk(s.pt, p, Specific(cpid.value)) && r == WaitStep(s, p, Specific(cpid.value)))
  {
    hide HistOk, FreeOk, WaitsOk, ParentsOk;
    assert ListOk(s.pt, p);
    assert RootsOk(s.pt, d);
    if cpid.Some? && 0 <= cpid.value {
      var c: Pid := cpid.value;
      assert c in s.pt[p].children <==> IsChild(s.pt, c, p);
      assert LegalChild(s.pt, p, c) ==> c != 0 && c != INIT;
    }
  }

  /** Init's loop reaps what has exited and goes on, sleeps while nothing has, and lets the thread exit when
      no children are left. */
  lemma ExitingEffect(s: State, d: seq<nat>)
    requires InvFor(s, d) && Legal(s) && WaitOk(s.pt, INIT, Exiting)
    ensures var r := WaitStep(s, INIT, Exiting);
      && (s.pt[INIT].children == [] ==>
            r.pt == s.pt[INIT := s.pt[INIT].(threads := s.pt[INIT].threads - 1,
                                             pstate := if s.pt[INIT].threads == 1 then Zombie else Alive)]
            && WaitOver(s, r, INIT))
      && (s.pt[INIT].children != [] && s.pt[INIT].exited != [] ==>
            var c := s.pt[INIT].exited[0];
            c < |s.pt| && s.pt[c].pstate == Zombie && IsReaped(s, r, c, INIT)
            && INIT in r.waiting && r.waiting[INIT] == Exiting && INIT !in r.asleep)
      && (s.pt[INIT].children != [] && s.pt[INIT].exited == [] ==> Sleeps(s, r, INIT, Exiting))
  {
    hide InvFor, Cleanup, Reaped;
    if s.pt[INIT].children != [] && s.pt[INIT].exited != [] {
      PassReaps(s, d, INIT, Exiting);
      PassEnds(s, INIT, s.pt[INIT].exited[0]);
      hide Legal, WaitOver;
    } else {
      hide Legal, IsReaped;
    }
  }

  // ---------- making processes and threads ----------

  /** Exec fails iff there is no free PCB, and then changes nothing; else it takes the first one. */
  lemma ExecEffect(s: State, d: seq<nat>, p: Pid, task: bool)
    requires InvFor(s, d) && Legal(s) && Active(s, p)
    ensures var (r, n) := Exec(s, p, task);
      && (s.free == [] ==> n == None && r == s)
      && (s.free != [] ==>
            var c := s.free[0];
            && n == Some(c) && Born(s.pt, r.pt, c, p) && r.pt[c].threads == (if task then 1 else 0)
            && r.pt[c].gen == s.hist.next && r.hist == s.hist.(next := s.hist.next + 1)
            && r.free == s.free[1..] && r.count == s.count + 1 && r.waiting == s.waiting && r.asleep == s.asleep)
  {
    if s.free != [] {
      ExecFacts(s, d, p);
      ExecShape(s, p, task);
    }
  }

  /** CreateThread adds one thread to its process. */
  lemma CreateThreadEffect(s: State, p: Pid)
    requires p < |s.pt|
    ensures CreateThread(s, p) == s.(pt := s.pt[p := s.pt[p].(threads := s.pt[p].threads + 1)])
  {}

  // ---------- exiting ----------

  /** One thread less; with the last one of an ordinary process it leaves the exit value in its PCB. */
  lemma ThreadExitEffect(s: State, d: seq<nat>, p: Pid)
    requires InvFor(s, d) && Legal(s) && Active(s, p) && (p == INIT ==> s.pt[p].threads > 1)
    ensures var r := ThreadExit(s, p);
      && r.waiting == s.waiting && r.free == s.free && r.count == s.count && |r.pt| == |s.pt|
      && r.pt[p].threads == s.pt[p].threads - 1 && r.pt[p].exitval == s.pt[p].exitval && r.pt[p].gen == s.pt[p].gen
      && r.pt[p].pstate == (if s.pt[p].threads == 1 then Zombie else Alive)
      && r.hist == (if s.pt[p].threads == 1
                    then s.hist.(left := s.hist.left[s.pt[p].gen := s.pt[p].exitval]) else s.hist)
      && (s.pt[p].threads > 1 ==> r.pt == s.pt[p := r.pt[p]] && r.asleep == s.asleep)
  {
    if s.pt[p].threads == 1 {
      hide HistOk, FreeOk, WaitsOk;
      var b := s.pt[p].(threads := 0);
      InitAlive(s.pt, d, p);
      TouchInv(s, d, p, b);
      var q := DiedForm(s.pt[p := b], d, p);
    }
  }

  /** An ordinary process that dies hands its children and zombies to init, becomes its parent's first exited
      child, and wakes its parent, and init if it had zombies. */
  lemma DieEffect(s: State, d: seq<nat>, p: Pid) returns (q: Pid)
    requires InvFor(s, d) && Legal(s) && INIT < p < |s.pt| && s.pt[p].pstate == Alive && s.pt[p].threads == 1
    requires p !in s.waiting
    ensures var r := ThreadExit(s, p);
      && Died(s.pt[p := s.pt[p].(threads := 0)], r.pt, p, q)
      && r.asleep == s.asleep - {q} - (if s.pt[p].exited != [] then {INIT} else {})
  {
    hide HistOk, FreeOk, WaitsOk;
    var b := s.pt[p].(threads := 0);
    InitAlive(s.pt, d, p);
    TouchInv(s, d, p, b);
    q := DiedForm(s.pt[p := b], d, p);
    ReparentKeepsWoken(s.pt[p := b], d, p);
    hide Died, Emptied, Reparent;
  }

  lemma ReparentKeepsWoken(pt: seq<Pcb>, d: seq<nat>, p: Pid)
    requires TreeOk(pt, d) && INIT < p < |pt| && pt[p].pstate == Alive
    ensures InRange(pt, p) && pt[p].parent.Some?
    ensures Woken(Reparent(pt, p), p) == {pt[p].parent.value} + (if pt[p].exited != [] then {INIT} else {})
  {
    ChildrenOf(pt, d, p);
    assert ParentOk(pt, d, p);
    ReparentForm(pt, p);
    assert Reparent(pt, p)[p] == Adopted(pt, p, p);
  }

  /** Exit(v) by the last thread of an ordinary process leaves `v`; by any other thread it is stored. */
  lemma ExitEffect(s: State, d: seq<nat>, p: Pid, v: int)
    requires InvFor(s, d) && Legal(s) && Enabled(s, ExitEvent(p, v)) && p != INIT
    ensures var r := Exit(s, p, v);
      && |r.pt| == |s.pt| && r.pt[p].exitval == v && r.pt[p].gen == s.pt[p].gen
      && r.pt[p].threads == s.pt[p].threads - 1
      && (s.pt[p].threads == 1 ==>
            r.pt[p].pstate == Zombie && r.hist == s.hist.(left := s.hist.left[s.pt[p].gen := v]))
      && (s.pt[p].threads > 1 ==> r.pt[p].pstate == Alive && r.hist == s.hist)
  {
    hide HistOk, ListsOk, ParentsOk, FreeOk, WaitsOk;
    var b := s.pt[p].(exitval := v);
    var r := s.(pt := s.pt[p := b]);
    TouchInv(s, d, p, b);
    InvLegal(r, d);
    ThreadExitEffect(r, d, p);
  }

  /** Init stores the value and goes into its loop. */
  lemma InitExitEffect(s: State, d: seq<nat>, v: int)
    requires InvFor(s, d) && Legal(s) && Enabled(s, ExitEvent(INIT, v))
    ensures var m := s.(pt := s.pt[INIT := s.pt[INIT].(exitval := v)]);
      InvFor(m, d) && Legal(m) && WaitOk(m.pt, INIT, Exiting) && Exit(s, INIT, v) == WaitStep(m, INIT, Exiting)
  {
    hide HistOk, ListsOk, ParentsOk, FreeOk, WaitsOk;
    var b := s.pt[INIT].(exitval := v);
    TouchInv(s, d, INIT, b);
    InvLegal(s.(pt := s.pt[INIT := b]), d);
  }

  // ---------- exit values over runs ----------

  /** A live process has left nothing yet. */
  lemma LiveLeftNothing(s: State, d: seq<nat>, p: Pid)
    requires InvFor(s, d) && p < |s.pt| && s.pt[p].pstate == Alive
    ensures s.pt[p].gen !in s.hist.left
  {
    assert Used(s.pt, p);
  }

  /** A step leaves the values left as they are, but for that of the process, if any, whose last thread exits. */
  ghost predicate LeavesOnly(s: State, r: State, p: Pid)
    requires p < |s.pt|
  {
    var g := s.pt[p].gen;
    r.hist.left == s.hist.left || (g in r.hist.left && r.hist.left == s.hist.left[g := r.hist.left[g]])
  }

  lemma ThreadExitLeaves(s: State, p: Pid)
    requires InRange(s.pt, p)
    ensures LeavesOnly(s, ThreadExit(s, p), p)
  {}

  lemma WaitLeaves(s: State, p: Pid, w: Wait)
    requires InRange(s.pt, p) && (w.Specific? ==> w.c < |s.pt|)
    requires s.pt[p].exited != [] ==> s.pt[p].exited[0] < |s.pt|
    ensures LeavesOnly(s, WaitStep(s, p, w), p)
  {
    ThreadExitLeaves(s, p);
    hide ThreadExit;
  }

  lemma ExitLeaves(s: State, p: Pid, v: int)
    requires InRange(s.pt, p) && (s.pt[p].exited != [] ==> s.pt[p].exited[0] < |s.pt|)
    ensures LeavesOnly(s, Exit(s, p, v), p)
  {
    var m := s.(pt := s.pt[p := s.pt[p].(exitval := v)]);
    ThreadExitLeaves(m, p);
    if p == INIT { WaitLeaves(m, p, Exiting); }
    hide ThreadExit, WaitStep;
  }

  lemma WaitChildLeaves(s: State, p: Pid, cpid: Option<int>)
    requires InRange(s.pt, p) && (s.pt[p].exited != [] ==> s.pt[p].exited[0] < |s.pt|)
    ensures LeavesOnly(s, WaitChild(s, p, cpid), p)
  {
    WaitLeaves(s, p, Any);
    if cpid.Some? && LegalChild(s.pt, p, cpid.value) { WaitLeaves(s, p, Specific(cpid.value)); }
    hide WaitStep;
  }

  lemma StepLeaves(s: State, e: Event)
    requires Legal(s) && Enabled(s, e) && WaitsOk(s.pt, s.waiting)
    ensures !e.WakeEvent? ==> e.p < |s.pt| && s.pt[e.p].pstate == Alive && LeavesOnly(s, Apply(s, e), e.p)
  {
    match e
    case ThreadExitEvent(p) => ThreadExitLeaves(s, p);
    case ExitEvent(p, v) => ExitLeaves(s, p, v);
    case RecheckEvent(p) => WaitLeaves(s, p, s.waiting[p]);
    case WaitEvent(p, cpid) => WaitChildLeaves(s, p, cpid);
    case _ =>
    hide ThreadExit, WaitStep, Exit, WaitChild;
  }

  lemma StepKeepsLeft(s: State, e: Event, g: nat)
    requires Inv(s) && Legal(s) && Enabled(s, e) && g in s.hist.left
    ensures g in Apply(s, e).hist.left && Apply(s, e).hist.left[g] == s.hist.left[g]
  {
    var d :| InvFor(s, d);
    StepLeaves(s, e);
    if !e.WakeEvent? {
      LiveLeftNothing(s, d, e.p);
      hide Apply;
    }
    hide Enabled, InvFor;
  }

  /** The status of Exit is the status of WaitChild: a process whose last thread leaves by Exit(v) has left
      `v` ever after, whoever reaps it gets `v`, and once init has no children somebody has. */
  lemma ExitDelivers(ss: seq<State>, es: seq<Event>, n: nat, i: nat, p: Pid, v: int)
    requires INIT < n && IsRun(ss, es) && ss[0] == Booted(n)
    requires i < |es| && es[i] == ExitEvent(p, v) && p != INIT && p < |ss[i].pt| && ss[i].pt[p].threads == 1
    ensures var s, g := ss[|es|], ss[i].pt[p].gen;
      && g in s.hist.left && s.hist.left[g] == v
      && (forall k :: 0 <= k < |s.hist.reaped| && s.hist.reaped[k].0 == g ==> s.hist.reaped[k].1 == v)
      && INIT < |s.pt| && (s.pt[INIT].children == [] ==> WasReaped(s.hist.reaped, g))
  {
    BootedInv(n);
    RunInv(ss, es);
    assert Next(ss[i], es[i], ss[i + 1]);
    var d :| InvFor(ss[i], d);
    var g := ss[i].pt[p].gen;
    ExitEffect(ss[i], d, p, v);
    for j := i + 1 to |es|
      invariant g in ss[j].hist.left && ss[j].hist.left[g] == v
    {
      assert Next(ss[j], es[j], ss[j + 1]);
      StepKeepsLeft(ss[j], es[j], g);
    }
    LeftIsReaped(ss[|es|], g);
  }

  lemma LeftIsReaped(s: State, g: nat)
    requires Inv(s) && g in s.hist.left
    ensures forall k :: 0 <= k < |s.hist.reaped| && s.hist.reaped[k].0 == g ==> s.hist.reaped[k].1 == s.hist.left[g]
    ensures INIT < |s.pt| && (s.pt[INIT].children == [] && g != 1 ==> g == 0 || WasReaped(s.hist.reaped, g))
  {
    var d :| InvFor(s, d);
    if s.pt[INIT].children == [] {
      InitAlone(s.pt, d);
      assert Held(s.pt, g) || WasReaped(s.hist.reaped, g);
    }
  }

  // ---------- answers ----------

  lemma SpecificAnswers(s: State, p: Pid, c: Pid)
    requires Inv(s) && Legal(s) && WaitOk(s.pt, p, Specific(c)) && (p in s.waiting ==> s.waiting[p] == Specific(c))
    ensures Answers(s, WaitStep(s, p, Specific(c)), p,
                    if s.pt[c].pstate == Alive then Asleep else Got(c, s.pt[c].exitval))
  {
    var d :| InvFor(s, d);
    SpecificEffect(s, d, p, c);
  }

  lemma AnyAnswers(s: State, p: Pid)
    requires Inv(s) && Legal(s) && WaitOk(s.pt, p, Any) && (p in s.waiting ==> s.waiting[p] == Any)
    ensures s.pt[p].exited != [] ==> s.pt[p].exited[0] < |s.pt|
    ensures Answers(s, WaitStep(s, p, Any), p,
                    if s.pt[p].children == [] then NoChild
                    else if s.pt[p].exited == [] then Asleep
                    else Got(s.pt[p].exited[0], s.pt[s.pt[p].exited[0]].exitval))
  {
    var d :| InvFor(s, d);
    AnyEffect(s, d, p);
    if s.pt[p].children != [] && s.pt[p].exited != [] { ReapsChild(s, d, p, Any); }
  }

  lemma RefusedAnswers(s: State, p: Pid)
    requires p !in s.waiting
    ensures Answers(s, s, p, NoChild)
  {}

  /** The legality checks of wait_for_specific_child accept exactly the children. */
  lemma ChildIffLegal(s: State, d: seq<nat>, p: Pid, cpid: Option<int>)
    requires InvFor(s, d) && Legal(s) && Active(s, p)
    ensures 0 < p && WaitOk(s.pt, p, Any)
    ensures cpid.Some? ==> (LegalChild(s.pt, p, cpid.value) <==> cpid.value in s.pt[p].children)
    ensures cpid.Some? && LegalChild(s.pt, p, cpid.value) ==> WaitOk(s.pt, p, Specific(cpid.value))
  {
    hide HistOk, FreeOk, WaitsOk, ParentsOk;
    assert ListOk(s.pt, p);
    if cpid.Some? && 0 <= cpid.value {
      var c: Pid := cpid.value;
      assert c in s.pt[p].children <==> IsChild(s.pt, c, p);
    }
  }

  /** Exit stores its value, and the last thread of an ordinary process leaves it behind. */
  lemma ExitAnswers(s: State, d: seq<nat>, p: Pid, v: int)
    requires InvFor(s, d) && Legal(s) && Enabled(s, ExitEvent(p, v))
    ensures var m := s.(pt := s.pt[p := s.pt[p].(exitval := v)]);
      Inv(m) && InRange(m.pt, p) && (p == INIT ==> WaitOk(m.pt, INIT, Exiting)) && Inv(Exit(s, p, v))
    ensures var r := Exit(s, p, v);
      && |r.pt| == |s.pt| && r.pt[p].exitval == v
      && (p != INIT && s.pt[p].threads == 1 ==>
            r.pt[p].pstate == Zombie && r.hist.left == s.hist.left[s.pt[p].gen := v])
  {
    ExitInv(s, d, p, v);
    var m := s.(pt := s.pt[p := s.pt[p].(exitval := v)]);
    if p == INIT {
      InitExitEffect(s, d, v);
      ExitingEffect(m, d);
      InitKeepsValue(m, d);
    } else {
      TouchInv(s, d, p, s.pt[p].(exitval := v));
      InvLegal(m, d);
      ExitEffect(s, d, p, v);
    }
  }

  lemma InitKeepsValue(s: State, d: seq<nat>)
    requires InvFor(s, d) && Legal(s) && WaitOk(s.pt, INIT, Exiting)
    ensures var r := WaitStep(s, INIT, Exiting); |r.pt| == |s.pt| && r.pt[INIT].exitval == s.pt[INIT].exitval
  {
    ExitingEffect(s, d);
    hide InvFor, WaitStep;
  }
}
