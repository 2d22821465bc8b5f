/** No wakeup is lost in WaitChild: a process asleep there has no zombie it could reap. */
module ProcessWakeups {
  import opened Processes
  import opened ProcessTree
  import opened ProcessRuns

  /** The waiter of `p` has nothing to do: its child is alive, or it has children and none has exited. */
  ghost predicate SleeperOk(pt: seq<Pcb>, p: Pid, w: Wait) {
    && p < |pt|
    && match w
       case Specific(c) => c < |pt| && pt[c].pstate == Alive
       case _ => pt[p].children != [] && pt[p].exited == []
  }

  ghost predicate SleepersOk(pt: seq<Pcb>, waiting: map<Pid, Wait>, asleep: set<Pid>) {
    forall p :: p in asleep ==> p in waiting && SleeperOk(pt, p, waiting[p])
  }

  ghost predicate Wakeful(s: State) {
    SleepersOk(s.pt, s.waiting, s.asleep)
  }

  /** What a step leaves of a sleeper it does not wake: its waiting, its lists, and the child it awaits. */
  ghost predicate Undisturbed(pt: seq<Pcb>, pt': seq<Pcb>, p: Pid, w: Wait)
    requires p < |pt| == |pt'|
  {
    && (pt[p].children != [] ==> pt'[p].children != [])
    && (pt[p].exited == [] ==> pt'[p].exited == [])
    && (w.Specific? && w.c < |pt| && pt[w.c].pstate == Alive ==> pt'[w.c].pstate == Alive)
  }

  lemma StillAsleep(s: State, r: State)
    requires Wakeful(s) && |r.pt| == |s.pt| && r.asleep <= s.asleep
    requires forall p :: p in r.asleep && p in s.waiting ==> p in r.waiting && r.waiting[p] == s.waiting[p]
    requires forall p :: p in r.asleep && p in s.waiting && p < |s.pt| ==> Undisturbed(s.pt, r.pt, p, s.waiting[p])
    ensures Wakeful(r)
  {
    forall p | p in r.asleep ensures p in r.waiting && SleeperOk(r.pt, p, r.waiting[p]) {
      assert SleeperOk(s.pt, p, s.waiting[p]);
    }
  }

  lemma ExecWakeful(s: State, d: seq<nat>, p: Pid, task: bool)
    requires InvFor(s, d) && Legal(s) && Active(s, p) && Wakeful(s)
    ensures Wakeful(Exec(s, p, task).0)
  {
    hide HistOk, ListsOk, ParentsOk, WaitsOk;
    if s.free != [] {
      assert s.free[0] in s.free;
      ExecShape(s, p, task);
      StillAsleep(s, Exec(s, p, task).0);
    }
  }

  /** Reaping by the waiter of `q`, which is awake then. */
  lemma CleanupWakeful(s: State, d: seq<nat>, c: Pid, q: Pid, r: State)
    requires InvFor(s, d) && Legal(s) && IsChild(s.pt, c, q) && s.pt[c].pstate == Zombie && Wakeful(s)
    requires r.pt == Cleanup(s, c).pt && r.asleep == s.asleep - {q}
    requires forall p :: p in s.waiting && p != q ==> p in r.waiting && r.waiting[p] == s.waiting[p]
    ensures Wakeful(r)
  {
    assert ParentOk(s.pt, d, c);
    CleanupShape(s, c, q);
    forall p | p in s.waiting ensures WaitOk(s.pt, p, s.waiting[p]) { WaiterFacts(s, p); }
    hide HistOk, ListsOk, FreeOk, InvFor, Cleanup;
    StillAsleep(s, r);
  }

  /** A process that exits wakes its parent, and init when it leaves zombies to it. */
  lemma DieWakeful(s: State, d: seq<nat>, cur: Pid)
    requires InvFor(s, d) && Legal(s) && INIT < cur < |s.pt| && s.pt[cur].pstate == Alive && s.pt[cur].threads == 1
    requires cur !in s.waiting && Wakeful(s)
    ensures Wakeful(ThreadExit(s, cur))
  {
    hide HistOk, FreeOk, WaitsOk, Died, Emptied, HandOver;
    var b := s.pt[cur].(threads := 0);
    TouchInv(s, d, cur, b);
    var pt := s.pt[cur := b];
    var q := DiedForm(pt, d, cur);
    var r := ThreadExit(s, cur);
    DiedLeaves(pt, r.pt, d, cur, q);
    ReparentKeepsCur(pt, d, cur);
    forall p | p in r.asleep && p in s.waiting && p < |s.pt| ensures Undisturbed(s.pt, r.pt, p, s.waiting[p]) {
      WaiterFacts(s, p);
    }
    hide Reparent;
    StillAsleep(s, r);
  }

  /** The reparenting loop does not touch what the broadcasts go by. */
  lemma ReparentKeepsCur(pt: seq<Pcb>, d: seq<nat>, cur: Pid)
    requires TreeOk(pt, d) && INIT < cur < |pt| && pt[cur].pstate == Alive
    ensures InRange(pt, cur) && Woken(Reparent(pt, cur), cur) == Woken(pt, cur)
  {
    ChildrenOf(pt, d, cur);
    ReparentForm(pt, cur);
    assert Reparent(pt, cur)[cur] == Adopted(pt, cur, cur);
  }

  /** Who is not woken by an exit sees nothing of it. */
  lemma DiedLeaves(pt: seq<Pcb>, pt': seq<Pcb>, d: seq<nat>, cur: Pid, q: Pid)
    requires TreeOk(pt, d) && Died(pt, pt', cur, q) && pt[cur].pstate == Alive
    ensures forall p: Pid :: p < |pt| && p != cur && p !in Woken(pt, cur) ==>
      (pt[p].children != [] ==> pt'[p].children != []) && (pt[p].exited == [] ==> pt'[p].exited == [])
    ensures forall c: Pid :: c < |pt| && c != cur ==> pt'[c].pstate == pt[c].pstate
  {
    ChildrenOf(pt, d, cur);
    assert ParentOk(pt, d, cur);
    DiedRelation(pt, pt', cur, q);
  }

  lemma TouchWakeful(s: State, p: Pid, b: Pcb)
    requires Wakeful(s) && p < |s.pt| && b == s.pt[p].(threads := b.threads, exitval := b.exitval)
    ensures Wakeful(s.(pt := s.pt[p := b]))
  {
    StillAsleep(s, s.(pt := s.pt[p := b]));
  }

  lemma ThreadExitWakeful(s: State, d: seq<nat>, p: Pid)
    requires InvFor(s, d) && Legal(s) && Active(s, p) && (p == INIT ==> s.pt[p].threads > 1) && Wakeful(s)
    ensures Wakeful(ThreadExit(s, p))
  {
    hide HistOk, ListsOk, ParentsOk, FreeOk, WaitsOk;
    if s.pt[p].threads == 1 {
      DieWakeful(s, d, p);
    } else {
      TouchWakeful(s, p, s.pt[p].(threads := s.pt[p].threads - 1));
    }
  }

  lemma WaitStepWakeful(s: State, d: seq<nat>, p: Pid, w: Wait)
    requires InvFor(s, d) && Legal(s) && WaitOk(s.pt, p, w) && 0 < p && Wakeful(s)
    ensures Wakeful(WaitStep(s, p, w))
  {
    hide HistOk, ListsOk, ParentsOk, FreeOk, WaitsOk, TreeOk;
    var r := WaitStep(s, p, w);
    if Reaps(s, p, w).Some? {
      ReapsChild(s, d, p, w);
      CleanupWakeful(s, d, Reaps(s, p, w).value, p, r);
    } else if Leaves(s, p, w) && w.Exiting? {
      InitLeaves(s, d);
    }
  }

  /** Init leaves when it has no children; nobody is left to sleep. */
  lemma InitLeaves(s: State, d: seq<nat>)
    requires InvFor(s, d) && Legal(s) && WaitOk(s.pt, INIT, Exiting) && s.pt[INIT].children == [] && Wakeful(s)
    ensures Wakeful(WaitStep(s, INIT, Exiting))
  {
    hide HistOk, FreeOk;
    InitAlone(s.pt, d);
    forall p | p in s.asleep ensures p == INIT { WaiterFacts(s, p); }
    assert WaitStep(s, INIT, Exiting).asleep == {};
  }

  lemma StepWakeful(s: State, e: Event)
    requires Inv(s) && Legal(s) && Enabled(s, e) && Wakeful(s)
    ensures Wakeful(Apply(s, e))
  {
    var d :| InvFor(s, d);
    hide HistOk, ListsOk, ParentsOk, FreeOk, WaitsOk;
    match e
    case ExecEvent(p, task) => ExecWakeful(s, d, p, task);
    case CreateEvent(p) => TouchWakeful(s, p, s.pt[p].(threads := s.pt[p].threads + 1));
    case WaitEvent(p, cpid) =>
      if cpid.None? {
        WaitStepWakeful(s, d, p, Any);
      } else if LegalChild(s.pt, p, cpid.value) {
        assert IsChild(s.pt, cpid.value, p);
        WaitStepWakeful(s, d, p, Specific(cpid.value));
      }
    case RecheckEvent(p) =>
      WaiterFacts(s, p);
      WaitStepWakeful(s, d, p, s.waiting[p]);
    case WakeEvent(p) => StillAsleep(s, Apply(s, e));
    case ThreadExitEvent(p) => ThreadExitWakeful(s, d, p);
    case ExitEvent(p, v) => ExitWakeful(s, d, p, v);
  }

  lemma ExitWakeful(s: State, d: seq<nat>, p: Pid, v: int)
    requires InvFor(s, d) && Legal(s) && Enabled(s, ExitEvent(p, v)) && Wakeful(s)
    ensures Wakeful(Exit(s, p, v))
  {
    hide HistOk, ListsOk, ParentsOk, FreeOk, WaitsOk;
    var b := s.pt[p].(exitval := v);
    var r := s.(pt := s.pt[p := b]);
    TouchInv(s, d, p, b);
    TouchWakeful(s, p, b);
    InvLegal(r, d);
    if p == INIT {
      WaitStepWakeful(r, d, p, Exiting);
    } else {
      ThreadExitWakeful(r, d, p);
    }
  }

  /** In every state of every run from boot, a thread asleep in WaitChild has nothing to reap: the child
      it awaits is alive, or its process has children and none of them has exited.  That holds also for
      init, to which exiting processes hand their children, dead and alive. */
  lemma RunWakeful(ss: seq<State>, es: seq<Event>, n: nat)
    requires INIT < n && IsRun(ss, es) && ss[0] == Booted(n)
    ensures forall i :: 0 <= i < |ss| ==> Inv(ss[i]) && Legal(ss[i]) && Wakeful(ss[i])
  {
    BootedInv(n);
    BootedForm(n);
    RunInv(ss, es);
    for j := 0 to |es|
      invariant forall i :: 0 <= i <= j ==> Wakeful(ss[i])
    {
      assert Next(ss[j], es[j], ss[j + 1]);
      StepWakeful(ss[j], es[j]);
    }
  }
}
