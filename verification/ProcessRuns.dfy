/** Whole runs of the process calls, with at most one thread of each process inside WaitChild. */
module ProcessRuns {
  import opened Sequences
  import opened Processes
  import opened ProcessTree

  // ---------- the rest of the invariant ----------

  /** The free list holds the FREE entries, once each, threaded through `parent`. */
  ghost predicate FreeOk(pt: seq<Pcb>, free: seq<Pid>, count: int) {
    && NoDup(free) && count + |free| == |pt|
    && (forall p: Pid :: p in free <==> p < |pt| && pt[p].pstate == Free)
    && (forall i :: 0 <= i < |free| ==> free[i] < |pt| && pt[free[i]].parent == Head(free[i + 1..]))
  }

  ghost predicate WaitOk(pt: seq<Pcb>, p: Pid, w: Wait) {
    && p < |pt| && pt[p].pstate == Alive && pt[p].threads >= 1
    && (w.Specific? ==> IsChild(pt, w.c, p))
    && (w.Exiting? ==> p == INIT)
  }

  ghost predicate WaitsOk(pt: seq<Pcb>, waiting: map<Pid, Wait>) {
    forall p :: p in waiting ==> WaitOk(pt, p, waiting[p])
  }

  ghost predicate Used(pt: seq<Pcb>, p: Pid) {
    p < |pt| && pt[p].pstate != Free
  }

  ghost predicate HolderOk(b: Pcb, h: History) {
    && b.gen < h.next
    && (b.gen in h.left <==> b.pstate == Zombie)
    && (b.pstate == Zombie ==> h.left[b.gen] == b.exitval)
    && forall i :: 0 <= i < |h.reaped| ==> h.reaped[i].0 != b.gen
  }

  ghost predicate Held(pt: seq<Pcb>, g: nat) {
    exists p: Pid :: Used(pt, p) && pt[p].gen == g
  }

  ghost predicate WasReaped(reaped: seq<(nat, int)>, g: nat) {
    exists i :: 0 <= i < |reaped| && reaped[i].0 == g
  }

  /** Each process ever made is in the table or has been reaped, once, with the value it left. */
  ghost predicate HistOk(pt: seq<Pcb>, h: History) {
    && (forall p: Pid :: Used(pt, p) ==> HolderOk(pt[p], h))
    && (forall p: Pid, q: Pid :: Used(pt, p) && Used(pt, q) && p != q ==> pt[p].gen != pt[q].gen)
    && (forall i, j :: 0 <= i < j < |h.reaped| ==> h.reaped[i].0 != h.reaped[j].0)
    && (forall i :: 0 <= i < |h.reaped| ==> h.reaped[i].0 in h.left && h.left[h.reaped[i].0] == h.reaped[i].1)
    && (forall g :: g in h.left ==> g < h.next)
    && (forall g: nat :: g < h.next ==> Held(pt, g) || WasReaped(h.reaped, g))
  }

  ghost predicate FirstTwo(pt: seq<Pcb>) {
    INIT < |pt| && pt[0].gen == 0 && pt[INIT].gen == 1
  }

  ghost predicate InvFor(s: State, d: seq<nat>) {
    && TreeOk(s.pt, d) && FreeOk(s.pt, s.free, s.count) && WaitsOk(s.pt, s.waiting)
    && HistOk(s.pt, s.hist) && FirstTwo(s.pt)
  }

  ghost predicate Inv(s: State) {
    exists d :: InvFor(s, d)
  }

  // ---------- events ----------

  datatype Event =
    | ExecEvent(p: Pid, task: bool) | CreateEvent(p: Pid)
    | WaitEvent(p: Pid, cpid: Option<int>) | RecheckEvent(p: Pid) | WakeEvent(p: Pid)
    | ThreadExitEvent(p: Pid) | ExitEvent(p: Pid, v: int)

  /** Process `p` has a thread that is not inside WaitChild. */
  ghost predicate Active(s: State, p: Pid) {
    p < |s.pt| && s.pt[p].pstate == Alive && s.pt[p].threads > if p in s.waiting then 1 else 0
  }

  /** One thread of a process waits at a time, and the last thread of init leaves through Exit.  A
      `WakeEvent` is a wakeup for no reason. */
  ghost predicate Enabled(s: State, e: Event) {
    match e
    case ExecEvent(p, task) => Active(s, p)
    case CreateEvent(p) => Active(s, p)
    case WaitEvent(p, cpid) => Active(s, p) && p !in s.waiting
    case RecheckEvent(p) => p in s.waiting && p !in s.asleep
    case WakeEvent(p) => p in s.asleep
    case ThreadExitEvent(p) => Active(s, p) && (p == INIT ==> s.pt[p].threads > 1)
    case ExitEvent(p, v) => Active(s, p) && (p == INIT ==> p !in s.waiting)
  }

  /** The indices the code relies on. */
  ghost predicate Legal(s: State) {
    && INIT < |s.pt|
    && (forall p: Pid :: p < |s.pt| ==> Below(s.pt[p].children, |s.pt|) && Below(s.pt[p].exited, |s.pt|))
    && Below(s.free, |s.pt|)
    && (forall p :: p in s.waiting ==> p < |s.pt| && (s.waiting[p].Specific? ==> s.waiting[p].c < |s.pt|))
  }

  ghost function Apply(s: State, e: Event): State
    requires Legal(s) && Enabled(s, e)
  {
    match e
    case ExecEvent(p, task) => Exec(s, p, task).0
    case CreateEvent(p) => CreateThread(s, p)
    case WaitEvent(p, cpid) => WaitChild(s, p, cpid)
    case RecheckEvent(p) => WaitStep(s, p, s.waiting[p])
    case WakeEvent(p) => s.(asleep := s.asleep - {p})
    case ThreadExitEvent(p) => ThreadExit(s, p)
    case ExitEvent(p, v) => Exit(s, p, v)
  }

  lemma InvLegal(s: State, d: seq<nat>)
    requires InvFor(s, d)
    ensures Legal(s)
  {
    hide HistOk, ListsOk;
    forall p: Pid | p < |s.pt| ensures Below(s.pt[p].children, |s.pt|) && Below(s.pt[p].exited, |s.pt|) {
      ChildrenOf(s.pt, d, p);
    }
    forall p | p in s.waiting ensures WaitOk(s.pt, p, s.waiting[p]) {}
  }

  // ---------- history under the four kinds of change ----------

  /** Every PCB but `x` keeps its state, number and exit value. */
  ghost predicate Others(pt: seq<Pcb>, pt': seq<Pcb>, x: Pid) {
    && |pt'| == |pt| && x < |pt|
    && forall p: Pid :: p < |pt| && p != x ==>
         pt'[p].pstate == pt[p].pstate && pt'[p].gen == pt[p].gen && pt'[p].exitval == pt[p].exitval
  }

  lemma HistBorn(pt: seq<Pcb>, pt': seq<Pcb>, h: History, n: Pid)
    requires HistOk(pt, h) && Others(pt, pt', n) && pt[n].pstate == Free
    requires pt'[n].pstate == Alive && pt'[n].gen == h.next
    ensures HistOk(pt', h.(next := h.next + 1))
  {
    forall g: nat | g < h.next + 1 ensures Held(pt', g) || WasReaped(h.reaped, g) {
      if g == h.next {
        assert Used(pt', n);
      } else if !WasReaped(h.reaped, g) {
        var p: Pid :| Used(pt, p) && pt[p].gen == g;
        assert Used(pt', p);
      }
    }
    forall p: Pid | Used(pt', p) ensures HolderOk(pt'[p], h.(next := h.next + 1)) {
      if p != n { assert Used(pt, p); }
    }
    assert forall p: Pid :: Used(pt', p) && p != n ==> Used(pt, p);
  }

  lemma HistReaped(pt: seq<Pcb>, pt': seq<Pcb>, h: History, c: Pid)
    requires HistOk(pt, h) && Others(pt, pt', c) && pt[c].pstate == Zombie && pt'[c].pstate == Free
    ensures HistOk(pt', h.(reaped := h.reaped + [(pt[c].gen, pt[c].exitval)]))
  {
    var r := h.reaped + [(pt[c].gen, pt[c].exitval)];
    assert Used(pt, c);
    forall g: nat | g < h.next ensures Held(pt', g) || WasReaped(r, g) {
      if WasReaped(h.reaped, g) {
        var i :| 0 <= i < |h.reaped| && h.reaped[i].0 == g;
        assert r[i].0 == g;
      } else {
        var p: Pid :| Used(pt, p) && pt[p].gen == g;
        if p == c { assert r[|h.reaped|].0 == g; } else { assert Used(pt', p); }
      }
    }
    assert forall p: Pid :: Used(pt', p) ==> Used(pt, p) && p != c;
  }

  lemma HistDied(pt: seq<Pcb>, pt': seq<Pcb>, h: History, cur: Pid)
    requires HistOk(pt, h) && Others(pt, pt', cur) && pt[cur].pstate == Alive && pt'[cur].pstate == Zombie
    requires pt'[cur].gen == pt[cur].gen && pt'[cur].exitval == pt[cur].exitval
    ensures HistOk(pt', h.(left := h.left[pt[cur].gen := pt[cur].exitval]))
  {
    assert forall p: Pid :: Used(pt', p) <==> Used(pt, p);
    assert Used(pt, cur);
    forall g: nat | g < h.next ensures Held(pt', g) || WasReaped(h.reaped, g) {
      if !WasReaped(h.reaped, g) {
        var p: Pid :| Used(pt, p) && pt[p].gen == g;
        assert Used(pt', p);
      }
    }
  }

  lemma HistSame(pt: seq<Pcb>, pt': seq<Pcb>, h: History, p: Pid)
    requires HistOk(pt, h) && Others(pt, pt', p) && pt[p].pstate == Alive
    requires pt'[p].pstate == Alive && pt'[p].gen == pt[p].gen
    ensures HistOk(pt', h)
  {
    assert forall q: Pid :: Used(pt', q) <==> Used(pt, q);
    forall g: nat | g < h.next ensures Held(pt', g) || WasReaped(h.reaped, g) {
      if !WasReaped(h.reaped, g) {
        var q: Pid :| Used(pt, q) && pt[q].gen == g;
        assert Used(pt', q);
      }
    }
  }

  // ---------- the free list ----------

  lemma FreePop(pt: seq<Pcb>, pt': seq<Pcb>, free: seq<Pid>, count: int)
    requires FreeOk(pt, free, count) && free != [] && Others(pt, pt', free[0])
    requires pt'[free[0]].pstate != Free
    requires forall p: Pid :: p < |pt| && p != free[0] && pt[p].pstate == Free ==> pt'[p].parent == pt[p].parent
    ensures FreeOk(pt', free[1..], count + 1)
  {
    assert free == [free[0]] + free[1..];
    forall i | 0 <= i < |free[1..]|
      ensures free[1..][i] < |pt| && pt'[free[1..][i]].parent == Head(free[1..][i + 1..])
    {
      assert free[1..][i] == free[i + 1] && free[1..][i + 1..] == free[i + 2..];
      assert free[i + 1] in free;
    }
  }

  lemma FreePush(pt: seq<Pcb>, pt': seq<Pcb>, free: seq<Pid>, count: int, c: Pid)
    requires FreeOk(pt, free, count) && Others(pt, pt', c) && pt[c].pstate != Free
    requires pt'[c].pstate == Free && pt'[c].parent == Head(free)
    requires forall p: Pid :: p < |pt| && pt[p].pstate == Free ==> pt'[p].parent == pt[p].parent
    ensures FreeOk(pt', [c] + free, count - 1)
  {
    var f := [c] + free;
    ConsNoDup(c, free);
    forall i | 0 <= i < |f| ensures f[i] < |pt| && pt'[f[i]].parent == Head(f[i + 1..]) {
      if i == 0 {
        assert f[1..] == free;
      } else {
        assert f[i] == free[i - 1] && f[i + 1..] == free[i..] && free[i - 1] in free;
      }
    }
  }

  lemma FreeSame(pt: seq<Pcb>, pt': seq<Pcb>, free: seq<Pid>, count: int)
    requires FreeOk(pt, free, count) && |pt'| == |pt|
    requires forall p: Pid :: p < |pt| ==> (pt'[p].pstate == Free <==> pt[p].pstate == Free)
    requires forall p: Pid :: p < |pt| && pt[p].pstate == Free ==> pt'[p].parent == pt[p].parent
    ensures FreeOk(pt', free, count)
  {
    forall i | 0 <= i < |free| ensures free[i] < |pt| && pt'[free[i]].parent == Head(free[i + 1..]) {
      assert free[i] in free;
    }
  }

  /** process_count is the number of entries in use. */
  lemma CountExact(s: State)
    requires FreeOk(s.pt, s.free, s.count)
    ensures s.count == |set p: Pid | p < |s.pt| && s.pt[p].pstate != Free|
  {
    var used := set p: Pid | p < |s.pt| && s.pt[p].pstate != Free;
    var all := UpTo(|s.pt|);
    assert used == all - Elems(s.free);
    ElemsSize(s.free);
    assert Elems(s.free) <= all;
  }

  lemma {:induction false} ElemsSize(q: seq<Pid>)
    requires NoDup(q)
    ensures |Elems(q)| == |q|
  {
    if q != [] {
      ElemsSize(q[1..]);
      assert q[0] !in Elems(q[1..]);
      assert q == [q[0]] + q[1..];
      assert Elems(q) == {q[0]} + Elems(q[1..]);
    }
  }

  // ---------- the waiting threads ----------

  lemma WaitsKeep(pt: seq<Pcb>, pt': seq<Pcb>, waiting: map<Pid, Wait>)
    requires WaitsOk(pt, waiting) && |pt'| == |pt|
    requires forall p :: p in waiting && p < |pt| ==> pt'[p].pstate == Alive && pt'[p].threads >= 1
    requires forall p, c :: p in waiting && IsChild(pt, c, p) && waiting[p] == Specific(c) ==> IsChild(pt', c, p)
    ensures WaitsOk(pt', waiting)
  {
    forall p | p in waiting ensures WaitOk(pt', p, waiting[p]) {
      assert WaitOk(pt, p, waiting[p]);
      if waiting[p].Specific? { assert IsChild(pt, waiting[p].c, p); }
    }
  }

  lemma WaiterFacts(s: State, p: Pid)
    requires WaitsOk(s.pt, s.waiting) && p in s.waiting
    ensures WaitOk(s.pt, p, s.waiting[p])
  {}

  // ---------- the steps ----------

  lemma ExecFacts(s: State, d: seq<nat>, p: Pid)
    requires TreeOk(s.pt, d) && FreeOk(s.pt, s.free, s.count) && Active(s, p)
    ensures 0 < p && s.pt[p].pstate == Alive
    ensures s.free != [] ==> INIT < s.free[0] < |s.pt| && s.pt[s.free[0]].pstate == Free
  {
    if s.free != [] { assert s.free[0] in s.free; }
  }

  lemma ExecInv(s: State, d: seq<nat>, p: Pid, task: bool)
    requires InvFor(s, d) && Legal(s) && Active(s, p)
    ensures Inv(Exec(s, p, task).0)
  {
    hide HistOk, TreeOk, WaitsOk, FreeOk, Born;
    ExecFacts(s, d, p);
    if s.free != [] {
      var n, r := s.free[0], Exec(s, p, task).0;
      ExecShape(s, p, task);
      HistBorn(s.pt, r.pt, s.hist, n);
      FreePop(s.pt, r.pt, s.free, s.count);
      ExecWaits(s, p, task);
      var d' := BornTree(s.pt, r.pt, d, n, p);
      assert InvFor(r, d');
    } else {
      assert InvFor(s, d);
    }
  }

  lemma ExecShape(s: State, p: Pid, task: bool)
    requires Legal(s) && Active(s, p) && s.free != [] && s.pt[s.free[0]].pstate == Free && INIT < s.free[0]
    ensures Born(s.pt, Exec(s, p, task).0.pt, s.free[0], p) && Exec(s, p, task).1 == Some(s.free[0])
    ensures Exec(s, p, task).0.pt[s.free[0]].threads == if task then 1 else 0
    ensures Others(s.pt, Exec(s, p, task).0.pt, s.free[0])
  {}

  lemma ExecWaits(s: State, p: Pid, task: bool)
    requires Legal(s) && Active(s, p) && s.free != [] && s.pt[s.free[0]].pstate == Free && INIT < s.free[0]
    requires WaitsOk(s.pt, s.waiting)
    ensures WaitsOk(Exec(s, p, task).0.pt, s.waiting)
  {
    var r := Exec(s, p, task).0;
    ExecShape(s, p, task);
    forall q | q in s.waiting ensures WaitOk(s.pt, q, s.waiting[q]) {}
    WaitsKeep(s.pt, r.pt, s.waiting);
  }

  lemma CleanupTree(s: State, d: seq<nat>, c: Pid, q: Pid)
    requires TreeOk(s.pt, d) && FirstTwo(s.pt) && IsChild(s.pt, c, q) && s.pt[c].pstate == Zombie
    ensures q < |s.pt| && q != c && TreeOk(Cleanup(s, c).pt, d) && FirstTwo(Cleanup(s, c).pt)
    ensures Cleanup(s, c).pt[q].pstate == Alive && Cleanup(s, c).pt[q].threads == s.pt[q].threads
  {
    assert ParentOk(s.pt, d, c);
    CleanupShape(s, c, q);
    hide ListsOk, ParentsOk, ThreadsOk, Cleanup;
    ReapedTree(s.pt, Cleanup(s, c).pt, d, c, q);
  }

  lemma CleanupHist(s: State, c: Pid, q: Pid)
    requires HistOk(s.pt, s.hist) && c < |s.pt| && q < |s.pt| && q != c && s.pt[c].parent == Some(q)
    requires s.pt[c].pstate == Zombie
    ensures HistOk(Cleanup(s, c).pt, Cleanup(s, c).hist)
  {
    CleanupShape(s, c, q);
    hide HistOk;
    HistReaped(s.pt, Cleanup(s, c).pt, s.hist, c);
  }

  /** Reaping by the one waiter of process `q`. */
  lemma CleanupInv(s: State, d: seq<nat>, c: Pid, q: Pid)
    requires InvFor(s, d) && Legal(s) && IsChild(s.pt, c, q) && s.pt[c].pstate == Zombie
    ensures InvFor(Cleanup(s, c).(waiting := s.waiting - {q}), d)
    ensures q < |s.pt| && Cleanup(s, c).pt[q].pstate == Alive && Cleanup(s, c).pt[q].threads == s.pt[q].threads
  {
    hide HistOk, TreeOk, WaitsOk, FreeOk, FirstTwo, Cleanup, Legal;
    CleanupTree(s, d, c, q);
    CleanupHist(s, c, q);
    CleanupUsed(s, c);
    CleanupWaits(s, c, q);
  }

  lemma CleanupShape(s: State, c: Pid, q: Pid)
    requires c < |s.pt| && q < |s.pt| && q != c && s.pt[c].parent == Some(q)
    ensures Reaped(s.pt, Cleanup(s, c).pt, c, q) && Others(s.pt, Cleanup(s, c).pt, c)
    ensures Cleanup(s, c).pt[c].parent == Head(s.free)
    ensures forall p: Pid :: p < |s.pt| && p != c ==> Cleanup(s, c).pt[p].parent == s.pt[p].parent
  {}

  lemma CleanupWaits(s: State, c: Pid, q: Pid)
    requires WaitsOk(s.pt, s.waiting) && IsChild(s.pt, c, q) && q < |s.pt| && q != c && s.pt[c].pstate == Zombie
    ensures WaitsOk(Cleanup(s, c).pt, s.waiting - {q})
  {
    CleanupShape(s, c, q);
    forall p | p in s.waiting ensures WaitOk(s.pt, p, s.waiting[p]) {}
    WaitsKeep(s.pt, Cleanup(s, c).pt, s.waiting - {q});
  }

  /** A change to the thread count or exit value of a live process. */
  lemma TouchInv(s: State, d: seq<nat>, p: Pid, b: Pcb)
    requires InvFor(s, d) && p < |s.pt| && 0 < p && s.pt[p].pstate == Alive
    requires b == s.pt[p].(threads := b.threads, exitval := b.exitval) && b.threads >= 0
    requires p in s.waiting ==> b.threads >= 1
    ensures InvFor(s.(pt := s.pt[p := b]), d)
  {
    hide HistOk, ListsOk, ParentsOk, FreeOk, WaitsOk;
    var pt' := s.pt[p := b];
    SameShapeOk(s.pt, pt', d);
    HistSame(s.pt, pt', s.hist, p);
    FreeSame(s.pt, pt', s.free, s.count);
    forall q | q in s.waiting ensures WaitOk(s.pt, q, s.waiting[q]) { WaiterFacts(s, q); }
    WaitsKeep(s.pt, pt', s.waiting);
  }

  /** The last thread of an ordinary process. */
  lemma DieInv(s: State, d: seq<nat>, cur: Pid)
    requires InvFor(s, d) && Legal(s) && INIT < cur < |s.pt| && s.pt[cur].pstate == Alive && s.pt[cur].threads == 1
    requires cur !in s.waiting
    ensures InvFor(ThreadExit(s, cur), d)
    ensures ExitAsserts(s.pt[cur := s.pt[cur].(threads := 0)], cur)
  {
    hide HistOk, ListsOk, ParentsOk, FreeOk, WaitsOk, ThreadsOk, Died, Emptied;
    var b := s.pt[cur].(threads := 0);
    InitAlive(s.pt, d, cur);
    TouchInv(s, d, cur, b);
    var pt := s.pt[cur := b];
    var r := ThreadExit(s, cur);
    var q := DiedForm(pt, d, cur);
    DiedTree(pt, r.pt, d, cur, q);
    DiedOthers(pt, d, r.pt, cur, q);
    HistDied(pt, r.pt, s.hist, cur);
    FreeSame(pt, r.pt, s.free, s.count);
    forall p | p in s.waiting ensures WaitOk(pt, p, s.waiting[p]) { WaiterFacts(s.(pt := pt), p); }
    WaitsKeep(pt, r.pt, s.waiting);
  }

  lemma DiedOthers(pt: seq<Pcb>, d: seq<nat>, pt': seq<Pcb>, cur: Pid, q: Pid)
    requires TreeOk(pt, d) && Died(pt, pt', cur, q) && pt[cur].pstate == Alive
    ensures Others(pt, pt', cur) && pt'[cur].pstate == Zombie
    ensures pt'[cur].gen == pt[cur].gen && pt'[cur].exitval == pt[cur].exitval
    ensures forall p: Pid :: p < |pt| ==> (pt'[p].pstate == Free <==> pt[p].pstate == Free)
    ensures forall p: Pid :: p < |pt| && pt[p].pstate == Free ==> pt'[p].parent == pt[p].parent
    ensures forall p: Pid :: p < |pt| && p != cur ==> pt'[p].threads == pt[p].threads
    ensures forall p, c :: p != cur && IsChild(pt, c, p) ==> IsChild(pt', c, p)
    ensures 0 < q && pt'[0] == pt[0] && pt'[INIT].gen == pt[INIT].gen
  {
    ChildrenOf(pt, d, cur);
    assert ParentOk(pt, d, cur);
    assert ListOk(pt, cur);
    DiedRelation(pt, pt', cur, q);
  }

  /** The last thread of init, which may leave only when init has no children. */
  lemma InitDieInv(s: State, d: seq<nat>)
    requires InvFor(s, d) && Legal(s) && s.pt[INIT].pstate == Alive && s.pt[INIT].threads == 1
    requires s.pt[INIT].children == []
    ensures InvFor(ThreadExit(s, INIT).(waiting := s.waiting - {INIT}), d)
  {
    hide HistOk, FreeOk;
    var r := ThreadExit(s, INIT);
    assert r.pt == s.pt[INIT := s.pt[INIT].(threads := 0, pstate := Zombie)];
    InitAlone(s.pt, d);
    ChildrenOf(s.pt, d, INIT);
    ChildrenOf(s.pt, d, 0);
    InitDieTree(s.pt, r.pt, d);
    HistDied(s.pt, r.pt, s.hist, INIT);
    FreeSame(s.pt, r.pt, s.free, s.count);
    forall p | p in s.waiting ensures p == INIT { WaiterFacts(s, p); }
  }

  lemma InitDieTree(pt: seq<Pcb>, pt': seq<Pcb>, d: seq<nat>)
    requires TreeOk(pt, d) && pt' == pt[INIT := pt[INIT].(threads := 0, pstate := Zombie)]
    requires forall p: Pid :: INIT < p < |pt| ==> pt[p].pstate == Free
    ensures TreeOk(pt', d)
  {
    assert forall c, p :: !IsChild(pt', c, p) && !IsChild(pt, c, p);
    forall p: Pid | p < |pt| ensures ListOk(pt', p) { assert ListOk(pt, p); }
  }

  lemma ThreadExitInv(s: State, d: seq<nat>, p: Pid)
    requires InvFor(s, d) && Legal(s) && Active(s, p) && (p == INIT ==> s.pt[p].threads > 1)
    ensures InvFor(ThreadExit(s, p), d)
  {
    hide HistOk, ListsOk, ParentsOk, FreeOk, WaitsOk;
    if s.pt[p].threads == 1 {
      DieInv(s, d, p);
    } else {
      TouchInv(s, d, p, s.pt[p].(threads := s.pt[p].threads - 1));
    }
  }

  /** A pass through the wait loop by the waiter of `p`. */
  lemma WaitStepInv(s: State, d: seq<nat>, p: Pid, w: Wait)
    requires InvFor(s, d) && Legal(s) && WaitOk(s.pt, p, w) && 0 < p
    requires p in s.waiting ==> s.waiting[p] == w
    ensures Inv(WaitStep(s, p, w))
  {
    hide HistOk, ListsOk, ParentsOk, FreeOk, WaitsOk, TreeOk;
    var r := WaitStep(s, p, w);
    if Reaps(s, p, w).Some? {
      var c := Reaps(s, p, w).value;
      ReapsChild(s, d, p, w);
      CleanupInv(s, d, c, p);
      if w.Exiting? {
        AddWait(r.(waiting := s.waiting - {p}), d, p, w);
        assert r.waiting == (s.waiting - {p})[p := w];
      }
      assert InvFor(r, d);
    } else if Leaves(s, p, w) {
      LeaveInv(s, d, p, w);
    } else {
      AddWait(s, d, p, w);
      assert InvFor(r, d);
    }
  }

  /** The child a pass through the wait loop reaps, if any. */
  ghost function Reaps(s: State, p: Pid, w: Wait): Option<Pid>
    requires InRange(s.pt, p) && (w.Specific? ==> w.c < |s.pt|)
  {
    if w.Specific? then (if s.pt[w.c].pstate == Alive then None else Some(w.c))
    else if s.pt[p].children == [] || s.pt[p].exited == [] then None
    else Some(s.pt[p].exited[0])
  }

  /** The pass ends the wait because there are no children. */
  ghost predicate Leaves(s: State, p: Pid, w: Wait)
    requires p < |s.pt|
  {
    !w.Specific? && s.pt[p].children == []
  }

  /** Whatever a waiter reaps is a zombie child of its process: the assert of wait_for_any_child, and
      what wait_for_specific_child relies on without checking. */
  lemma ReapsChild(s: State, d: seq<nat>, p: Pid, w: Wait)
    requires InvFor(s, d) && Legal(s) && WaitOk(s.pt, p, w) && Reaps(s, p, w).Some?
    ensures IsChild(s.pt, Reaps(s, p, w).value, p) && s.pt[Reaps(s, p, w).value].pstate == Zombie
  {
    hide HistOk, FreeOk, WaitsOk;
    assert ListOk(s.pt, p);
    if !w.Specific? { assert s.pt[p].exited[0] in s.pt[p].exited; }
  }

  lemma AddWait(s: State, d: seq<nat>, p: Pid, w: Wait)
    requires InvFor(s, d) && WaitOk(s.pt, p, w)
    ensures InvFor(s.(waiting := s.waiting[p := w]), d)
  {}

  lemma DropWait(s: State, d: seq<nat>, p: Pid)
    requires InvFor(s, d)
    ensures InvFor(s.(waiting := s.waiting - {p}), d)
  {}

  lemma LeaveInv(s: State, d: seq<nat>, p: Pid, w: Wait)
    requires InvFor(s, d) && Legal(s) && WaitOk(s.pt, p, w) && Leaves(s, p, w)
    ensures Inv(WaitStep(s, p, w))
  {
    hide HistOk, ListsOk, ParentsOk, FreeOk, WaitsOk, TreeOk;
    var r := WaitStep(s, p, w);
    if w.Exiting? && s.pt[p].threads == 1 {
      InitDieInv(s, d);
    } else {
      DropWait(s, d, p);
      if w.Exiting? {
        TouchInv(s.(waiting := s.waiting - {p}), d, p, s.pt[p].(threads := s.pt[p].threads - 1));
      }
    }
    assert InvFor(r, d);
  }

  lemma WaitChildInv(s: State, d: seq<nat>, p: Pid, cpid: Option<int>)
    requires InvFor(s, d) && Legal(s) && Enabled(s, WaitEvent(p, cpid))
    ensures Inv(WaitChild(s, p, cpid))
  {
    hide HistOk, ListsOk, ParentsOk, FreeOk, WaitsOk;
    if cpid.None? {
      WaitStepInv(s, d, p, Any);
    } else if LegalChild(s.pt, p, cpid.value) {
      assert IsChild(s.pt, cpid.value, p);
      WaitStepInv(s, d, p, Specific(cpid.value));
    } else {
      assert InvFor(s, d);
    }
  }

  lemma ExitInv(s: State, d: seq<nat>, p: Pid, v: int)
    requires InvFor(s, d) && Legal(s) && Enabled(s, ExitEvent(p, v))
    ensures Inv(Exit(s, p, v))
  {
    hide HistOk, ListsOk, ParentsOk, FreeOk, WaitsOk;
    var b := s.pt[p].(exitval := v);
    var r := s.(pt := s.pt[p := b]);
    TouchInv(s, d, p, b);
    InvLegal(r, d);
    if p == INIT {
      WaitStepInv(r, d, p, Exiting);
    } else {
      ThreadExitInv(r, d, p);
      assert InvFor(ThreadExit(r, p), d);
    }
  }

  lemma StepInv(s: State, e: Event)
    requires Inv(s) && Legal(s) && Enabled(s, e)
    ensures Inv(Apply(s, e))
  {
    var d :| InvFor(s, d);
    hide HistOk, ListsOk, ParentsOk, FreeOk, WaitsOk;
    match e
    case ExecEvent(p, task) => ExecInv(s, d, p, task);
    case CreateEvent(p) =>
      TouchInv(s, d, p, s.pt[p].(threads := s.pt[p].threads + 1));
      assert InvFor(CreateThread(s, p), d);
    case WaitEvent(p, cpid) => WaitChildInv(s, d, p, cpid);
    case RecheckEvent(p) =>
      WaiterFacts(s, p);
      WaitStepInv(s, d, p, s.waiting[p]);
    case WakeEvent(p) => assert InvFor(s.(asleep := s.asleep - {p}), d);
    case ThreadExitEvent(p) =>
      ThreadExitInv(s, d, p);
      assert InvFor(ThreadExit(s, p), d);
    case ExitEvent(p, v) => ExitInv(s, d, p, v);
  }

  // ---------- runs ----------

  /** The table initialize_processes builds, and the two Execs that make pid 0 and init. */
  function Blank(n: nat): State {
    State(seq(n, p requires 0 <= p => Pcb(Free, if p == n - 1 then None else Some(p + 1), [], [], 0, 0, 0)),
          seq(n, i requires 0 <= i => i), 0, map[], {}, History(0, map[], []))
  }

  function Booted(n: nat): State
    requires INIT < n
  {
    var s := Exec(Blank(n), 0, false).0;
    Exec(s, 0, true).0
  }

  lemma BootedForm(n: nat)
    requires INIT < n
    ensures var s := Booted(n);
      && |s.pt| == n && |s.free| == n - 2 && s.count == 2 && s.waiting == map[] && s.asleep == {}
      && s.hist == History(2, map[], [])
      && s.pt[0] == Pcb(Alive, None, [], [], 0, 0, 0) && s.pt[INIT] == Pcb(Alive, None, [], [], 0, 1, 1)
      && (forall p: Pid :: INIT < p < n ==>
            s.pt[p] == Pcb(Free, if p == n - 1 then None else Some(p + 1), [], [], 0, 0, 0))
      && (forall i :: 0 <= i < n - 2 ==> s.free[i] == i + 2)
  {
    var s := Exec(Blank(n), 0, false).0;
    assert Blank(n).free[0] == 0 && s.free[0] == 1;
  }

  lemma BootedInv(n: nat)
    requires INIT < n
    ensures Inv(Booted(n))
  {
    BootedForm(n);
    var s := Booted(n);
    hide Booted;
    var d := seq(n, i => 0);
    BootedTree(s.pt, d);
    BootedFree(s, n);
    BootedHist(s.pt);
    hide TreeOk, HistOk, FreeOk;
    assert InvFor(s, d);
  }

  lemma BootedTree(pt: seq<Pcb>, d: seq<nat>)
    requires INIT < |pt| == |d| && d[INIT] == 0
    requires pt[0] == Pcb(Alive, None, [], [], 0, 0, 0) && pt[INIT] == Pcb(Alive, None, [], [], 0, 1, 1)
    requires forall p: Pid :: INIT < p < |pt| ==>
      pt[p].pstate == Free && pt[p].children == [] && pt[p].exited == [] && pt[p].threads == 0
    ensures TreeOk(pt, d)
  {
    assert forall c, p :: !IsChild(pt, c, p);
    assert forall p: Pid :: p < |pt| ==> ListOk(pt, p);
  }

  lemma BootedHist(pt: seq<Pcb>)
    requires INIT < |pt| && forall p: Pid :: p < |pt| ==> (pt[p].pstate == Free <==> INIT < p)
    requires pt[0] == Pcb(Alive, None, [], [], 0, 0, 0) && pt[INIT] == Pcb(Alive, None, [], [], 0, 1, 1)
    ensures HistOk(pt, History(2, map[], []))
  {
    forall g: nat | g < 2 ensures Held(pt, g) { assert Used(pt, g); }
    assert forall p: Pid :: Used(pt, p) ==> p < 2;
  }

  lemma FromTwo(free: seq<Pid>, n: nat, p: Pid)
    requires INIT < n && |free| == n - 2 && forall i :: 0 <= i < n - 2 ==> free[i] == i + 2
    ensures p in free <==> INIT < p < n
  {
    if INIT < p < n { assert free[p - 2] == p; }
  }

  lemma BootedFree(s: State, n: nat)
    requires |s.pt| == n > INIT && |s.free| == n - 2 && s.count == 2
    requires s.pt[0].pstate == Alive && s.pt[INIT].pstate == Alive
    requires forall p: Pid :: INIT < p < n ==>
      s.pt[p].pstate == Free && s.pt[p].parent == if p == n - 1 then None else Some(p + 1)
    requires forall i :: 0 <= i < n - 2 ==> s.free[i] == i + 2
    ensures FreeOk(s.pt, s.free, s.count)
  {
    forall p: Pid ensures p in s.free <==> p < n && s.pt[p].pstate == Free { FromTwo(s.free, n, p); }
    forall i | 0 <= i < n - 2 ensures s.free[i] < n && s.pt[s.free[i]].parent == Head(s.free[i + 1..]) {
      if i < n - 3 { assert s.free[i + 1..][0] == i + 3; }
    }
  }

  ghost predicate Next(s: State, e: Event, s': State) {
    Legal(s) && Enabled(s, e) && s' == Apply(s, e)
  }

  ghost predicate IsRun(ss: seq<State>, es: seq<Event>) {
    |ss| == |es| + 1 && forall i :: 0 <= i < |es| ==> Next(ss[i], es[i], ss[i + 1])
  }

  ghost predicate BelowInit(pt: seq<Pcb>, c: Pid) {
    exists n: nat :: Ancestor(pt, c, n) == Some(INIT)
  }

  /** A process `c` above init: in exactly its parent's children list, in exactly its parent's exited
      list iff ZOMBIE; its parent is alive and its parent chain reaches init. */
  ghost predicate ProcessSafe(pt: seq<Pcb>, c: Pid)
    requires c < |pt|
  {
    && pt[c].parent.Some? && pt[c].parent.value < |pt| && pt[pt[c].parent.value].pstate == Alive
    && (forall p: Pid :: p < |pt| ==> (c in pt[p].children <==> pt[c].parent == Some(p)))
    && (forall p: Pid :: p < |pt| ==> (c in pt[p].exited <==> pt[c].parent == Some(p) && pt[c].pstate == Zombie))
    && BelowInit(pt, c)
  }

  /** The lists of a PCB hold nothing but such processes, and nothing twice. */
  ghost predicate NothingElse(pt: seq<Pcb>, p: Pid)
    requires p < |pt|
  {
    && NoDup(pt[p].children) && NoDup(pt[p].exited)
    && forall c: Pid :: c in pt[p].children || c in pt[p].exited ==> INIT < c < |pt| && pt[c].pstate != Free
  }

  ghost predicate Safe(s: State) {
    && INIT < |s.pt|
    && (forall c: Pid :: INIT < c < |s.pt| && s.pt[c].pstate != Free ==> ProcessSafe(s.pt, c))
    && (forall p: Pid :: p < |s.pt| ==> NothingElse(s.pt, p))
    // process_count
    && s.count == |set p: Pid | p < |s.pt| && s.pt[p].pstate != Free|
    // when init has no children there is no other process
    && (s.pt[INIT].children == [] ==> forall p: Pid :: INIT < p < |s.pt| ==> s.pt[p].pstate == Free)
  }

  lemma TreeSafe(pt: seq<Pcb>, d: seq<nat>, c: Pid)
    requires TreeOk(pt, d) && INIT < c < |pt| && pt[c].pstate != Free
    ensures ProcessSafe(pt, c)
  {
    var n, x := ReachesInit(pt, d, c);
    assert Ancestor(pt, c, n + 1) == Some(INIT);
    assert ParentOk(pt, d, c);
    forall p: Pid | p < |pt|
      ensures c in pt[p].children <==> pt[c].parent == Some(p)
      ensures c in pt[p].exited <==> pt[c].parent == Some(p) && pt[c].pstate == Zombie
    {
      assert ListOk(pt, p);
    }
  }

  lemma InvSafe(s: State)
    requires Inv(s)
    ensures Safe(s)
  {
    var d :| InvFor(s, d);
    CountExact(s);
    if s.pt[INIT].children == [] { InitAlone(s.pt, d); }
    forall c: Pid | INIT < c < |s.pt| && s.pt[c].pstate != Free ensures ProcessSafe(s.pt, c) {
      TreeSafe(s.pt, d, c);
    }
    forall p: Pid | p < |s.pt| ensures NothingElse(s.pt, p) {
      assert ListOk(s.pt, p);
    }
    hide HistOk, FreeOk, WaitsOk, ParentsOk, ListsOk, NothingElse, ProcessSafe;
  }

  lemma RunInv(ss: seq<State>, es: seq<Event>)
    requires IsRun(ss, es) && Inv(ss[0])
    ensures forall i :: 0 <= i < |ss| ==> Inv(ss[i]) && Legal(ss[i])
  {
    for j := 0 to |es|
      invariant forall i :: 0 <= i <= j ==> Inv(ss[i])
    {
      assert Next(ss[j], es[j], ss[j + 1]);
      StepInv(ss[j], es[j]);
    }
    forall i | 0 <= i < |ss| ensures Legal(ss[i]) {
      var d :| InvFor(ss[i], d);
      InvLegal(ss[i], d);
    }
  }

  /** The tree is safe in every state of every run from boot. */
  lemma RunSafe(ss: seq<State>, es: seq<Event>, n: nat)
    requires INIT < n && IsRun(ss, es) && ss[0] == Booted(n)
    ensures forall i :: 0 <= i < |ss| ==> Legal(ss[i]) && Safe(ss[i])
  {
    BootedInv(n);
    RunInv(ss, es);
    forall i | 0 <= i < |ss| ensures Safe(ss[i]) { InvSafe(ss[i]); }
  }

  /** No process is reaped twice, and each is reaped with the value it left behind; once init is without
      children, every process ever made below it has been reaped. */
  lemma RunReaped(ss: seq<State>, es: seq<Event>, n: nat)
    requires INIT < n && IsRun(ss, es) && ss[0] == Booted(n)
    ensures var s := ss[|es|]; var r := s.hist.reaped;
      && (forall i, j :: 0 <= i < j < |r| ==> r[i].0 != r[j].0)
      && (forall i :: 0 <= i < |r| ==> r[i].0 in s.hist.left && s.hist.left[r[i].0] == r[i].1)
      && INIT < |s.pt|
      && (s.pt[INIT].children == [] ==> forall g: nat :: 2 <= g < s.hist.next ==> WasReaped(r, g))
  {
    BootedInv(n);
    RunInv(ss, es);
    var s := ss[|es|];
    var d :| InvFor(s, d);
    if s.pt[INIT].children == [] {
      InitAlone(s.pt, d);
      forall g: nat | 2 <= g < s.hist.next ensures WasReaped(s.hist.reaped, g) {
        assert Held(s.pt, g) || WasReaped(s.hist.reaped, g);
      }
    }
  }

  /** The asserts of sys_ThreadExit hold at the exit of the last thread of a process iff the process is
      not init, or init has no children. */
  lemma ExitAssertsIff(pt: seq<Pcb>, d: seq<nat>, cur: Pid)
    requires TreeOk(pt, d) && 0 < cur < |pt| && pt[cur].pstate == Alive
    ensures InRange(pt, cur) && (ExitAsserts(pt, cur) <==> cur != INIT || pt[INIT].children == [])
  {
    ChildrenOf(pt, d, cur);
    if cur != INIT {
      var q := DiedForm(pt, d, cur);
    } else {
      assert pt[INIT].children == [] ==> pt[INIT].exited == [] by {
        assert forall c :: c in pt[INIT].exited ==> c in pt[INIT].children;
        if pt[INIT].exited != [] { assert pt[INIT].exited[0] in pt[INIT].exited; }
      }
    }
  }

  // ---------- more than one waiter ----------

  /** Cleaning up a PCB keeps the free list sound iff the PCB is in use. */
  lemma CleanupSoundIff(s: State, c: Pid)
    requires FreeOk(s.pt, s.free, s.count) && c < |s.pt| && s.pt[c].parent != Some(c)
    ensures FreeOk(Cleanup(s, c).pt, Cleanup(s, c).free, Cleanup(s, c).count) <==> s.pt[c].pstate != Free
  {
    if s.pt[c].pstate != Free {
      CleanupUsed(s, c);
    } else {
      CleanupFree(s, c);
    }
  }

  lemma CleanupUsed(s: State, c: Pid)
    requires FreeOk(s.pt, s.free, s.count) && c < |s.pt| && s.pt[c].parent != Some(c) && s.pt[c].pstate != Free
    ensures FreeOk(Cleanup(s, c).pt, Cleanup(s, c).free, Cleanup(s, c).count)
  {
    var r := Cleanup(s, c);
    assert Others(s.pt, r.pt, c) && forall p: Pid :: p < |s.pt| && p != c ==> r.pt[p].parent == s.pt[p].parent;
    hide FreeOk;
    FreePush(s.pt, r.pt, s.free, s.count, c);
  }

  lemma CleanupFree(s: State, c: Pid)
    requires FreeOk(s.pt, s.free, s.count) && c < |s.pt| && s.pt[c].pstate == Free
    ensures !NoDup(Cleanup(s, c).free)
  {
    var i :| 0 <= i < |s.free| && s.free[i] == c;
    assert Cleanup(s, c).free[0] == Cleanup(s, c).free[i + 1];
  }

  /** Reaping by a thread the state does not record keeps the invariant iff the PCB is in use and no
      recorded waiter waits for it. */
  lemma ReapKeepsIff(s: State, d: seq<nat>, c: Pid)
    requires InvFor(s, d) && Legal(s) && INIT < c < |s.pt| && s.pt[c].pstate != Alive
    ensures Inv(Cleanup(s, c)) <==>
      s.pt[c].pstate != Free && forall x :: x in s.waiting ==> s.waiting[x] != Specific(c)
  {
    if s.pt[c].pstate == Free {
      CleanupFree(s, c);
      hide TreeOk, WaitsOk, HistOk, NoDup;
      assert forall e :: !InvFor(Cleanup(s, c), e);
    } else if x :| x in s.waiting && s.waiting[x] == Specific(c) {
      WaiterFacts(s, x);
      ReapStrands(s, c, x);
    } else {
      ReapKeeps(s, d, c);
    }
  }

  /** A recorded waiter of `x` for `c` is left waiting for a PCB that is no longer its child. */
  lemma ReapStrands(s: State, c: Pid, x: Pid)
    requires c < |s.pt| && x in s.waiting && s.waiting[x] == Specific(c)
    ensures !WaitOk(Cleanup(s, c).pt, x, Specific(c)) && !Inv(Cleanup(s, c))
  {
    var r := Cleanup(s, c);
    assert r.pt[c].pstate == Free && r.waiting[x] == Specific(c);
    hide TreeOk, FreeOk, HistOk;
    assert forall e :: !InvFor(r, e);
  }

  /** Without such a waiter it does what a pass by the parent would have done. */
  lemma ReapKeeps(s: State, d: seq<nat>, c: Pid)
    requires InvFor(s, d) && Legal(s) && INIT < c < |s.pt| && s.pt[c].pstate == Zombie
    requires forall x :: x in s.waiting ==> s.waiting[x] != Specific(c)
    ensures Inv(Cleanup(s, c))
  {
    hide HistOk, ListsOk, FreeOk, WaitsOk;
    assert ParentOk(s.pt, d, c);
    var q := s.pt[c].parent.value;
    CleanupInv(s, d, c, q);
    CleanupShape(s, c, q);
    var r := Cleanup(s, c);
    forall x | x in s.waiting ensures WaitOk(s.pt, x, s.waiting[x]) { WaiterFacts(s, x); }
    WaitsKeep(s.pt, r.pt, s.waiting);
    assert InvFor(r, d);
  }

  lemma SameButAsleep(a: State, b: State)
    requires a == b.(asleep := a.asleep)
    ensures Inv(a) <==> Inv(b)
  {
    hide TreeOk, FreeOk, WaitsOk, HistOk;
    assert forall e :: InvFor(a, e) <==> InvFor(b, e);
  }

  /** wait_for_specific_child does not look again whether `c` is still its child.  So a pass by a thread of
      `p`, whose waiting is not recorded, that finds `c` not alive keeps the invariant only then. */
  lemma SecondPassIff(s: State, d: seq<nat>, p: Pid, c: Pid)
    requires InvFor(s, d) && Legal(s) && p < |s.pt| && p !in s.waiting
    requires INIT < c < |s.pt| && s.pt[c].pstate != Alive
    ensures Inv(WaitStep(s, p, Specific(c))) <==>
      s.pt[c].pstate != Free && forall x :: x in s.waiting ==> s.waiting[x] != Specific(c)
  {
    ReapKeepsIff(s, d, c);
    var r := WaitStep(s, p, Specific(c));
    assert r.waiting == s.waiting;
    hide Inv;
    SameButAsleep(r, Cleanup(s, c));
  }

  /** A second thread of `p` in wait_for_any_child keeps it iff the recorded one does not wait for the very
      zombie it takes. */
  lemma SecondAnyPassIff(s: State, d: seq<nat>, p: Pid)
    requires InvFor(s, d) && Legal(s) && p < |s.pt| && s.pt[p].exited != []
    ensures s.pt[p].exited[0] < |s.pt|
    ensures Inv(Cleanup(s, s.pt[p].exited[0])) <==>
      (p in s.waiting ==> s.waiting[p] != Specific(s.pt[p].exited[0]))
  {
    var c := s.pt[p].exited[0];
    assert c in s.pt[p].exited && ListOk(s.pt, p);
    ReapKeepsIff(s, d, c);
    forall x | x in s.waiting && s.waiting[x] == Specific(c) ensures x == p { WaiterFacts(s, x); }
  }

  /** So two threads of process `q` that wait for the same child, and wake to find it dead, put its PCB
      on the free list twice. */
  lemma TwoWaiters(s: State, d: seq<nat>, c: Pid, q: Pid)
    requires InvFor(s, d) && Legal(s) && IsChild(s.pt, c, q) && s.pt[c].pstate == Zombie
    ensures q < |s.pt|
    ensures var one := WaitStep(s, q, Specific(c));
      && InRange(one.pt, q) && (one.pt[q].exited != [] ==> one.pt[q].exited[0] < |one.pt|) && c < |one.pt|
      && var two := WaitStep(one, q, Specific(c));
      !NoDup(two.free) && two.count == s.count - 2
  {
    assert ParentOk(s.pt, d, c);
    CleanupInv(s, d, c, q);
    var one := WaitStep(s, q, Specific(c));
    assert InvFor(one, d);
    InvLegal(one, d);
    var two := WaitStep(one, q, Specific(c));
    assert two.free[0] == two.free[1] == c;
  }

  /** Or, if the first of them passes and process `x` takes the PCB again, waits for it and it dies, the
      second one takes `x`'s child away: the free list stays sound, `x` waits for a PCB that is not its
      child, and the invariant is lost. */
  lemma SecondWaiterSteals(s: State, c: Pid, q: Pid, x: Pid, v: int) returns (ss: seq<State>, es: seq<Event>)
    requires Inv(s) && Legal(s) && x != q && Active(s, x) && x !in s.waiting
    requires q in s.waiting && s.waiting[q] == Specific(c) && q !in s.asleep && s.pt[c].pstate == Zombie
    ensures IsRun(ss, es) && ss[0] == s
    ensures var t := ss[|es|];
      && Inv(t) && Legal(t) && q < |t.pt| && IsChild(t.pt, c, x) && t.pt[c].pstate == Zombie && q !in t.waiting
      && var r := WaitStep(t, q, Specific(c));
      && FreeOk(r.pt, r.free, r.count) && r.hist.reaped == t.hist.reaped + [(t.pt[c].gen, t.pt[c].exitval)]
      && x in r.waiting && !WaitOk(r.pt, x, r.waiting[x]) && !Inv(r)
  {
    ss, es := StealRun(s, c, q, x, v);
    var t := ss[|es|];
    var d :| InvFor(t, d);
    StealPass(t, d, c, q, x);
  }

  lemma StealPass(t: State, d: seq<nat>, c: Pid, q: Pid, x: Pid)
    requires InvFor(t, d) && Legal(t) && IsChild(t.pt, c, x) && t.pt[c].pstate == Zombie && q < |t.pt|
    requires q !in t.waiting && x in t.waiting && t.waiting[x] == Specific(c)
    ensures var r := WaitStep(t, q, Specific(c));
      && FreeOk(r.pt, r.free, r.count) && r.hist.reaped == t.hist.reaped + [(t.pt[c].gen, t.pt[c].exitval)]
      && x in r.waiting && !WaitOk(r.pt, x, r.waiting[x]) && !Inv(r)
  {
    hide HistOk, ListsOk, WaitsOk, FreeOk;
    assert ParentOk(t.pt, d, c);
    CleanupUsed(t, c);
    ReapStrands(t, c, x);
    var r := WaitStep(t, q, Specific(c));
    assert r.waiting == t.waiting;
    hide Inv, Cleanup;
    SameButAsleep(r, Cleanup(t, c));
  }

  lemma ExtendRun(ss: seq<State>, es: seq<Event>, e: Event) returns (ss': seq<State>, es': seq<Event>)
    requires IsRun(ss, es) && Inv(ss[|es|]) && Legal(ss[|es|]) && Enabled(ss[|es|], e)
    ensures ss' == ss + [Apply(ss[|es|], e)] && es' == es + [e] && IsRun(ss', es')
    ensures Inv(ss'[|es'|]) && Legal(ss'[|es'|])
  {
    hide Apply, Legal, Enabled, Inv, InvFor;
    var s := ss[|es|];
    StepInv(s, e);
    LegalOfInv(Apply(s, e));
    ss', es' := ss + [Apply(s, e)], es + [e];
    assert Next(s, e, Apply(s, e));
    hide Next;
    forall i | 0 <= i < |es'| ensures Next(ss'[i], es'[i], ss'[i + 1]) {
      assert i < |es| ==> Next(ss[i], es[i], ss[i + 1]);
    }
  }

  lemma LegalOfInv(s: State)
    requires Inv(s)
    ensures Legal(s)
  {
    var d :| InvFor(s, d);
    InvLegal(s, d);
  }

  /** The first waiter reaps `c`; `x` makes a process, which gets that PCB, waits for it, and it exits. */
  lemma StealRun(s: State, c: Pid, q: Pid, x: Pid, v: int) returns (ss: seq<State>, es: seq<Event>)
    requires Inv(s) && Legal(s) && x != q && Active(s, x) && x !in s.waiting
    requires q in s.waiting && s.waiting[q] == Specific(c) && q !in s.asleep && s.pt[c].pstate == Zombie
    ensures IsRun(ss, es) && ss[0] == s
    ensures var t := ss[|es|];
      && Inv(t) && Legal(t) && q < |t.pt| && IsChild(t.pt, c, x) && t.pt[c].pstate == Zombie
      && q !in t.waiting && x in t.waiting && t.waiting[x] == Specific(c)
  {
    hide Inv, Legal, Apply;
    WaitingChild(s, q, c);
    ss, es := ExtendRun([s], [], RecheckEvent(q));
    FirstReaps(s, c, q, x);
    ss, es := ExtendRun(ss, es, ExecEvent(x, true));
    TakenAgain(ss[1], c, x);
    ss, es := ExtendRun(ss, es, WaitEvent(x, Some(c)));
    WaitsForIt(ss[2], c, x);
    ss, es := ExtendRun(ss, es, ExitEvent(c, v));
    AndItDies(ss[3], c, x, v);
  }

  lemma WaitingChild(s: State, q: Pid, c: Pid)
    requires Inv(s) && Legal(s) && q in s.waiting && s.waiting[q] == Specific(c)
    ensures q < |s.pt| && IsChild(s.pt, c, q) && c != q
  {
    var d :| InvFor(s, d);
    WaiterFacts(s, q);
    assert ParentOk(s.pt, d, c);
  }

  lemma FirstReaps(s: State, c: Pid, q: Pid, x: Pid)
    requires Inv(s) && Legal(s) && x != q && Active(s, x) && x !in s.waiting && Enabled(s, RecheckEvent(q))
    requires s.waiting[q] == Specific(c) && IsChild(s.pt, c, q) && s.pt[c].pstate == Zombie && q < |s.pt| && c != q
    ensures var t := Apply(s, RecheckEvent(q));
      && Active(t, x) && x !in t.waiting && q !in t.waiting && |t.pt| == |s.pt| && Head(t.free) == Some(c)
  {
    CleanupShape(s, c, q);
  }

  lemma TakenAgain(s: State, c: Pid, x: Pid)
    requires Inv(s) && Legal(s) && Active(s, x) && x !in s.waiting && Head(s.free) == Some(c)
    ensures var t := Apply(s, ExecEvent(x, true));
      && Active(t, x) && t.waiting == s.waiting && |t.pt| == |s.pt|
      && IsChild(t.pt, c, x) && t.pt[c].pstate == Alive && t.pt[c].threads == 1 && c !in t.waiting
  {
    var d :| InvFor(s, d);
    hide HistOk, ListsOk, ParentsOk, WaitsOk;
    assert s.free[0] in s.free;
    ExecShape(s, x, true);
    if c in s.waiting { WaiterFacts(s, c); }
  }

  lemma WaitsForIt(s: State, c: Pid, x: Pid)
    requires Inv(s) && Legal(s) && Enabled(s, WaitEvent(x, Some(c))) && IsChild(s.pt, c, x) && c !in s.waiting
    requires s.pt[c].pstate == Alive && s.pt[c].threads == 1
    ensures var t := Apply(s, WaitEvent(x, Some(c)));
      t == s.(waiting := s.waiting[x := Specific(c)], asleep := s.asleep + {x}) && c != x
  {
    var d :| InvFor(s, d);
    assert ParentOk(s.pt, d, c);
  }

  lemma AndItDies(s: State, c: Pid, x: Pid, v: int)
    requires Inv(s) && Legal(s) && IsChild(s.pt, c, x) && s.pt[c].pstate == Alive && s.pt[c].threads == 1
    requires Enabled(s, ExitEvent(c, v)) && c !in s.waiting
    ensures var t := Apply(s, ExitEvent(c, v));
      t.waiting == s.waiting && |t.pt| == |s.pt| && IsChild(t.pt, c, x) && t.pt[c].pstate == Zombie
  {
    var d :| InvFor(s, d);
    hide HistOk, FreeOk, WaitsOk;
    var b := s.pt[c].(exitval := v, threads := 0);
    TouchInv(s, d, c, b);
    var pt := s.pt[c := b];
    assert s.pt[c := s.pt[c].(exitval := v)][c := b] == pt;
    var q := DiedForm(pt, d, c);
  }
}
