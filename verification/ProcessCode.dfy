/** The code of the process table: an array of PCBs updated in place, the free list threaded through
    the parent fields, and the reparenting loop. */
module ProcessCode {
  import opened Sequences
  import opened Processes
  import R = ProcessRuns
  import E = ProcessEffects

  ghost predicate Chain(pt: seq<Pcb>, free: seq<Pid>) {
    NoDup(free) && forall i :: 0 <= i < |free| ==> free[i] < |pt| && pt[free[i]].parent == Head(free[i + 1..])
  }

  lemma ChainTail(pt: seq<Pcb>, free: seq<Pid>)
    requires Chain(pt, free) && free != []
    ensures free[0] < |pt| && pt[free[0]].parent == Head(free[1..]) && Chain(pt, free[1..]) && free[0] !in free[1..]
  {
    var f := free[1..];
    forall i | 0 <= i < |f| ensures f[i] < |pt| && pt[f[i]].parent == Head(f[i + 1..]) {
      assert f[i] == free[i + 1] && f[i + 1..] == free[i + 2..];
    }
  }

  lemma ChainPush(pt: seq<Pcb>, free: seq<Pid>, p: Pid)
    requires Chain(pt, free) && p !in free && p < |pt| && pt[p].parent == Head(free)
    ensures Chain(pt, [p] + free)
  {
    var f := [p] + free;
    ConsNoDup(p, free);
    forall i | 0 <= i < |f| ensures f[i] < |pt| && pt[f[i]].parent == Head(f[i + 1..]) {
      if i == 0 { assert f[1..] == free; } else { assert f[i] == free[i - 1] && f[i + 1..] == free[i..]; }
    }
  }

  /** The free list does not see changes to other PCBs, or to other fields. */
  lemma ChainFrame(pt: seq<Pcb>, pt': seq<Pcb>, free: seq<Pid>)
    requires Chain(pt, free) && |pt'| == |pt|
    requires forall i :: 0 <= i < |free| && free[i] < |pt| ==> pt'[free[i]].parent == pt[free[i]].parent
    ensures Chain(pt', free)
  {}

  class ProcessTable {
    const pt: array<Pcb>
    var freelist: Option<Pid>
    var count: int
    var waiting: map<Pid, Wait>
    var asleep: set<Pid>
    var hist: History
    ghost var free: seq<Pid>

    ghost function View(): State
      reads this, pt
    {
      State(pt[..], free, count, waiting, asleep, hist)
    }

    /** The free list threaded through the table. */
    ghost predicate Valid()
      reads this, pt
    {
      INIT < pt.Length && freelist == Head(free) && Chain(pt[..], free)
    }

    ghost predicate Consistent()
      reads this, pt
    {
      R.Inv(View()) && freelist == Head(free)
    }

    lemma ConsistentValid(p: Pid)
      requires Consistent()
      ensures Valid() && R.Legal(View())
      ensures p < pt.Length && pt[p].pstate != Free ==> p !in free
    {
      var d :| R.InvFor(View(), d);
      R.InvLegal(View(), d);
    }

    /** initialize_processes, without its first Exec. */
    constructor (n: nat)
      requires INIT < n
      ensures Valid() && fresh(pt) && View() == R.Blank(n)
    {
      pt := new Pcb[n](_ => Pcb(Free, None, [], [], 0, 0, 0));
      freelist, count, waiting, asleep, hist := None, 0, map[], {}, History(0, map[], []);
      free := [];
      new;
      var iter := n;
      while iter != 0
        invariant 0 <= iter <= n
        invariant freelist == (if iter == n then None else Some(iter))
        invariant |free| == n - iter && forall i :: 0 <= i < n - iter ==> free[i] == iter + i
        invariant forall p :: 0 <= p < iter ==> pt[p] == Pcb(Free, None, [], [], 0, 0, 0)
        invariant forall p :: iter <= p < n ==>
          pt[p] == Pcb(Free, if p == n - 1 then None else Some(p + 1), [], [], 0, 0, 0)
        invariant count == 0 && waiting == map[] && asleep == {} && hist == History(0, map[], [])
      {
        iter := iter - 1;
        pt[iter] := pt[iter].(parent := freelist);
        freelist := Some(iter);
        free := [iter] + free;
      }
      assert pt[..] == R.Blank(n).pt && free == R.Blank(n).free;
    }

    method AcquirePcb() returns (p: Option<Pid>)
      requires Valid()
      modifies this`freelist, this`count, this`hist, this`free, pt
      ensures Valid() && (View(), p) == Processes.AcquirePcb(old(View()))
      ensures p.Some? ==> p.value !in free
    {
      p := None;
      if freelist != None {
        p := freelist;
        ChainTail(pt[..], free);
        var n := p.value;
        ghost var a := pt[..];
        pt[n] := pt[n].(pstate := Alive, gen := hist.next);
        freelist := pt[n].parent;
        count := count + 1;
        hist := hist.(next := hist.next + 1);
        free := free[1..];
        ChainFrame(a, pt[..], free);
      }
    }

    method ReleasePcb(p: Pid)
      requires Valid() && p < pt.Length && p !in free
      modifies this`freelist, this`count, this`free, pt
      ensures Valid() && View() == Processes.ReleasePcb(old(View()), p)
    {
      ghost var a := pt[..];
      pt[p] := pt[p].(pstate := Free, parent := freelist);
      freelist := Some(p);
      count := count - 1;
      ChainFrame(a, pt[..], free);
      ChainPush(pt[..], free, p);
      free := [p] + free;
    }

    /** The part of sys_Exec that fills in the new PCB. */
    method SetUp(p: Pid, cur: Pid, task: bool)
      requires p < pt.Length && cur < pt.Length && p != cur
      modifies pt
      ensures pt[..] == Processes.SetUp(old(pt[..]), p, cur, task)
    {
      pt[p] := pt[p].(threads := 0);
      if p <= INIT {
        pt[p] := pt[p].(parent := None);
      } else {
        pt[p] := pt[p].(parent := Some(cur));
        pt[cur] := pt[cur].(children := [p] + pt[cur].children);
      }
      if task {
        pt[p] := pt[p].(threads := pt[p].threads + 1);
      }
    }

    /** sys_Exec */
    method Exec(cur: Pid, task: bool) returns (n: Option<Pid>)
      requires Valid() && cur < pt.Length && cur !in free
      modifies this`freelist, this`count, this`hist, this`free, pt
      ensures Valid() && (View(), n) == Processes.Exec(old(View()), cur, task)
    {
      hide NoDup;
      n := AcquirePcb();
      if n.None? { return; }
      ghost var a := pt[..];
      SetUp(n.value, cur, task);
      ChainFrame(a, pt[..], free);
    }

    /** cleanup_zombie, and the status it hands over. */
    method CleanupZombie(c: Pid) returns (status: int)
      requires Valid() && c < pt.Length && c !in free
      modifies this`freelist, this`count, this`hist, this`free, pt
      ensures Valid() && View() == Cleanup(old(View()), c) && status == old(pt[c].exitval)
    {
      status := pt[c].exitval;
      hist := hist.(reaped := hist.reaped + [(pt[c].gen, status)]);
      ghost var a := pt[..];
      if pt[c].parent.Some? && pt[c].parent.value < pt.Length {
        var q := pt[c].parent.value;
        pt[q] := pt[q].(children := Without(pt[q].children, c));
        pt[q] := pt[q].(exited := Without(pt[q].exited, c));
      }
      assert pt[..] == Unlink(a, c);
      ChainFrame(a, pt[..], free);
      ReleasePcb(c);
    }

    /** The loop of sys_ThreadExit that gives the children of `cur` to init. */
    method ReparentChildren(cur: Pid)
      requires INIT != cur && InRange(pt[..], cur)
      modifies pt
      ensures pt[..] == Reparent(old(pt[..]), cur)
    {
      while pt[cur].children != []
        invariant InRange(pt[..], cur) && Reparent(pt[..], cur) == Reparent(old(pt[..]), cur)
        decreases |pt[cur].children|
      {
        ghost var a := pt[..];
        ReparentOneKeeps(a, cur);
        var c := pt[cur].children[0];
        pt[cur] := pt[cur].(children := pt[cur].children[1..]);
        pt[c] := pt[c].(parent := Some(INIT));
        pt[INIT] := pt[INIT].(children := [c] + pt[INIT].children);
        assert pt[..] == ReparentOne(a, cur);
      }
    }

    method HandOverExited(cur: Pid)
      requires cur < pt.Length && INIT < pt.Length
      modifies pt, this`asleep
      ensures pt[..] == HandOver(old(pt[..]), cur) && asleep == old(asleep) - Woken(old(pt[..]), cur)
    {
      if pt[cur].exited != [] {
        pt[INIT] := pt[INIT].(exited := pt[INIT].exited + pt[cur].exited);
        pt[cur] := pt[cur].(exited := []);
        Broadcast(INIT);
      }
      if pt[cur].parent.Some? {
        var q := pt[cur].parent.value;
        if q < pt.Length {
          pt[q] := pt[q].(exited := [cur] + pt[q].exited);
        }
        Broadcast(q);
      }
    }

    /** kernel_broadcast on the child_exit of `p`. */
    method Broadcast(p: Pid)
      modifies this`asleep
      ensures asleep == old(asleep) - {p}
    {
      asleep := asleep - {p};
    }

    /** sys_ThreadExit */
    method ThreadExit(cur: Pid)
      requires InRange(pt[..], cur)
      modifies pt, this`hist, this`asleep
      ensures View() == Processes.ThreadExit(old(View()), cur)
    {
      pt[cur] := pt[cur].(threads := pt[cur].threads - 1);
      ghost var a := pt[..];
      assert a == old(pt[..])[cur := a[cur]];
      if pt[cur].threads == 0 {
        hist := hist.(left := hist.left[pt[cur].gen := pt[cur].exitval]);
        if cur != INIT {
          ReparentChildren(cur);
          HandOverExited(cur);
        }
        assert pt[..] == Emptied(a, cur);
        pt[cur] := pt[cur].(pstate := Zombie);
      }
    }

    /** What a pass through a wait loop may rely on. */
    lemma PassFacts(p: Pid, w: Wait)
      requires Consistent() && R.WaitOk(pt[..], p, w) && 0 < p && (p in waiting ==> waiting[p] == w)
      ensures Valid() && R.Legal(View()) && R.Inv(WaitStep(View(), p, w))
      ensures R.Reaps(View(), p, w).Some? ==>
        var c := R.Reaps(View(), p, w).value; c < pt.Length && c !in free && pt[c].pstate == Zombie
    {
      var s := View();
      var d :| R.InvFor(s, d);
      ConsistentValid(p);
      R.WaitStepInv(s, d, p, w);
      if R.Reaps(s, p, w).Some? {
        R.ReapsChild(s, d, p, w);
        ConsistentValid(R.Reaps(s, p, w).value);
      }
    }

    /** The loop of wait_for_specific_child, from one check to the sleep or the end. */
    method WaitForSpecificChild(p: Pid, c: Pid) returns (answer: E.Answer)
      requires Consistent() && R.WaitOk(pt[..], p, Specific(c)) && 0 < p && (p in waiting ==> waiting[p] == Specific(c))
      modifies this, pt
      ensures R.Legal(old(View())) && View() == WaitStep(old(View()), p, Specific(c))
      ensures Consistent() && E.Answers(old(View()), View(), p, answer)
      ensures answer == E.Asleep || (answer.Got? && answer.child == c)
    {
      PassFacts(p, Specific(c));
      E.SpecificAnswers(View(), p, c);
      hide R.Inv, Chain, E.Answers;
      if pt[c].pstate == Alive {
        waiting, asleep := waiting[p := Specific(c)], asleep + {p};
        answer := E.Asleep;
      } else {
        var status := CleanupZombie(c);
        waiting, asleep := waiting - {p}, asleep - {p};
        answer := E.Got(c, status);
      }
    }

    /** The loop of wait_for_any_child, from one check to the sleep or the end. */
    method WaitForAnyChild(p: Pid) returns (answer: E.Answer)
      requires Consistent() && R.WaitOk(pt[..], p, Any) && 0 < p && (p in waiting ==> waiting[p] == Any)
      modifies this, pt
      ensures R.Legal(old(View())) && View() == WaitStep(old(View()), p, Any)
      ensures Consistent() && E.Answers(old(View()), View(), p, answer)
      ensures answer == E.NoChild <==> old(pt[p].children) == []
      ensures answer == E.Asleep <==> old(pt[p].children) != [] && old(pt[p].exited) == []
    {
      PassFacts(p, Any);
      E.AnyAnswers(View(), p);
      hide R.Inv, Chain, E.Answers;
      if pt[p].children == [] {
        waiting, asleep := waiting - {p}, asleep - {p};
        answer := E.NoChild;
      } else if pt[p].exited != [] {
        var c := pt[p].exited[0];
        assert pt[c].pstate == Zombie;
        var status := CleanupZombie(c);
        waiting, asleep := waiting - {p}, asleep - {p};
        answer := E.Got(c, status);
      } else {
        waiting, asleep := waiting[p := Any], asleep + {p};
        answer := E.Asleep;
      }
    }

    /** sys_WaitChild, up to the sleep or the end. */
    method WaitChild(p: Pid, cpid: Option<int>) returns (answer: E.Answer)
      requires Consistent() && R.Active(View(), p) && p !in waiting
      modifies this, pt
      ensures R.Legal(old(View())) && View() == Processes.WaitChild(old(View()), p, cpid)
      ensures Consistent() && E.Answers(old(View()), View(), p, answer)
      ensures cpid == None ==> (answer == E.NoChild <==> old(pt[p].children) == [])
      ensures cpid.Some? ==> (answer == E.NoChild <==> cpid.value !in old(pt[p].children))
      ensures cpid.Some? && answer.Got? ==> answer.child == cpid.value
    {
      WaitFacts(p, cpid);
      hide R.Inv;
      if cpid.None? {
        answer := WaitForAnyChild(p);
      } else if cpid.value < 0 || cpid.value >= pt.Length || pt[cpid.value].pstate == Free
          || pt[cpid.value].parent != Some(p) {
        answer := E.NoChild;
      } else {
        answer := WaitForSpecificChild(p, cpid.value);
      }
    }

    lemma WaitFacts(p: Pid, cpid: Option<int>)
      requires Consistent() && R.Active(View(), p) && p !in waiting
      ensures Valid() && R.Legal(View()) && 0 < p && R.WaitOk(pt[..], p, Any)
      ensures E.Answers(View(), View(), p, E.NoChild)
      ensures cpid.Some? ==> (LegalChild(pt[..], p, cpid.value) <==> cpid.value in pt[p].children)
      ensures cpid.Some? && LegalChild(pt[..], p, cpid.value) ==> R.WaitOk(pt[..], p, Specific(cpid.value))
    {
      var d :| R.InvFor(View(), d);
      ConsistentValid(p);
      E.RefusedAnswers(View(), p);
      E.ChildIffLegal(View(), d, p, cpid);
    }

    /** sys_Exit, up to the sleep or the end of its thread. */
    method Exit(p: Pid, v: int)
      requires Consistent() && R.Enabled(View(), R.ExitEvent(p, v))
      modifies this, pt
      ensures R.Legal(old(View())) && View() == Processes.Exit(old(View()), p, v) && Consistent()
      ensures pt[p].exitval == v
      ensures p != INIT && old(pt[p].threads) == 1 ==>
        pt[p].pstate == Zombie && hist.left == old(hist).left[old(pt[p].gen) := v]
    {
      ExitFacts(p, v);
      hide R.Inv, R.Enabled;
      pt[p] := pt[p].(exitval := v);
      assert pt[..] == old(pt[..])[p := pt[p]];
      if p == INIT {
        InitExitPass();
      } else {
        ThreadExit(p);
      }
    }

    lemma ExitFacts(p: Pid, v: int)
      requires Consistent() && R.Enabled(View(), R.ExitEvent(p, v))
      ensures p < pt.Length && R.Legal(View()) && R.Inv(Processes.Exit(View(), p, v))
      ensures var m := View().(pt := pt[..][p := pt[p].(exitval := v)]);
        && R.Inv(m) && InRange(m.pt, p)
        && (p == INIT ==> R.WaitOk(m.pt, INIT, Exiting) && INIT !in waiting)
      ensures var r := Processes.Exit(View(), p, v);
        && |r.pt| == pt.Length && r.pt[p].exitval == v
        && (p != INIT && pt[p].threads == 1 ==> r.pt[p].pstate == Zombie && r.hist.left == hist.left[pt[p].gen := v])
    {
      var d :| R.InvFor(View(), d);
      R.InvLegal(View(), d);
      E.ExitAnswers(View(), d, p, v);
    }

    /** The loop with which init leaves, from one check to the sleep, the next turn or the end. */
    method InitExitPass()
      requires Consistent() && R.WaitOk(pt[..], INIT, Exiting) && (INIT in waiting ==> waiting[INIT] == Exiting)
      modifies this, pt
      ensures R.Legal(old(View())) && View() == WaitStep(old(View()), INIT, Exiting)
      ensures Consistent()
    {
      PassFacts(INIT, Exiting);
      hide R.Inv, Chain;
      if pt[INIT].children == [] {
        ThreadExit(INIT);
        waiting, asleep := waiting - {INIT}, asleep - {INIT};
      } else if pt[INIT].exited != [] {
        var status := CleanupZombie(pt[INIT].exited[0]);
        waiting, asleep := waiting[INIT := Exiting], asleep - {INIT};
      } else {
        waiting, asleep := waiting[INIT := Exiting], asleep + {INIT};
      }
    }
  }
}
