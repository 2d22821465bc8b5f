/** The calls of kernel_threads.c as code that updates PTCBs in place. */
module ThreadsCode {
  import opened Sequences
  import T = Threads

  /** Nobody sleeps in a join of `a`. */
  ghost predicate Awake(joining: map<T.Addr, T.Joiner>, a: T.Addr) {
    forall t :: t in joining && joining[t].target == a ==> !joining[t].asleep
  }

  class ThreadTable {
    var ptcbs: map<T.Addr, T.Ptcb>
    var threadCount: int
    var joining: map<T.Addr, T.Joiner>
    var hist: T.History

    function View(): T.State
      reads this
    {
      T.State(ptcbs, threadCount, joining, hist)
    }

    /** A process with its main thread, at `a`. */
    constructor (a: T.Addr)
      ensures T.Initial(View())
    {
      ptcbs := map[a := T.Ptcb(false, false, 0, 0, 0)];
      threadCount, joining, hist := 1, map[], T.History(1, map[], [], []);
    }

    /** sys_CreateThread: without a task there is no thread, and no Tid. */
    method CreateThread(task: bool, a: T.Addr) returns (tid: Option<T.Addr>)
      requires T.Inv(View()) && a !in ptcbs
      modifies this
      ensures T.Inv(View()) && (task ==> T.Runs(View(), a))
      ensures View() == if task then T.Create(old(View()), a) else old(View())
      ensures tid == if task then Some(a) else None
    {
      if !task { return None; }
      T.CreateInv(View(), a);
      CreateRuns(View(), a);
      hide T.Inv;
      ptcbs := ptcbs[a := T.Ptcb(false, false, 0, 0, hist.next)];
      hist := hist.(next := hist.next + 1);
      threadCount := threadCount + 1;
      tid := Some(a);
    }

    /** sys_ThreadJoin up to its loop; `refused` when it returns -1 at once. */
    method JoinEnter(self: T.Addr, tid: T.Addr) returns (refused: bool)
      requires T.Inv(View()) && T.Runs(View(), self)
      modifies this
      ensures T.Inv(View())
      ensures if refused then View() == old(View()) else self in joining && joining[self].target == tid
      ensures View() == T.Enter(old(View()), self, tid)
      ensures refused <==> !(tid in old(ptcbs) && tid != self && !old(ptcbs)[tid].detached)
      ensures !refused ==>
        && ptcbs == old(ptcbs)[tid := old(ptcbs)[tid].(refcount := old(ptcbs)[tid].refcount + 1)]
        && joining == old(joining)[self := T.Joiner(tid, old(ptcbs)[tid].gen, false)]
    {
      T.EnterInv(View(), self, tid);
      hide T.Inv;
      refused := true;
      if tid in ptcbs && tid != self && !ptcbs[tid].detached {
        ptcbs := ptcbs[tid := ptcbs[tid].(refcount := ptcbs[tid].refcount + 1)];
        joining := joining[self := T.Joiner(tid, ptcbs[tid].gen, false)];
        refused := false;
      }
    }

    /** The loop of sys_ThreadJoin, from one check of its condition to the sleep or the return. */
    method JoinCheck(self: T.Addr) returns (result: Option<T.Outcome>)
      requires T.Inv(View()) && self in joining && !joining[self].asleep
      modifies this
      ensures T.Wf(old(View())) && T.Inv(View())
      ensures View() == T.Check(old(View()), self)
      ensures result.None? <==> self in joining
      ensures result.Some? ==>
        old(joining[self].gen in hist.decided) && result.value == old(hist.decided[joining[self].gen])
    {
      hide T.Inv, T.Wf;
      CheckFacts(View(), self);
      var a := joining[self].target;
      if !ptcbs[a].exited && !ptcbs[a].detached {
        joining := joining[self := joining[self].(asleep := true)];
        return None;
      }
      ptcbs := ptcbs[a := ptcbs[a].(refcount := ptcbs[a].refcount - 1)];
      var g := joining[self].gen;
      joining := joining - {self};
      if ptcbs[a].detached {
        hist := hist.(results := hist.results + [(g, T.Refused)]);
        return Some(T.Refused);
      }
      var v := ptcbs[a].exitval;
      hist := hist.(results := hist.results + [(g, T.Joined(v))]);
      if ptcbs[a].refcount == 0 {
        hist := hist.(freed := hist.freed + [ptcbs[a].gen]);
        assert ptcbs - {a} == old(ptcbs) - {a};
        ptcbs := ptcbs - {a};
      }
      return Some(T.Joined(v));
    }

    /** kernel_broadcast on an exit_cv. */
    method Broadcast(a: T.Addr)
      modifies this`joining
      ensures joining == T.WakeJoiners(old(joining), a) && Awake(joining, a)
    {
      joining := map t | t in joining :: if joining[t].target == a then joining[t].(asleep := false) else joining[t];
    }

    /** sys_ThreadDetach: refused exactly for a thread that is unknown or has exited. */
    method ThreadDetach(tid: T.Addr) returns (ok: bool)
      requires T.Inv(View())
      modifies this
      ensures T.Inv(View())
      ensures ok ==> (forall t :: !T.MayJoin(View(), t, tid)) && Awake(joining, tid)
      ensures View() == T.Detach(old(View()), tid)
      ensures ok <==> tid in old(ptcbs) && !old(ptcbs)[tid].exited
      ensures if ok then ptcbs == old(ptcbs)[tid := old(ptcbs)[tid].(detached := true)] else View() == old(View())
    {
      T.DetachInv(View(), tid);
      hide T.Inv;
      ok := false;
      if tid in ptcbs && !ptcbs[tid].exited {
        ptcbs := ptcbs[tid := ptcbs[tid].(detached := true)];
        hist := T.Decide(hist, ptcbs[tid].gen, T.Refused);
        Broadcast(tid);
        ok := true;
      }
    }

    /** The thread half of sys_ThreadExit. */
    method ThreadExit(self: T.Addr, v: int)
      requires T.Inv(View()) && T.Runs(View(), self)
      modifies this
      ensures T.Inv(View()) && Awake(joining, self)
      ensures ptcbs == old(ptcbs)[self := old(ptcbs)[self].(exited := true, exitval := v)]
      ensures threadCount == old(threadCount) - 1
      ensures View() == T.Exit(old(View()), self, v)
    {
      T.ExitInv(View(), self, v);
      hide T.Inv;
      ptcbs := ptcbs[self := ptcbs[self].(exited := true)];
      ptcbs := ptcbs[self := ptcbs[self].(exitval := v)];
      hist := T.Decide(hist, ptcbs[self].gen, T.Joined(v));
      Broadcast(self);
      threadCount := threadCount - 1;
      assert ptcbs == old(ptcbs)[self := ptcbs[self]];
    }
  }

  /** What a pass through the loop of sys_ThreadJoin relies on and keeps. */
  lemma CheckFacts(s: T.State, self: T.Addr)
    requires T.Inv(s) && self in s.joining
    ensures T.Wf(s) && s.joining[self].target in s.ptcbs && T.Inv(T.Check(s, self))
    ensures var j := s.joining[self]; var b := s.ptcbs[j.target];
      b.exited || b.detached ==>
        j.gen in s.hist.decided && s.hist.decided[j.gen] == if b.detached then T.Refused else T.Joined(b.exitval)
  {
    T.InvWf(s);
    T.CheckInv(s, self);
    T.TargetFacts(s, self);
  }

  lemma CreateRuns(s: T.State, a: T.Addr)
    requires T.Inv(s) && a !in s.ptcbs
    ensures T.Runs(T.Create(s, a), a)
  {
    T.NobodyJoins(s, a);
  }
}
