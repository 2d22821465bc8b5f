/** The kernel lock of kernel_cc.c: a semaphore built as a monitor, which every system call enters and
    which the waits of the kernel give up and take again.  Each step is one section under
    `kernel_mutex` or one condition-variable section; any sleeper may be woken at any time. */
module KernelLock {
  import opened Sequences
  import opened CondVars

  type CvId = nat

  /** Where a thread is.  A `Wanting` thread is about to look at `kernel_sem`; it is `signalled` when a
      signal on `kernel_sem_cv` sent it there.  An `OnKernelCv` or `OnCv` thread is inside cv_wait. */
  datatype Pc = Outside | Wanting(signalled: bool) | Holding | OnKernelCv | OnCv(c: CvId) | Gone

  datatype State = State(sem: int, pcs: map<Tid, Pc>, kcv: Cv, cvs: map<CvId, Cv>)

  ghost predicate CvsOk(s: State) {
    Inv(s.kcv) && forall c :: c in s.cvs ==> Inv(s.cvs[c])
  }

  // ---------- the sections ----------

  function At(s: State, t: Tid): Option<Pc> {
    if t in s.pcs then Some(s.pcs[t]) else None
  }

  /** One look at the semaphore by kernel_lock or by the end of kernel_wait_wchan. */
  ghost function Take(s: State, t: Tid): State
    requires CvsOk(s) && t in s.pcs
  {
    if s.sem <= 0 then s.(pcs := s.pcs[t := OnKernelCv], kcv := Enqueue(s.kcv, t))
    else s.(sem := s.sem - 1, pcs := s.pcs[t := Holding])
  }

  /** Giving the semaphore up, the thread going to `pc`. */
  ghost function GiveUp(s: State, t: Tid, pc: Pc): State
    requires CvsOk(s)
  {
    s.(sem := s.sem + 1, pcs := s.pcs[t := pc], kcv := Signal(s.kcv))
  }

  /** kernel_wait_wchan, up to the sleep. */
  ghost function WaitOn(s: State, t: Tid, c: CvId): State
    requires CvsOk(s) && c in s.cvs
  {
    GiveUp(s, t, OnCv(c)).(cvs := s.cvs[c := Enqueue(s.cvs[c], t)])
  }

  datatype Event =
    | Start(t: Tid) | Call(t: Tid) | Look(t: Tid)
    | Unlock(t: Tid) | WaitEvent(t: Tid, c: CvId) | Exit(t: Tid)
    | SignalCv(c: CvId) | BroadcastCv(c: CvId)
    | WakeK(t: Tid) | WakeC(t: Tid, c: CvId) | ResumeK(t: Tid) | ResumeC(t: Tid, c: CvId)

  ghost predicate Enabled(s: State, e: Event) {
    match e
    case Start(t) => t !in s.pcs
    case Call(t) => At(s, t) == Some(Outside)
    case Look(t) => t in s.pcs && s.pcs[t].Wanting?
    case Unlock(t) => At(s, t) == Some(Holding)
    case WaitEvent(t, c) => At(s, t) == Some(Holding) && c in s.cvs
    case Exit(t) => At(s, t) == Some(Holding)
    case SignalCv(c) => c in s.cvs
    case BroadcastCv(c) => c in s.cvs
    case WakeK(t) => t in s.kcv.waiters && s.kcv.waiters[t].asleep
    case WakeC(t, c) => c in s.cvs && t in s.cvs[c].waiters && s.cvs[c].waiters[t].asleep
    case ResumeK(t) => t in s.kcv.waiters && !s.kcv.waiters[t].asleep
    case ResumeC(t, c) => c in s.cvs && t in s.cvs[c].waiters && !s.cvs[c].waiters[t].asleep
  }

  ghost function Step(s: State, e: Event): State
    requires CvsOk(s) && Enabled(s, e)
  {
    match e
    case Start(t) => s.(pcs := s.pcs[t := Outside])
    case Call(t) => s.(pcs := s.pcs[t := Wanting(false)])
    case Look(t) => Take(s, t)
    case Unlock(t) => GiveUp(s, t, Outside)
    case WaitEvent(t, c) => WaitOn(s, t, c)
    case Exit(t) => GiveUp(s, t, Gone)
    case SignalCv(c) => s.(cvs := s.cvs[c := Signal(s.cvs[c])])
    case BroadcastCv(c) => s.(cvs := s.cvs[c := Broadcast(s.cvs[c])])
    case WakeK(t) => s.(kcv := Wake(s.kcv, t))
    case WakeC(t, c) => s.(cvs := s.cvs[c := Wake(s.cvs[c], t)])
    case ResumeK(t) =>
      s.(pcs := s.pcs[t := Wanting(s.kcv.waiters[t].signalled)], kcv := Apply(s.kcv, ReturnEvent(t)))
    case ResumeC(t, c) =>
      s.(pcs := s.pcs[t := Wanting(false)], cvs := s.cvs[c := Apply(s.cvs[c], ReturnEvent(t))])
  }

  // ---------- the invariant ----------

  ghost function Holders(pcs: map<Tid, Pc>): set<Tid> {
    set t | t in pcs && pcs[t] == Holding
  }

  /** The waiters of a condition variable are the threads inside cv_wait on it. */
  ghost predicate Waiting(cv: Cv, pcs: map<Tid, Pc>, pc: Pc) {
    forall t :: t in cv.waiters <==> t in pcs && pcs[t] == pc
  }

  ghost predicate Placed(kcv: Cv, cvs: map<CvId, Cv>, pcs: map<Tid, Pc>) {
    && Waiting(kcv, pcs, OnKernelCv)
    && forall c {:trigger Waiting(cvs[c], pcs, OnCv(c))} :: c in cvs ==> Waiting(cvs[c], pcs, OnCv(c))
  }

  /** A thread that a signal sent to look at the semaphore, and that has not looked yet. */
  ghost predicate OnItsWay(pcs: map<Tid, Pc>, kcv: Cv, u: Tid) {
    && u in pcs
    && (pcs[u] == Wanting(true) || (pcs[u] == OnKernelCv && u in kcv.waiters && kcv.waiters[u].signalled))
  }

  ghost predicate NoLostWakeup(sem: int, pcs: map<Tid, Pc>, kcv: Cv) {
    sem > 0 && !NobodyAsleep(kcv) ==> exists u :: OnItsWay(pcs, kcv, u)
  }

  ghost predicate LockInv(s: State) {
    && s.sem >= 0 && s.sem + |Holders(s.pcs)| == 1
    && CvsOk(s) && Placed(s.kcv, s.cvs, s.pcs)
    && NoLostWakeup(s.sem, s.pcs, s.kcv)
  }

  // ---------- preservation ----------

  lemma HoldersStep(pcs: map<Tid, Pc>, t: Tid, pc: Pc)
    ensures |Holders(pcs[t := pc])| ==
      |Holders(pcs)| - (if t in pcs && pcs[t] == Holding then 1 else 0) + (if pc == Holding then 1 else 0)
  {
    if pc == Holding {
      assert Holders(pcs[t := pc]) == Holders(pcs) + {t};
    } else {
      assert Holders(pcs[t := pc]) == Holders(pcs) - {t};
    }
  }

  /** Moving a thread between places; the condition variables it leaves and enters move it too. */
  lemma PlacedMove(kcv: Cv, kcv': Cv, cvs: map<CvId, Cv>, pcs: map<Tid, Pc>, t: Tid, pc: Pc)
    requires Placed(kcv, cvs, pcs) && !pc.OnCv? && (t in pcs ==> !pcs[t].OnCv?)
    requires kcv'.waiters.Keys == kcv.waiters.Keys - {t} + (if pc == OnKernelCv then {t} else {})
    ensures Placed(kcv', cvs, pcs[t := pc])
  {
    forall c | c in cvs ensures Waiting(cvs[c], pcs[t := pc], OnCv(c)) {
      assert Waiting(cvs[c], pcs, OnCv(c));
    }
  }

  lemma PlacedMoveC(kcv: Cv, kcv': Cv, cvs: map<CvId, Cv>, c: CvId, cv': Cv, pcs: map<Tid, Pc>, t: Tid, pc: Pc)
    requires Placed(kcv, cvs, pcs) && c in cvs && pc != OnKernelCv && (pc.OnCv? ==> pc.c == c)
    requires t in pcs && pcs[t] != OnKernelCv && (pcs[t].OnCv? ==> pcs[t].c == c)
    requires kcv'.waiters.Keys == kcv.waiters.Keys
    requires cv'.waiters.Keys == cvs[c].waiters.Keys - {t} + (if pc.OnCv? then {t} else {})
    ensures Placed(kcv', cvs[c := cv'], pcs[t := pc])
  {
    forall d | d in cvs[c := cv'] ensures Waiting(cvs[c := cv'][d], pcs[t := pc], OnCv(d)) {
      assert Waiting(cvs[d], pcs, OnCv(d));
    }
  }

  lemma CvStep(cv: Cv)
    requires Inv(cv)
    ensures Inv(Signal(cv)) && Inv(Broadcast(cv))
  {
    SignalInv(cv);
    BroadcastInv(cv);
  }

  /** A signal leaves a signalled waiter whenever somebody was asleep. */
  lemma SignalSends(cv: Cv) returns (u: Option<Tid>)
    requires Inv(cv)
    ensures u.Some? ==> u.value in Signal(cv).waiters && Signal(cv).waiters[u.value].signalled
    ensures u.None? ==> NobodyAsleep(Signal(cv))
  {
    SignalInv(cv);
    if t :| FirstAsleep(cv, t) {
      SignalChoosesFirst(cv, t);
      assert AfterSignal(cv.waiters[t], Signal(cv).waiters[t], t in cv.ring, cv.waiters[t].ticket);
      u := Some(t);
    } else {
      u := None;
      NoFirst(cv);
      SignalIdle(cv);
    }
  }

  lemma NoFirst(cv: Cv)
    requires Inv(cv) && !exists t :: FirstAsleep(cv, t)
    ensures NobodyAsleep(cv)
  {
    var sleepers := set t | t in cv.waiters && cv.waiters[t].asleep;
    if sleepers != {} {
      var t := Earliest(cv, sleepers);
      assert FirstAsleep(cv, t);
    } else {
      assert forall u :: u in cv.waiters && cv.waiters[u].asleep ==> u in sleepers;
    }
  }

  lemma {:induction false} Earliest(cv: Cv, ts: set<Tid>) returns (t: Tid)
    requires ts != {} && forall u :: u in ts ==> u in cv.waiters
    ensures t in ts && forall u :: u in ts ==> cv.waiters[t].ticket <= cv.waiters[u].ticket
    decreases ts
  {
    t :| t in ts;
    if ts != {t} {
      var rest := ts - {t};
      assert rest != {};
      var r := Earliest(cv, rest);
      assert forall u :: u in ts ==> u == t || u in rest;
      if cv.waiters[r].ticket < cv.waiters[t].ticket { t := r; }
    }
  }

  lemma NotWaiting(s: State, t: Tid)
    requires Placed(s.kcv, s.cvs, s.pcs)
    ensures t in s.pcs && s.pcs[t] != OnKernelCv ==> t !in s.kcv.waiters
    ensures forall c :: c in s.cvs && t in s.pcs && s.pcs[t] != OnCv(c) ==> t !in s.cvs[c].waiters
    ensures t in s.kcv.waiters ==> t in s.pcs && s.pcs[t] == OnKernelCv
    ensures forall c :: c in s.cvs && t in s.cvs[c].waiters ==> t in s.pcs && s.pcs[t] == OnCv(c)
  {
    assert forall c :: c in s.cvs ==> Waiting(s.cvs[c], s.pcs, OnCv(c));
  }

  lemma GiveUpInv(s: State, t: Tid, pc: Pc)
    requires LockInv(s) && At(s, t) == Some(Holding) && pc in {Outside, Gone}
    ensures LockInv(GiveUp(s, t, pc))
  {
    hide Inv, Holders, Placed, NoLostWakeup;
    HoldersStep(s.pcs, t, pc);
    CvStep(s.kcv);
    SignalHandsOver(s, t, pc);
    NotWaiting(s, t);
    PlacedMove(s.kcv, Signal(s.kcv), s.cvs, s.pcs, t, pc);
  }

  /** Giving the kernel up loses no wakeup. */
  lemma SignalHandsOver(s: State, t: Tid, pc: Pc)
    requires LockInv(s) && At(s, t) == Some(Holding)
    ensures NoLostWakeup(s.sem + 1, s.pcs[t := pc], Signal(s.kcv))
  {
    hide Inv;
    var u := SignalSends(s.kcv);
    if u.Some? {
      assert u.value in s.kcv.waiters && u.value != t;
      assert OnItsWay(s.pcs[t := pc], Signal(s.kcv), u.value);
    }
  }

  lemma WaitOnInv(s: State, t: Tid, c: CvId)
    requires LockInv(s) && At(s, t) == Some(Holding) && c in s.cvs
    ensures LockInv(WaitOn(s, t, c))
  {
    hide Inv, Holders, Placed, NoLostWakeup;
    HoldersStep(s.pcs, t, OnCv(c));
    CvStep(s.kcv);
    NotWaiting(s, t);
    EnqueueInv(s.cvs[c], t);
    SignalHandsOver(s, t, OnCv(c));
    PlacedMoveC(s.kcv, Signal(s.kcv), s.cvs, c, Enqueue(s.cvs[c], t), s.pcs, t, OnCv(c));
  }

  lemma BlockInv(s: State, t: Tid)
    requires LockInv(s) && t in s.pcs && s.pcs[t].Wanting? && s.sem <= 0
    ensures LockInv(Take(s, t))
  {
    hide Inv, Holders, Placed, NobodyAsleep, OnItsWay;
    NotWaiting(s, t);
    HoldersStep(s.pcs, t, OnKernelCv);
    EnqueueInv(s.kcv, t);
    PlacedMove(s.kcv, Enqueue(s.kcv, t), s.cvs, s.pcs, t, OnKernelCv);
  }

  lemma TakeInv(s: State, t: Tid)
    requires LockInv(s) && t in s.pcs && s.pcs[t].Wanting? && s.sem > 0
    ensures LockInv(Take(s, t))
  {
    hide Inv, Holders, Placed, NobodyAsleep, OnItsWay;
    NotWaiting(s, t);
    HoldersStep(s.pcs, t, Holding);
    PlacedMove(s.kcv, s.kcv, s.cvs, s.pcs, t, Holding);
  }

  lemma ResumeInv(s: State, t: Tid)
    requires LockInv(s) && Enabled(s, ResumeK(t))
    ensures LockInv(Step(s, ResumeK(t)))
  {
    hide Inv, Holders, Placed, NoLostWakeup;
    var sig := s.kcv.waiters[t].signalled;
    NotWaiting(s, t);
    HoldersStep(s.pcs, t, Wanting(sig));
    StepInv(s.kcv, ReturnEvent(t));
    var r := Step(s, ResumeK(t));
    assert r.kcv.waiters == s.kcv.waiters - {t};
    PlacedMove(s.kcv, r.kcv, s.cvs, s.pcs, t, Wanting(sig));
    ResumeKeeps(s.sem, s.pcs, s.kcv, r.kcv, t);
  }

  lemma ResumeKeeps(sem: int, pcs: map<Tid, Pc>, kcv: Cv, kcv': Cv, t: Tid)
    requires NoLostWakeup(sem, pcs, kcv) && t in kcv.waiters && t in pcs && pcs[t] == OnKernelCv
    requires kcv'.waiters == kcv.waiters - {t}
    ensures NoLostWakeup(sem, pcs[t := Wanting(kcv.waiters[t].signalled)], kcv')
  {
    if sem > 0 && !NobodyAsleep(kcv') {
      var u :| OnItsWay(pcs, kcv, u);
      assert OnItsWay(pcs[t := Wanting(kcv.waiters[t].signalled)], kcv', u);
    }
  }

  lemma ResumeCInv(s: State, t: Tid, c: CvId)
    requires LockInv(s) && Enabled(s, ResumeC(t, c))
    ensures LockInv(Step(s, ResumeC(t, c)))
  {
    hide Inv, Holders, Placed, NoLostWakeup;
    NotWaiting(s, t);
    HoldersStep(s.pcs, t, Wanting(false));
    StepInv(s.cvs[c], ReturnEvent(t));
    var r := Step(s, ResumeC(t, c));
    assert r.cvs[c].waiters == s.cvs[c].waiters - {t};
    PlacedMoveC(s.kcv, s.kcv, s.cvs, c, r.cvs[c], s.pcs, t, Wanting(false));
    KeepOnItsWay(s.sem, s.pcs, s.kcv, t, Wanting(false));
  }

  /** Moving a thread that is not on its way leaves the others on theirs. */
  lemma KeepOnItsWay(sem: int, pcs: map<Tid, Pc>, kcv: Cv, t: Tid, pc: Pc)
    requires NoLostWakeup(sem, pcs, kcv)
    requires t in pcs ==> pcs[t] != Wanting(true) && pcs[t] != OnKernelCv
    ensures NoLostWakeup(sem, pcs[t := pc], kcv)
  {
    if sem > 0 && !NobodyAsleep(kcv) {
      var u :| OnItsWay(pcs, kcv, u);
      assert OnItsWay(pcs[t := pc], kcv, u);
    }
  }

  lemma WakeKInv(s: State, t: Tid)
    requires LockInv(s) && Enabled(s, WakeK(t))
    ensures LockInv(Step(s, WakeK(t)))
  {
    WakeInv(s.kcv, t);
    var r := Step(s, WakeK(t));
    hide Inv, Holders;
    if r.sem > 0 && !NobodyAsleep(r.kcv) {
      var u :| OnItsWay(s.pcs, s.kcv, u);
      assert OnItsWay(r.pcs, r.kcv, u);
    }
  }

  /** Steps that only touch one other condition variable. */
  lemma CvOnlyInv(s: State, c: CvId, cv: Cv)
    requires LockInv(s) && c in s.cvs && Inv(cv) && cv.waiters.Keys == s.cvs[c].waiters.Keys
    ensures LockInv(s.(cvs := s.cvs[c := cv]))
  {
    hide Inv, Holders;
    var cvs := s.cvs[c := cv];
    forall d | d in cvs ensures Waiting(cvs[d], s.pcs, OnCv(d)) {
      assert Waiting(s.cvs[d], s.pcs, OnCv(d));
    }
  }

  lemma MoveInv(s: State, t: Tid, pc: Pc)
    requires LockInv(s) && (t in s.pcs ==> s.pcs[t] == Outside) && (pc == Outside || pc == Wanting(false))
    ensures LockInv(s.(pcs := s.pcs[t := pc]))
  {
    hide Inv, Holders, Placed, NoLostWakeup;
    NotWaiting(s, t);
    HoldersStep(s.pcs, t, pc);
    KeepOnItsWay(s.sem, s.pcs, s.kcv, t, pc);
    PlacedMove(s.kcv, s.kcv, s.cvs, s.pcs, t, pc);
  }

  lemma LockStep(s: State, e: Event)
    requires LockInv(s) && Enabled(s, e)
    ensures LockInv(Step(s, e))
  {
    match e
    case Start(t) => MoveInv(s, t, Outside);
    case Call(t) => MoveInv(s, t, Wanting(false));
    case Look(t) => if s.sem <= 0 { BlockInv(s, t); } else { TakeInv(s, t); }
    case Unlock(t) => GiveUpInv(s, t, Outside);
    case WaitEvent(t, c) => WaitOnInv(s, t, c);
    case Exit(t) => GiveUpInv(s, t, Gone);
    case SignalCv(c) => CvStep(s.cvs[c]); CvOnlyInv(s, c, Signal(s.cvs[c]));
    case BroadcastCv(c) => CvStep(s.cvs[c]); CvOnlyInv(s, c, Broadcast(s.cvs[c]));
    case WakeK(t) => WakeKInv(s, t);
    case WakeC(t, c) => WakeInv(s.cvs[c], t); CvOnlyInv(s, c, Wake(s.cvs[c], t));
    case ResumeK(t) => ResumeInv(s, t);
    case ResumeC(t, c) => ResumeCInv(s, t, c);
  }

  // ---------- runs ----------

  ghost predicate Initial(s: State) {
    && s.sem == 1 && s.kcv == COND_INIT
    && (forall t :: t in s.pcs ==> s.pcs[t] == Outside)
    && (forall c :: c in s.cvs ==> s.cvs[c] == COND_INIT)
  }

  ghost predicate IsRun(ss: seq<State>, es: seq<Event>) {
    && |ss| == |es| + 1
    && forall i :: 0 <= i < |es| ==> Next(ss[i], es[i], ss[i + 1])
  }

  ghost predicate Next(s: State, e: Event, s': State) {
    CvsOk(s) && Enabled(s, e) && s' == Step(s, e)
  }

  lemma InitialExists(threads: set<Tid>, cvs: set<CvId>) returns (s: State)
    ensures Initial(s) && s.pcs.Keys == threads && s.cvs.Keys == cvs
  {
    s := State(1, map t | t in threads :: Outside, COND_INIT, map c | c in cvs :: COND_INIT);
  }

  lemma InitialLockInv(s: State)
    requires Initial(s)
    ensures LockInv(s)
  {
    assert Holders(s.pcs) == {};
  }

  /** In every state of every run the semaphore and the threads in the kernel make one, so at most one
      thread is in the kernel; and while the semaphore is free, a thread asleep on it implies a
      signalled thread on its way. */
  lemma RunLock(ss: seq<State>, es: seq<Event>)
    requires IsRun(ss, es) && Initial(ss[0])
    ensures forall i :: 0 <= i < |ss| ==> LockInv(ss[i])
  {
    InitialLockInv(ss[0]);
    for j := 0 to |es|
      invariant forall i :: 0 <= i <= j ==> LockInv(ss[i])
    {
      assert Next(ss[j], es[j], ss[j + 1]);
      LockStep(ss[j], es[j]);
    }
  }

  lemma MutualExclusion(s: State, t: Tid, u: Tid)
    requires LockInv(s) && At(s, t) == Some(Holding) && At(s, u) == Some(Holding)
    ensures t == u && s.sem == 0
  {
    var hs := Holders(s.pcs);
    assert |hs - {t}| == |hs| - 1;
    assert t != u ==> u in hs - {t};
  }

  /** Nobody sleeps on a free kernel for ever: if a thread sleeps waiting for the kernel, then either
      some thread is inside, or a signalled thread can enter in at most two steps of its own. */
  lemma SleeperServed(s: State, t: Tid) returns (u: Tid)
    requires LockInv(s) && t in s.kcv.waiters && s.kcv.waiters[t].asleep
    ensures At(s, u) == Some(Holding)
      || (Enabled(s, Look(u)) && At(Step(s, Look(u)), u) == Some(Holding))
      || (Enabled(s, ResumeK(u)) && LockInv(Step(s, ResumeK(u)))
          && Enabled(Step(s, ResumeK(u)), Look(u))
          && At(Step(Step(s, ResumeK(u)), Look(u)), u) == Some(Holding))
  {
    if s.sem <= 0 {
      assert |Holders(s.pcs)| == 1;
      u :| u in Holders(s.pcs);
    } else {
      u :| OnItsWay(s.pcs, s.kcv, u);
      if s.pcs[u] == OnKernelCv {
        assert WaiterOk(s.kcv.waiters[u], u in s.kcv.ring, s.kcv.tickets, s.kcv.chosen);
        ResumeInv(s, u);
      }
    }
  }

  // ---------- what each section does ----------

  /** Where event `e` takes its thread, and what it does to the semaphore. */
  ghost predicate Goes(s: State, e: Event, r: State) {
    match e
    case Start(t) => r.pcs == s.pcs[t := Outside] && r.sem == s.sem
    case Call(t) => r.pcs == s.pcs[t := Wanting(false)] && r.sem == s.sem
    case Look(t) =>
      if s.sem > 0 then r.pcs == s.pcs[t := Holding] && r.sem == s.sem - 1 && r.kcv == s.kcv
      else r.pcs == s.pcs[t := OnKernelCv] && r.sem == s.sem && t in r.kcv.waiters && r.kcv.waiters[t].asleep
    case Unlock(t) => r.pcs == s.pcs[t := Outside] && r.sem == s.sem + 1
    case WaitEvent(t, c) =>
      && r.pcs == s.pcs[t := OnCv(c)] && r.sem == s.sem + 1
      && c in r.cvs && t in r.cvs[c].waiters && r.cvs[c].waiters[t].asleep
    case Exit(t) => r.pcs == s.pcs[t := Gone] && r.sem == s.sem + 1
    case ResumeK(t) =>
      && t in s.kcv.waiters && r.pcs == s.pcs[t := Wanting(s.kcv.waiters[t].signalled)]
      && r.sem == s.sem && t !in r.kcv.waiters
    case ResumeC(t, c) => r.pcs == s.pcs[t := Wanting(false)] && r.sem == s.sem && c in r.cvs && t !in r.cvs[c].waiters
    case _ => r.pcs == s.pcs && r.sem == s.sem
  }

  lemma StepGoes(s: State, e: Event)
    requires LockInv(s) && Enabled(s, e)
    ensures Goes(s, e, Step(s, e))
  {
    hide Inv, Holders, Placed, NoLostWakeup;
  }

  /** A section that gives the kernel up signals its condition variable: the first sleeper in arrival order is
      chosen, if there is any. */
  lemma GiveUpSignals(s: State, e: Event, t: Tid)
    requires LockInv(s) && Enabled(s, e) && (e.Unlock? || e.Exit? || e.WaitEvent?) && FirstAsleep(s.kcv, t)
    ensures var r := Step(s, e).kcv;
      r.chosen == s.kcv.chosen + [s.kcv.waiters[t].ticket] && t in r.waiters && r.waiters[t].signalled
  {
    SignalChoosesFirst(s.kcv, t);
    assert AfterSignal(s.kcv.waiters[t], Signal(s.kcv).waiters[t], t in s.kcv.ring, s.kcv.waiters[t].ticket);
  }

  /** kernel_signal wakes the first sleeper of the condition variable, kernel_broadcast every one, and a timeout
      only its thread. */
  lemma WakesReach(s: State, e: Event)
    requires LockInv(s) && Enabled(s, e)
    ensures var r := Step(s, e);
      && (e.SignalCv? ==>
            && r.kcv == s.kcv && e.c in r.cvs && r.cvs == s.cvs[e.c := r.cvs[e.c]]
            && (forall u :: FirstAsleep(s.cvs[e.c], u) ==>
                  u in r.cvs[e.c].waiters && r.cvs[e.c].waiters[u].signalled && !r.cvs[e.c].waiters[u].asleep))
      && (e.BroadcastCv? ==>
            && r.kcv == s.kcv && e.c in r.cvs && r.cvs == s.cvs[e.c := r.cvs[e.c]] && r.cvs[e.c].ring == []
            && (forall u :: u in s.cvs[e.c].waiters ==>
                  && u in r.cvs[e.c].waiters && !r.cvs[e.c].waiters[u].asleep
                  && (s.cvs[e.c].waiters[u].asleep ==> r.cvs[e.c].waiters[u].signalled)))
      && (e.WakeK? ==> r.cvs == s.cvs && e.t in r.kcv.waiters && !r.kcv.waiters[e.t].asleep)
      && (e.WakeC? ==>
            && r.kcv == s.kcv && e.c in r.cvs && r.cvs == s.cvs[e.c := r.cvs[e.c]]
            && e.t in r.cvs[e.c].waiters && !r.cvs[e.c].waiters[e.t].asleep)
  {
    if e.SignalCv? {
      var cv := s.cvs[e.c];
      forall u | FirstAsleep(cv, u)
        ensures u in Signal(cv).waiters && Signal(cv).waiters[u].signalled && !Signal(cv).waiters[u].asleep
      {
        SignalChoosesFirst(cv, u);
        assert AfterSignal(cv.waiters[u], Signal(cv).waiters[u], u in cv.ring, cv.waiters[u].ticket);
      }
    } else if e.BroadcastCv? {
      BroadcastWakesAll(s.cvs[e.c]);
    }
    hide Inv, Holders, Placed, NoLostWakeup, Signal, Broadcast, FirstAsleep;
  }

  /** kernel_wait_wchan takes the kernel back: a thread that waits in it comes out of the kernel, or exits, only
      after it has been inside again. */
  lemma WaitTakesBack(ss: seq<State>, es: seq<Event>, t: Tid, i: nat, c: CvId) returns (k: nat)
    requires IsRun(ss, es) && Initial(ss[0]) && i < |ss| && At(ss[i], t) == Some(OnCv(c))
    requires At(ss[|es|], t) == Some(Outside) || At(ss[|es|], t) == Some(Gone)
    ensures i < k < |ss| && At(ss[k], t) == Some(Holding)
  {
    RunLock(ss, es);
    hide LockInv, Initial;
    k := i;
    while k < |es| && At(ss[k], t) != Some(Holding)
      invariant i <= k <= |es|
      invariant At(ss[k], t) == Some(Holding) || Inside(At(ss[k], t))
    {
      assert Next(ss[k], es[k], ss[k + 1]);
      StepInside(ss[k], es[k], t);
      k := k + 1;
    }
  }

  /** On the way through kernel_wait_wchan or kernel_lock. */
  predicate Inside(pc: Option<Pc>) {
    pc.Some? && (pc.value.OnCv? || pc.value.Wanting? || pc.value == OnKernelCv)
  }

  lemma StepInside(s: State, e: Event, t: Tid)
    requires LockInv(s) && Enabled(s, e) && Inside(At(s, t))
    ensures At(Step(s, e), t) == Some(Holding) || Inside(At(Step(s, e), t))
  {
    StepGoes(s, e);
    NotWaiting(s, t);
    hide LockInv, Step;
  }
}
