/** The process table of kernel_proc.c and the process half of sys_ThreadExit (kernel_threads.c).
    Each step is one section of a system call between taking the kernel and giving it up. */
module Processes {
  import opened Sequences

  type Pid = nat

  datatype PidState = Free | Alive | Zombie

  /** `parent` doubles as the link of the free list.  `gen` is history: the number of the process that
      last took the PCB. */
  datatype Pcb = Pcb(
    pstate: PidState, parent: Option<Pid>, children: seq<Pid>, exited: seq<Pid>,
    exitval: int, threads: int, gen: nat)

  /** What the one thread of a process that is inside WaitChild waits for; `Exiting` is the loop with
      which init leaves. */
  datatype Wait = Any | Specific(c: Pid) | Exiting

  /** History: the number of the next process, the exit value each process left behind, and the
      processes reaped, with the status handed over. */
  datatype History = History(next: nat, left: map<nat, int>, reaped: seq<(nat, int)>)

  /** `waiting` maps a process to what its thread in WaitChild waits for; in `asleep` are the processes
      whose waiter sleeps on their `child_exit`. */
  datatype State = State(
    pt: seq<Pcb>, free: seq<Pid>, count: int, waiting: map<Pid, Wait>, asleep: set<Pid>, hist: History)

  const INIT: Pid := 1

  function Head(free: seq<Pid>): Option<Pid> {
    if free == [] then None else Some(free[0])
  }

  ghost predicate Below(q: seq<Pid>, n: nat) {
    forall i :: 0 <= i < |q| ==> q[i] < n
  }

  // ---------- the table ----------

  /** release_PCB */
  function ReleasePcb(s: State, p: Pid): State
    requires p < |s.pt|
  {
    s.(pt := s.pt[p := s.pt[p].(pstate := Free, parent := Head(s.free))], free := [p] + s.free, count := s.count - 1)
  }

  /** acquire_PCB */
  function AcquirePcb(s: State): (State, Option<Pid>)
    requires s.free != [] ==> s.free[0] < |s.pt|
  {
    if s.free == [] then (s, None)
    else
      var p := s.free[0];
      (s.(pt := s.pt[p := s.pt[p].(pstate := Alive, gen := s.hist.next)], free := s.free[1..], count := s.count + 1,
          hist := s.hist.(next := s.hist.next + 1)),
       Some(p))
  }

  /** sys_Exec by process `cur`; without a task the new process gets no thread.  None is NOPROC. */
  function Exec(s: State, cur: Pid, task: bool): (State, Option<Pid>)
    requires cur < |s.pt| && (s.free != [] ==> s.free[0] < |s.pt|)
  {
    var (a, n) := AcquirePcb(s);
    if n.None? then (a, None)
    else
      (a.(pt := SetUp(a.pt, n.value, cur, task)), n)
  }

  /** What sys_Exec writes into the table: the new PCB `p`, and `cur`'s list of children. */
  function SetUp(pt: seq<Pcb>, p: Pid, cur: Pid, task: bool): (r: seq<Pcb>)
    requires p < |pt| && cur < |pt|
    ensures |r| == |pt|
  {
    var born := pt[p].(parent := if p <= INIT then None else Some(cur), threads := if task then 1 else 0);
    var pt1 := pt[p := born];
    if p <= INIT then pt1 else pt1[cur := pt1[cur].(children := [p] + pt1[cur].children)]
  }

  /** The thread_count++ of sys_CreateThread. */
  function CreateThread(s: State, p: Pid): State
    requires p < |s.pt|
  {
    s.(pt := s.pt[p := s.pt[p].(threads := s.pt[p].threads + 1)])
  }

  // ---------- reaping ----------

  /** Taking the nodes of `c` off the lists of its parent. */
  function Unlink(pt: seq<Pcb>, c: Pid): (r: seq<Pcb>)
    requires c < |pt|
    ensures |r| == |pt|
  {
    if pt[c].parent.None? || pt[c].parent.value >= |pt| then pt
    else
      var q := pt[c].parent.value;
      pt[q := pt[q].(children := Without(pt[q].children, c), exited := Without(pt[q].exited, c))]
  }

  /** cleanup_zombie */
  function Cleanup(s: State, c: Pid): State
    requires c < |s.pt|
  {
    ReleasePcb(s.(pt := Unlink(s.pt, c),
                  hist := s.hist.(reaped := s.hist.reaped + [(s.pt[c].gen, s.pt[c].exitval)])), c)
  }

  // ---------- exiting ----------

  /** The loop that hands the children of `cur` to init: each moves to the front of init's list. */
  function Reparent(pt: seq<Pcb>, cur: Pid): (r: seq<Pcb>)
    requires cur < |pt| && INIT < |pt| && cur != INIT
    requires Below(pt[cur].children, |pt|)
    ensures |r| == |pt|
    decreases |pt[cur].children|
  {
    if pt[cur].children == [] then pt
    else
      ReparentOneKeeps(pt, cur);
      Reparent(ReparentOne(pt, cur), cur)
  }

  function ReparentOne(pt: seq<Pcb>, cur: Pid): (r: seq<Pcb>)
    requires cur < |pt| && INIT < |pt| && cur != INIT && pt[cur].children != []
    requires Below(pt[cur].children, |pt|)
    ensures |r| == |pt|
  {
    var c := pt[cur].children[0];
    var pt1 := pt[cur := pt[cur].(children := pt[cur].children[1..])];
    var pt2 := pt1[c := pt1[c].(parent := Some(INIT))];
    pt2[INIT := pt2[INIT].(children := [c] + pt2[INIT].children)]
  }

  lemma ReparentOneKeeps(pt: seq<Pcb>, cur: Pid)
    requires cur < |pt| && INIT < |pt| && cur != INIT && pt[cur].children != []
    requires Below(pt[cur].children, |pt|)
    ensures ReparentOne(pt, cur)[cur].children == pt[cur].children[1..]
    ensures Below(pt[cur].children[1..], |pt|)
  {}

  /** Handing over the exited children, and joining the parent's exited list. */
  function HandOver(pt: seq<Pcb>, cur: Pid): (r: seq<Pcb>)
    requires cur < |pt| && INIT < |pt|
    ensures |r| == |pt|
  {
    var pt1 :=
      if pt[cur].exited == [] then pt
      else
        var p := pt[INIT := pt[INIT].(exited := pt[INIT].exited + pt[cur].exited)];
        p[cur := p[cur].(exited := [])];
    if pt1[cur].parent.None? || pt1[cur].parent.value >= |pt| then pt1
    else
      var q := pt1[cur].parent.value;
      pt1[q := pt1[q].(exited := [cur] + pt1[q].exited)]
  }

  /** The processes whose `child_exit` is broadcast on the way. */
  function Woken(pt: seq<Pcb>, cur: Pid): set<Pid>
    requires cur < |pt|
  {
    (if pt[cur].exited == [] then {} else {INIT})
    + (if pt[cur].parent.None? then {} else {pt[cur].parent.value})
  }

  ghost predicate InRange(pt: seq<Pcb>, p: Pid) {
    p < |pt| && INIT < |pt| && Below(pt[p].children, |pt|)
  }

  /** The lists of an exiting process when it reaches the asserts of sys_ThreadExit. */
  function Emptied(pt: seq<Pcb>, cur: Pid): (r: seq<Pcb>)
    requires InRange(pt, cur)
    ensures |r| == |pt|
  {
    if cur != INIT then HandOver(Reparent(pt, cur), cur) else pt
  }

  /** What sys_ThreadExit asserts before it marks the process as exited. */
  ghost predicate ExitAsserts(pt: seq<Pcb>, cur: Pid)
    requires InRange(pt, cur)
  {
    Emptied(pt, cur)[cur].children == [] && Emptied(pt, cur)[cur].exited == []
  }

  /** sys_ThreadExit by a thread of `cur`. */
  function ThreadExit(s: State, cur: Pid): State
    requires InRange(s.pt, cur)
  {
    var left := s.pt[cur].threads - 1;
    var pt := s.pt[cur := s.pt[cur].(threads := left)];
    if left != 0 then s.(pt := pt)
    else
      var r := Emptied(pt, cur);
      s.(pt := r[cur := r[cur].(pstate := Zombie)],
         asleep := if cur == INIT then s.asleep else s.asleep - Woken(Reparent(pt, cur), cur),
         hist := s.hist.(left := s.hist.left[s.pt[cur].gen := s.pt[cur].exitval]))
  }

  // ---------- WaitChild and Exit ----------

  /** The waiter of `p` goes to sleep, or is done. */
  function FallAsleep(s: State, p: Pid, w: Wait): State {
    s.(waiting := s.waiting[p := w], asleep := s.asleep + {p})
  }

  function EndWait(s: State, p: Pid): State {
    s.(waiting := s.waiting - {p}, asleep := s.asleep - {p})
  }

  /** One pass through the loop of a WaitChild by process `p`: it finishes, or sleeps. */
  function WaitStep(s: State, p: Pid, w: Wait): State
    requires InRange(s.pt, p) && (w.Specific? ==> w.c < |s.pt|)
    requires s.pt[p].exited != [] ==> s.pt[p].exited[0] < |s.pt|
  {
    match w
    case Specific(c) =>
      if s.pt[c].pstate == Alive then FallAsleep(s, p, w) else EndWait(Cleanup(s, c), p)
    case Any =>
      if s.pt[p].children == [] then EndWait(s, p)
      else if s.pt[p].exited != [] then EndWait(Cleanup(s, s.pt[p].exited[0]), p)
      else FallAsleep(s, p, w)
    case Exiting =>
      if s.pt[p].children == [] then EndWait(ThreadExit(s, p), p)
      else if s.pt[p].exited != [] then
        EndWait(Cleanup(s, s.pt[p].exited[0]), p).(waiting := s.waiting[p := w])
      else FallAsleep(s, p, w)
  }

  /** The legality checks of wait_for_specific_child. */
  predicate LegalChild(pt: seq<Pcb>, p: Pid, cpid: int) {
    && 0 <= cpid < |pt|
    && pt[cpid].pstate != Free && pt[cpid].parent == Some(p)
  }

  /** sys_WaitChild; `cpid` is None for NOPROC. */
  function WaitChild(s: State, p: Pid, cpid: Option<int>): State
    requires InRange(s.pt, p)
    requires s.pt[p].exited != [] ==> s.pt[p].exited[0] < |s.pt|
  {
    if cpid.None? then WaitStep(s, p, Any)
    else if !LegalChild(s.pt, p, cpid.value) then s
    else WaitStep(s, p, Specific(cpid.value))
  }

  /** sys_Exit */
  function Exit(s: State, p: Pid, v: int): State
    requires InRange(s.pt, p)
    requires s.pt[p].exited != [] ==> s.pt[p].exited[0] < |s.pt|
  {
    var r := s.(pt := s.pt[p := s.pt[p].(exitval := v)]);
    if p == INIT then WaitStep(r, p, Exiting) else ThreadExit(r, p)
  }
}
