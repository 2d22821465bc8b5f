/** Stream references (kernel_streams.c, the fid-table loops of sys_Exec and sys_ThreadExit): file
    control blocks counted by the fid-table entries and the reads and writes that use them. */
module Streams {
  import opened Sequences

  type Pid = nat
  type Fid = nat
  type FcbId = nat

  const MAX_FILEID := 16

  /** What may hold an FCB: entry `fid` of the table of process `p`, or a read or write in flight. */
  datatype Ref = Slot(p: Pid, fid: Fid) | Op(id: nat)

  /** `gen` is history: the number of the stream the FCB was last given to. */
  datatype Fcb = Fcb(refcount: int, gen: nat)

  /** History: the number of the next stream, the stream each reference was made to, and the streams
      whose Close ran, or that were given back unused. */
  datatype History = History(next: nat, made: map<Ref, nat>, closed: seq<nat>, dropped: seq<nat>)

  datatype State = State(
    ft: seq<Fcb>, free: seq<FcbId>, refs: map<Ref, FcbId>, procs: set<Pid>, hist: History)

  ghost predicate Wf(s: State) {
    && (forall i :: 0 <= i < |s.free| ==> s.free[i] < |s.ft|)
    && (forall r :: r in s.refs ==> s.refs[r] < |s.ft|)
    && s.hist.made.Keys == s.refs.Keys
  }

  // ---------- references ----------

  /** FCB_incref by a new reference `r`. */
  function Incref(s: State, r: Ref, f: FcbId): (s': State)
    requires Wf(s) && f < |s.ft|
    ensures Wf(s')
  {
    s.(ft := s.ft[f := s.ft[f].(refcount := s.ft[f].refcount + 1)], refs := s.refs[r := f],
       hist := s.hist.(made := s.hist.made[r := s.ft[f].gen]))
  }

  /** FCB_decref by the reference `r`, which ends: the last one closes the stream. */
  function Decref(s: State, r: Ref): (s': State)
    requires Wf(s) && r in s.refs
    ensures Wf(s')
  {
    var f := s.refs[r];
    var b := s.ft[f].(refcount := s.ft[f].refcount - 1);
    var h := s.hist.(made := s.hist.made - {r});
    var s1 := s.(ft := s.ft[f := b], refs := s.refs - {r}, hist := h);
    if b.refcount == 0 then s1.(free := s1.free + [f], hist := h.(closed := h.closed + [b.gen])) else s1
  }

  /** acquire_FCB, of a non-empty free list. */
  function Acquire(s: State): (s': State)
    requires Wf(s) && s.free != []
    ensures Wf(s')
  {
    s.(ft := s.ft[s.free[0] := s.ft[s.free[0]].(refcount := 0)], free := s.free[1..])
  }

  /** release_FCB */
  function Release(s: State, f: FcbId): (s': State)
    requires Wf(s) && f < |s.ft|
    ensures Wf(s')
  {
    s.(free := s.free + [f])
  }

  // ---------- FCB_reserve ----------

  /** The free fids of process `p` from `fid` up. */
  function FreeFids(refs: map<Ref, FcbId>, p: Pid, fid: Fid): seq<Fid>
    decreases MAX_FILEID - fid
  {
    if fid >= MAX_FILEID then []
    else if Slot(p, fid) in refs then FreeFids(refs, p, fid + 1)
    else [fid] + FreeFids(refs, p, fid + 1)
  }

  lemma NextFid(refs: map<Ref, FcbId>, p: Pid, fid: Fid)
    ensures FreeFids(refs, p, fid) ==
      if fid >= MAX_FILEID then []
      else (if Slot(p, fid) in refs then [] else [fid]) + FreeFids(refs, p, fid + 1)
  {
    assert [] + FreeFids(refs, p, fid + 1) == FreeFids(refs, p, fid + 1);
  }

  /** The allocation loop, up to the first failure: the FCBs it took, in order. */
  function AcquireMany(s: State, num: nat): (r: (State, seq<FcbId>))
    requires Wf(s)
    ensures Wf(r.0) && |r.0.ft| == |s.ft| && r.0.refs == s.refs && r.0.procs == s.procs && r.0.hist == s.hist
    ensures forall i :: 0 <= i < |r.1| ==> r.1[i] < |s.ft|
    ensures |r.1| <= num
    decreases num
  {
    if num == 0 || s.free == [] then (s, [])
    else
      var (s', fs) := AcquireMany(Acquire(s), num - 1);
      (s', [s.free[0]] + fs)
  }

  /** The rollback loop: gives the FCBs back, last first. */
  function ReleaseAll(s: State, fs: seq<FcbId>): (s': State)
    requires Wf(s) && forall i :: 0 <= i < |fs| ==> fs[i] < |s.ft|
    ensures Wf(s')
    decreases |fs|
  {
    if fs == [] then s else ReleaseAll(Release(s, fs[|fs| - 1]), fs[..|fs| - 1])
  }

  /** Giving FCB `f` to a new stream, in slot `fid`. */
  function Install(s: State, p: Pid, fid: Fid, f: FcbId): (s': State)
    requires Wf(s) && f < |s.ft|
    ensures Wf(s')
  {
    Incref(s.(ft := s.ft[f := s.ft[f].(gen := s.hist.next)], hist := s.hist.(next := s.hist.next + 1)), Slot(p, fid), f)
  }

  function InstallAll(s: State, p: Pid, fids: seq<Fid>, fs: seq<FcbId>): (s': State)
    requires Wf(s) && |fids| == |fs| && forall i :: 0 <= i < |fs| ==> fs[i] < |s.ft|
    ensures Wf(s')
    decreases |fs|
  {
    if fs == [] then s else InstallAll(Install(s, p, fids[0], fs[0]), p, fids[1..], fs[1..])
  }

  /** FCB_reserve, with the fids and FCBs it hands out on success. */
  function Reserve(s: State, p: Pid, num: nat): (r: (State, Option<(seq<Fid>, seq<FcbId>)>))
    requires Wf(s)
    ensures Wf(r.0)
  {
    var fids := FreeFids(s.refs, p, 0);
    if |fids| < num then (s, None)
    else
      var (a, fs) := AcquireMany(s, num);
      if |fs| < num then (ReleaseAll(a, fs), None)
      else (InstallAll(a, p, fids[..num], fs), Some((fids[..num], fs)))
  }

  /** One turn of FCB_unreserve. */
  function Unreserve(s: State, p: Pid, fid: Fid): (s': State)
    requires Wf(s) && Slot(p, fid) in s.refs
    ensures Wf(s')
  {
    var f := s.refs[Slot(p, fid)];
    s.(free := s.free + [f], refs := s.refs - {Slot(p, fid)},
       hist := s.hist.(made := s.hist.made - {Slot(p, fid)}, dropped := s.hist.dropped + [s.ft[f].gen]))
  }

  function UnreserveAll(s: State, p: Pid, fids: seq<Fid>): (s': State)
    requires Wf(s) && NoDup(fids) && forall i :: 0 <= i < |fids| ==> Slot(p, fids[i]) in s.refs
    ensures Wf(s')
    decreases |fids|
  {
    if fids == [] then s else UnreserveAll(Unreserve(s, p, fids[0]), p, fids[1..])
  }

  // ---------- the calls ----------

  /** The start of sys_Read or sys_Write, which then runs as `Op(id)`. */
  function Begin(s: State, p: Pid, fd: int, id: nat): (s': State)
    requires Wf(s)
    ensures Wf(s')
  {
    if 0 <= fd < MAX_FILEID && Slot(p, fd) in s.refs then Incref(s, Op(id), s.refs[Slot(p, fd)]) else s
  }

  /** sys_Close */
  function Close(s: State, p: Pid, fd: int): (s': State)
    requires Wf(s)
    ensures Wf(s')
  {
    if 0 <= fd < MAX_FILEID && Slot(p, fd) in s.refs then Decref(s, Slot(p, fd)) else s
  }

  /** sys_Dup2 */
  function Dup2(s: State, p: Pid, oldfd: int, newfd: int): (s': State)
    requires Wf(s)
    ensures Wf(s')
  {
    if !(0 <= oldfd < MAX_FILEID && 0 <= newfd < MAX_FILEID) || Slot(p, oldfd) !in s.refs then s
    else
      var f := s.refs[Slot(p, oldfd)];
      if Slot(p, newfd) in s.refs && s.refs[Slot(p, newfd)] == f then s
      else
        var s1 := if Slot(p, newfd) in s.refs then Decref(s, Slot(p, newfd)) else s;
        Incref(s1, Slot(p, newfd), f)
  }

  /** The loop of sys_Exec, from entry `i` on. */
  function Inherit(s: State, p: Pid, q: Pid, i: nat): (s': State)
    requires Wf(s)
    ensures Wf(s')
    decreases MAX_FILEID - i
  {
    if i >= MAX_FILEID then s
    else if Slot(p, i) in s.refs then Inherit(Incref(s, Slot(q, i), s.refs[Slot(p, i)]), p, q, i + 1)
    else Inherit(s, p, q, i + 1)
  }

  function Exec(s: State, p: Pid, q: Pid): (s': State)
    requires Wf(s)
    ensures Wf(s')
  {
    Inherit(s.(procs := s.procs + {q}), p, q, 0)
  }

  /** The loop of sys_ThreadExit, from entry `i` on. */
  function CloseAll(s: State, p: Pid, i: nat): (s': State)
    requires Wf(s)
    ensures Wf(s')
    decreases MAX_FILEID - i
  {
    if i >= MAX_FILEID then s
    else if Slot(p, i) in s.refs then CloseAll(Decref(s, Slot(p, i)), p, i + 1)
    else CloseAll(s, p, i + 1)
  }

  function Exit(s: State, p: Pid): (s': State)
    requires Wf(s)
    ensures Wf(s')
  {
    var r := CloseAll(s, p, 0);
    r.(procs := r.procs - {p})
  }
}
