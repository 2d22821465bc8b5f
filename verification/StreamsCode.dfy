/** FCB_reserve and FCB_unreserve as code: the search, allocation and rollback loops. */
module StreamsCode {
  import opened Sequences
  import opened Streams

  /** The file table, the free list and the fid tables. */
  class Files {
    var ft: seq<Fcb>
    var free: seq<FcbId>
    var refs: map<Ref, FcbId>
    var procs: set<Pid>
    var hist: History

    function View(): State
      reads this
    {
      State(ft, free, refs, procs, hist)
    }

    constructor (s: State)
      ensures View() == s
    {
      ft, free, refs, procs, hist := s.ft, s.free, s.refs, s.procs, s.hist;
    }

    method AcquireFcb() returns (f: Option<FcbId>)
      requires Wf(View())
      modifies this
      ensures f.None? ==> old(free) == [] && View() == old(View())
      ensures f.Some? ==> old(free) != [] && f.value == old(free)[0] && View() == Acquire(old(View()))
    {
      f := None;
      if free != [] {
        f := Some(free[0]);
        ft := ft[f.value := ft[f.value].(refcount := 0)];
        free := free[1..];
      }
    }

    method ReleaseFcb(f: FcbId)
      requires Wf(View()) && f < |ft|
      modifies this
      ensures View() == Release(old(View()), f)
    {
      free := free + [f];
    }

    /** The loop that finds distinct free fids; it stops short when they run out. */
    method FindFids(p: Pid, num: nat) returns (fids: seq<Fid>)
      ensures var all := FreeFids(refs, p, 0); fids == if num <= |all| then all[..num] else all
    {
      hide FreeFids;
      fids := [];
      var f: Fid := 0;
      ghost var all := FreeFids(refs, p, 0);
      var i := 0;
      while i < num
        invariant |fids| == i <= num && f <= MAX_FILEID
        invariant fids + FreeFids(refs, p, f) == all
      {
        while f < MAX_FILEID && Slot(p, f) in refs
          invariant f <= MAX_FILEID && fids + FreeFids(refs, p, f) == all
          decreases MAX_FILEID - f
        {
          NextFid(refs, p, f);
          f := f + 1;
        }
        NextFid(refs, p, f);
        if f == MAX_FILEID { break; }
        assert fids + ([f] + FreeFids(refs, p, f + 1)) == (fids + [f]) + FreeFids(refs, p, f + 1);
        fids := fids + [f];
        f := f + 1;
        i := i + 1;
      }
      if i < num {
        assert fids + [] == fids;
      } else {
        assert all[..num] == fids;
      }
    }

    /** The allocation loop, which stops at the first failure. */
    method AllocateFcbs(num: nat) returns (fs: seq<FcbId>)
      requires Wf(View())
      modifies this
      ensures (View(), fs) == AcquireMany(old(View()), num)
    {
      ghost var s := View();
      fs := [];
      assert [] + AcquireMany(s, num).1 == AcquireMany(s, num).1;
      var i := 0;
      while i < num
        invariant Wf(View()) && |fs| == i <= num
        invariant AcquireMany(s, num).0 == AcquireMany(View(), num - i).0
        invariant AcquireMany(s, num).1 == fs + AcquireMany(View(), num - i).1
      {
        var f := AcquireFcb();
        if f.None? { break; }
        ghost var rest := AcquireMany(View(), num - i - 1).1;
        assert fs + ([f.value] + rest) == (fs + [f.value]) + rest;
        fs := fs + [f.value];
        i := i + 1;
      }
      assert fs + [] == fs;
    }

    method RollBack(fs: seq<FcbId>)
      requires Wf(View()) && forall k :: 0 <= k < |fs| ==> fs[k] < |ft|
      modifies this
      ensures View() == ReleaseAll(old(View()), fs)
    {
      ghost var s := View();
      var i := |fs|;
      assert fs[..i] == fs;
      while i > 0
        invariant Wf(View()) && 0 <= i <= |fs| && |ft| == |s.ft|
        invariant ReleaseAll(View(), fs[..i]) == ReleaseAll(s, fs)
      {
        assert fs[..i][..i - 1] == fs[..i - 1];
        ReleaseFcb(fs[i - 1]);
        i := i - 1;
      }
    }

    method InstallFcbs(p: Pid, fids: seq<Fid>, fs: seq<FcbId>)
      requires Wf(View()) && |fids| == |fs| && forall k :: 0 <= k < |fs| ==> fs[k] < |ft|
      modifies this
      ensures View() == InstallAll(old(View()), p, fids, fs)
    {
      ghost var s := View();
      assert fids[0..] == fids && fs[0..] == fs;
      for i := 0 to |fs|
        invariant Wf(View()) && |ft| == |s.ft|
        invariant InstallAll(View(), p, fids[i..], fs[i..]) == InstallAll(s, p, fids, fs)
      {
        ghost var b := View();
        var f := fs[i];
        refs := refs[Slot(p, fids[i]) := f];
        hist := hist.(made := hist.made[Slot(p, fids[i]) := hist.next], next := hist.next + 1);
        ft := ft[f := Fcb(ft[f].refcount + 1, hist.next - 1)];
        assert View() == Install(b, p, fids[i], f);
        assert fids[i..][1..] == fids[i + 1..] && fs[i..][1..] == fs[i + 1..];
      }
    }

    /** FCB_reserve */
    method Reserve(p: Pid, num: nat) returns (got: Option<(seq<Fid>, seq<FcbId>)>)
      requires Wf(View())
      modifies this
      ensures (View(), got) == Streams.Reserve(old(View()), p, num)
    {
      hide Wf, FreeFids;
      ghost var s := View();
      got := None;
      var fids := FindFids(p, num);
      if |fids| < num { return; }
      var fs := AllocateFcbs(num);
      if |fs| < num {
        RollBack(fs);
      } else {
        InstallFcbs(p, fids, fs);
        got := Some((fids, fs));
      }
    }

    method FcbIncref(r: Ref, f: FcbId)
      requires Wf(View()) && f < |ft|
      modifies this
      ensures View() == Incref(old(View()), r, f)
    {
      ft := ft[f := ft[f].(refcount := ft[f].refcount + 1)];
      refs := refs[r := f];
      hist := hist.(made := hist.made[r := ft[f].gen]);
    }

    /** FCB_decref; `closeResult` is what the stream's Close returns if it runs. */
    method FcbDecref(r: Ref, closeResult: int) returns (retval: int)
      requires Wf(View()) && r in refs
      modifies this
      ensures View() == Decref(old(View()), r)
      ensures retval == if old(ft[refs[r]].refcount) == 1 then closeResult else 0
    {
      var f := refs[r];
      refs := refs - {r};
      hist := hist.(made := hist.made - {r});
      ft := ft[f := ft[f].(refcount := ft[f].refcount - 1)];
      if ft[f].refcount == 0 {
        retval := closeResult;
        hist := hist.(closed := hist.closed + [ft[f].gen]);
        ReleaseFcb(f);
      } else {
        retval := 0;
      }
    }

    /** sys_Close: closing a closed fid is legal, one out of range is not, and an open one returns what the
        stream's Close does if this was its last reference, else 0. */
    method Close(p: Pid, fd: int, closeResult: int) returns (retcode: int)
      requires Wf(View())
      modifies this
      ensures View() == Streams.Close(old(View()), p, fd)
      ensures !(0 <= fd < MAX_FILEID) ==> retcode == -1
      ensures 0 <= fd < MAX_FILEID && Slot(p, fd) !in old(refs) ==> retcode == 0
      ensures 0 <= fd < MAX_FILEID && Slot(p, fd) in old(refs) ==>
        retcode == if old(ft[refs[Slot(p, fd)]].refcount) == 1 then closeResult else 0
    {
      retcode := if 0 <= fd < MAX_FILEID then 0 else -1;
      if 0 <= fd < MAX_FILEID && Slot(p, fd) in refs {
        retcode := FcbDecref(Slot(p, fd), closeResult);
      }
    }

    /** sys_Dup2 fails iff a fid is out of range or the old one is not open. */
    method Dup2(p: Pid, oldfd: int, newfd: int, closeResult: int) returns (retcode: int)
      requires Wf(View())
      modifies this
      ensures View() == Streams.Dup2(old(View()), p, oldfd, newfd)
      ensures retcode ==
        if 0 <= oldfd < MAX_FILEID && 0 <= newfd < MAX_FILEID && Slot(p, oldfd) in old(refs) then 0 else -1
    {
      if oldfd < 0 || newfd < 0 || oldfd >= MAX_FILEID || newfd >= MAX_FILEID { return -1; }
      retcode := 0;
      if Slot(p, oldfd) !in refs {
        retcode := -1;
      } else {
        var f := refs[Slot(p, oldfd)];
        if Slot(p, newfd) !in refs || refs[Slot(p, newfd)] != f {
          if Slot(p, newfd) in refs {
            var _ := FcbDecref(Slot(p, newfd), closeResult);
          }
          FcbIncref(Slot(p, newfd), f);
        }
      }
    }

    /** The loop of sys_Exec. */
    method InheritFids(p: Pid, q: Pid)
      requires Wf(View())
      modifies this
      ensures View() == Inherit(old(View()), p, q, 0)
    {
      ghost var s := View();
      var i := 0;
      while i < MAX_FILEID
        invariant 0 <= i <= MAX_FILEID && Wf(View()) && Inherit(View(), p, q, i) == Inherit(s, p, q, 0)
      {
        if Slot(p, i) in refs {
          FcbIncref(Slot(q, i), refs[Slot(p, i)]);
        }
        i := i + 1;
      }
    }

    /** The loop of sys_ThreadExit. */
    method CloseFids(p: Pid)
      requires Wf(View())
      modifies this
      ensures View() == CloseAll(old(View()), p, 0)
    {
      ghost var s := View();
      hide Wf;
      var i := 0;
      while i < MAX_FILEID
        invariant 0 <= i <= MAX_FILEID && Wf(View()) && CloseAll(View(), p, i) == CloseAll(s, p, 0)
      {
        if Slot(p, i) in refs {
          var _ := FcbDecref(Slot(p, i), 0);
        }
        i := i + 1;
      }
    }

    /** FCB_unreserve, of fids that FCB_reserve gave. */
    method Unreserve(p: Pid, fids: seq<Fid>)
      requires Wf(View()) && NoDup(fids) && forall i :: 0 <= i < |fids| ==> Slot(p, fids[i]) in refs
      modifies this
      ensures View() == UnreserveAll(old(View()), p, fids)
    {
      ghost var s := View();
      for i := 0 to |fids|
        invariant Wf(View()) && NoDup(fids[i..]) && |ft| == |s.ft|
        invariant forall k :: i <= k < |fids| ==> Slot(p, fids[k]) in refs
        invariant UnreserveAll(View(), p, fids[i..]) == UnreserveAll(s, p, fids)
      {
        ghost var b := View();
        var f := refs[Slot(p, fids[i])];
        refs := refs - {Slot(p, fids[i])};
        free := free + [f];
        hist := hist.(made := hist.made - {Slot(p, fids[i])}, dropped := hist.dropped + [ft[f].gen]);
        assert View() == Streams.Unreserve(b, p, fids[i]);
        assert fids[i..][1..] == fids[i + 1..];
      }
    }
  }
}
