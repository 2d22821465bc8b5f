/** FCB_reserve in full, and whole runs of the stream calls. */
module StreamsRuns {
  import opened Sequences
  import opened Streams
  import opened StreamsSafety

  // ---------- FCB_reserve: the fids ----------

  ghost predicate Increasing(q: seq<Fid>) {
    forall i, j :: 0 <= i < j < |q| ==> q[i] < q[j]
  }

  lemma ConsIncreasing(x: Fid, q: seq<Fid>)
    requires Increasing(q) && forall y :: y in q ==> x < y
    ensures Increasing([x] + q)
  {
    var r := [x] + q;
    forall i, j | 0 <= i < j < |r| ensures r[i] < r[j] {
      assert r[j] == q[j - 1] && q[j - 1] in q;
      assert i > 0 ==> r[i] == q[i - 1];
    }
  }

  /** The free fids from `fid` up, in increasing order. */
  lemma {:induction false} FreeFidsExact(refs: map<Ref, FcbId>, p: Pid, fid: Fid)
    ensures Increasing(FreeFids(refs, p, fid))
    ensures forall x: Fid :: x in FreeFids(refs, p, fid) <==> fid <= x < MAX_FILEID && Slot(p, x) !in refs
    decreases MAX_FILEID - fid
  {
    hide FreeFids, Increasing;
    NextFid(refs, p, fid);
    if fid < MAX_FILEID {
      FreeFidsExact(refs, p, fid + 1);
      var rest := FreeFids(refs, p, fid + 1);
      if Slot(p, fid) in refs {
        assert [] + rest == rest;
      } else {
        ConsIncreasing(fid, rest);
      }
    } else {
      NoFids();
    }
  }

  lemma NoFids()
    ensures Increasing([])
  {}

  ghost predicate Above(x: Fid, q: seq<Fid>) {
    forall i :: 0 <= i < |q| ==> q[i] < x
  }

  /** `fids` are the lowest free fids of `p`, in increasing order: every other free fid is above them. */
  ghost predicate Lowest(refs: map<Ref, FcbId>, p: Pid, fids: seq<Fid>) {
    && Increasing(fids)
    && (forall i :: 0 <= i < |fids| ==> fids[i] < MAX_FILEID && Slot(p, fids[i]) !in refs)
    && (forall x: Fid :: x < MAX_FILEID && Slot(p, x) !in refs && x !in fids ==> Above(x, fids))
  }

  lemma LowestFids(refs: map<Ref, FcbId>, p: Pid, num: nat)
    requires num <= |FreeFids(refs, p, 0)|
    ensures Lowest(refs, p, FreeFids(refs, p, 0)[..num])
  {
    hide FreeFids, Lowest;
    FreeFidsExact(refs, p, 0);
    LowestPrefix(refs, p, FreeFids(refs, p, 0), num);
  }

  lemma LowestPrefix(refs: map<Ref, FcbId>, p: Pid, all: seq<Fid>, num: nat)
    requires Increasing(all) && num <= |all|
    requires forall x: Fid :: x in all <==> x < MAX_FILEID && Slot(p, x) !in refs
    ensures Lowest(refs, p, all[..num])
  {
    forall i | 0 <= i < num ensures all[..num][i] < MAX_FILEID && Slot(p, all[..num][i]) !in refs {
      assert all[i] in all;
    }
    forall x: Fid | x < MAX_FILEID && Slot(p, x) !in refs && x !in all[..num] ensures Above(x, all[..num]) {
      Beyond(all, num, x);
    }
  }

  lemma Beyond(all: seq<Fid>, num: nat, x: Fid)
    requires Increasing(all) && num <= |all| && x in all && x !in all[..num]
    ensures Above(x, all[..num])
  {
    assert all == all[..num] + all[num..];
    var k :| 0 <= k < |all[num..]| && all[num..][k] == x;
    assert all[num + k] == x;
  }

  // ---------- FCB_reserve: the FCBs ----------

  lemma {:induction false} AcquireManyForm(s: State, num: nat)
    requires Wf(s)
    ensures AcquireMany(s, num).1 == s.free[..Min(num, |s.free|)]
    ensures AcquireMany(s, num).0.free == s.free[Min(num, |s.free|)..]
    decreases num
  {
    if num > 0 && s.free != [] {
      AcquireManyForm(Acquire(s), num - 1);
    }
  }

  lemma {:induction false} AcquireManyInv(s: State, pend: set<FcbId>, num: nat)
    requires InvFor(s, pend)
    ensures var (a, fs) := AcquireMany(s, num);
      InvFor(a, pend + Elems(fs)) && NoDup(fs) && forall f :: f in fs ==> f !in pend
    decreases num
  {
    hide InvFor;
    if num > 0 && s.free != [] {
      AcquireInv(s, pend);
      InvWf(s, pend);
      var f := s.free[0];
      AcquireManyInv(Acquire(s), pend + {f}, num - 1);
      var (a, fs) := AcquireMany(Acquire(s), num - 1);
      assert AcquireMany(s, num) == (a, [f] + fs);
      assert pend + {f} + Elems(fs) == pend + Elems([f] + fs);
      NoDupConcat([f], fs);
    } else {
      InvWf(s, pend);
      assert pend + Elems([]) == pend;
    }
  }

  lemma InvWf(s: State, pend: set<FcbId>)
    requires InvFor(s, pend)
    ensures Wf(s)
  {}

  lemma {:induction false} ReleaseAllInv(s: State, pend: set<FcbId>, fs: seq<FcbId>)
    requires InvFor(s, pend) && NoDup(fs) && forall f :: f in fs ==> f in pend
    requires forall i :: 0 <= i < |fs| ==> fs[i] < |s.ft|
    ensures InvFor(ReleaseAll(s, fs), pend - Elems(fs))
    ensures ReleaseAll(s, fs).free == s.free + Reversed(fs)
    ensures ReleaseAll(s, fs) == s.(free := s.free + Reversed(fs))
    decreases |fs|
  {
    hide InvFor;
    InvWf(s, pend);
    if fs == [] {
      assert pend - Elems(fs) == pend && s.free + Reversed(fs) == s.free;
    } else {
      var f, init := fs[|fs| - 1], fs[..|fs| - 1];
      assert fs == init + [f];
      ReleaseInv(s, pend, f);
      ReleaseAllInv(Release(s, f), pend - {f}, init);
      assert pend - {f} - Elems(init) == pend - Elems(fs);
      assert s.free + [f] + Reversed(init) == s.free + Reversed(fs);
    }
  }

  lemma {:induction false} InstallAllInv(s: State, pend: set<FcbId>, p: Pid, fids: seq<Fid>, fs: seq<FcbId>)
    requires InvFor(s, pend) && NoDup(fs) && Elems(fs) == pend && |fids| == |fs| && Increasing(fids) && p in s.procs
    requires forall i :: 0 <= i < |fs| ==> fs[i] < |s.ft|
    requires forall i :: 0 <= i < |fids| ==> fids[i] < MAX_FILEID && Slot(p, fids[i]) !in s.refs
    ensures Inv(InstallAll(s, p, fids, fs))
    decreases |fs|
  {
    hide InvFor;
    InvWf(s, pend);
    if fs == [] {
      assert pend == {};
    } else {
      var f, rest := fs[0], fs[1..];
      assert fs == [f] + rest && f in fs;
      InstallInv(s, pend, p, fids[0], f);
      assert Elems(rest) == pend - {f};
      forall i | 0 <= i < |fids[1..]| ensures Slot(p, fids[1..][i]) !in Install(s, p, fids[0], f).refs {
        assert fids[1..][i] == fids[i + 1] && fids[0] < fids[i + 1];
      }
      InstallAllInv(Install(s, p, fids[0], f), pend - {f}, p, fids[1..], rest);
    }
  }

  /** What InstallAll leaves: slot `fids[i]` names `fs[i]`, counted once, and nothing else changes. */
  lemma {:induction false} InstallAllFt(s: State, p: Pid, fids: seq<Fid>, fs: seq<FcbId>)
    requires Wf(s) && |fids| == |fs| && NoDup(fs)
    requires forall i :: 0 <= i < |fs| ==> fs[i] < |s.ft|
    ensures var r := InstallAll(s, p, fids, fs);
      && r.free == s.free && r.procs == s.procs && |r.ft| == |s.ft|
      && r.hist.closed == s.hist.closed && r.hist.dropped == s.hist.dropped
      && (forall f :: f in fs ==> f < |s.ft|)
      && (forall f :: f in fs ==> r.ft[f].refcount == s.ft[f].refcount + 1)
      && (forall f: FcbId :: f < |s.ft| && f !in fs ==> r.ft[f] == s.ft[f])
    decreases |fs|
  {
    if fs != [] {
      var s1 := Install(s, p, fids[0], fs[0]);
      var fs' := fs[1..];
      assert fs == [fs[0]] + fs' && fs[0] !in fs';
      InstallAllFt(s1, p, fids[1..], fs');
    }
  }

  lemma {:induction false} InstallAllRefs(s: State, p: Pid, fids: seq<Fid>, fs: seq<FcbId>)
    requires Wf(s) && |fids| == |fs| && Increasing(fids)
    requires forall i :: 0 <= i < |fs| ==> fs[i] < |s.ft|
    ensures var r := InstallAll(s, p, fids, fs);
      && (forall i :: 0 <= i < |fs| ==> Slot(p, fids[i]) in r.refs && r.refs[Slot(p, fids[i])] == fs[i])
      && (forall x: Ref :: !IsNew(p, fids, x) ==>
            (x in r.refs <==> x in s.refs) && (x in s.refs ==> r.refs[x] == s.refs[x]))
    decreases |fs|
  {
    if fs != [] {
      var s1 := Install(s, p, fids[0], fs[0]);
      var r := InstallAll(s, p, fids, fs);
      var fids', fs' := fids[1..], fs[1..];
      assert forall i :: 0 <= i < |fids'| ==> fids'[i] == fids[i + 1];
      InstallAllRefs(s1, p, fids', fs');
      assert r == InstallAll(s1, p, fids', fs');
      assert s1.refs == s.refs[Slot(p, fids[0]) := fs[0]];
      NewStep(p, fids);
      hide InstallAll, Wf, Install, Increasing, IsNew;
      forall i | 0 <= i < |fs| ensures Slot(p, fids[i]) in r.refs && r.refs[Slot(p, fids[i])] == fs[i] {
        if i > 0 { assert fids[i] == fids'[i - 1] && fs[i] == fs'[i - 1]; }
      }
    }
  }

  lemma NewStep(p: Pid, fids: seq<Fid>)
    requires fids != [] && Increasing(fids)
    ensures !IsNew(p, fids[1..], Slot(p, fids[0]))
    ensures forall x: Ref :: IsNew(p, fids, x) <==> x == Slot(p, fids[0]) || IsNew(p, fids[1..], x)
  {
    assert fids == [fids[0]] + fids[1..];
    assert fids[0] !in fids[1..];
  }

  ghost predicate IsNew(p: Pid, fids: seq<Fid>, x: Ref) {
    x.Slot? && x.p == p && x.fid in fids
  }

  // ---------- FCB_reserve ----------

  lemma ReserveInv(s: State, p: Pid, num: nat)
    requires Inv(s) && p in s.procs
    ensures Inv(Reserve(s, p, num).0)
  {
    hide InvFor, FreeFids, Lowest;
    InvWf(s, {});
    var fids := FreeFids(s.refs, p, 0);
    if |fids| >= num {
      AcquireManyInv(s, {}, num);
      var (a, fs) := AcquireMany(s, num);
      assert {} + Elems(fs) == Elems(fs);
      if |fs| < num {
        ReleaseAllInv(a, Elems(fs), fs);
        assert Elems(fs) - Elems(fs) == {};
      } else {
        LowestFids(s.refs, p, num);
        LowestFree(s.refs, p, fids[..num]);
        InstallAllInv(a, Elems(fs), p, fids[..num], fs);
      }
    }
  }

  lemma LowestFree(refs: map<Ref, FcbId>, p: Pid, fids: seq<Fid>)
    requires Lowest(refs, p, fids)
    ensures Increasing(fids)
    ensures forall i :: 0 <= i < |fids| ==> fids[i] < MAX_FILEID && Slot(p, fids[i]) !in refs
  {}

  /** FCB_reserve succeeds iff there are enough free fids and enough free FCBs. */
  lemma ReserveSucceedsIff(s: State, p: Pid, num: nat)
    requires Wf(s)
    ensures Reserve(s, p, num).1.Some? <==> num <= |FreeFids(s.refs, p, 0)| && num <= |s.free|
  {
    AcquireManyForm(s, num);
  }

  /** On failure no fid, no reference and no count in use changes.  If fids run short nothing changes; if
      FCBs do, the rollback leaves the free list reversed, and has reset the counters of its FCBs. */
  lemma ReserveFails(s: State, p: Pid, num: nat)
    requires Inv(s) && Reserve(s, p, num).1.None?
    ensures var r := Reserve(s, p, num).0;
      && r.refs == s.refs && r.procs == s.procs && r.hist == s.hist && |r.ft| == |s.ft|
      && (forall f: FcbId :: f < |s.ft| && f !in s.free ==> r.ft[f] == s.ft[f])
      && (num > |FreeFids(s.refs, p, 0)| ==> r == s)
      && (num <= |FreeFids(s.refs, p, 0)| ==>
            r.free == Reversed(s.free)
            && forall f: FcbId :: f < |s.ft| && f in s.free ==> r.ft[f] == s.ft[f].(refcount := 0))
  {
    hide InvFor, FreeFids;
    InvWf(s, {});
    if |FreeFids(s.refs, p, 0)| >= num {
      AcquireManyInv(s, {}, num);
      AcquireManyForm(s, num);
      AcquireManyFrame(s, num);
      var (a, fs) := AcquireMany(s, num);
      assert {} + Elems(fs) == Elems(fs);
      ReleaseAllInv(a, Elems(fs), fs);
      assert s.free[..|s.free|] == s.free && [] + Reversed(fs) == Reversed(fs);
    }
  }

  /** A list without duplicates is its own reversal iff it has at most one element. */
  lemma ReversedSame(q: seq<FcbId>)
    requires NoDup(q)
    ensures Reversed(q) == q <==> |q| <= 1
  {
    if |q| > 1 { assert Reversed(q)[0] == q[|q| - 1] != q[0]; }
  }

  /** A failing FCB_reserve keeps the free list in order iff fids ran short or at most one FCB is free; it
      leaves the whole state as it was iff, besides, no free FCB has a stale counter to be reset. */
  lemma ReserveUnchangedIff(s: State, p: Pid, num: nat)
    requires Inv(s) && Reserve(s, p, num).1.None?
    ensures var r, short := Reserve(s, p, num).0, num > |FreeFids(s.refs, p, 0)|;
      && (r.free == s.free <==> short || |s.free| <= 1)
      && (r == s <==> short || (|s.free| <= 1 && forall f :: f in s.free ==> s.ft[f].refcount == 0))
  {
    hide InvFor, FreeFids, Reserve;
    InvWf(s, {});
    FreeNoDup(s);
    ReserveFails(s, p, num);
    ReversedSame(s.free);
    ZeroedSame(s, Reserve(s, p, num).0);
    hide Wf, NoDup;
  }

  lemma FreeNoDup(s: State)
    requires Inv(s)
    ensures NoDup(s.free)
  {}

  lemma ZeroedSame(s: State, r: State)
    requires Wf(s) && |r.ft| == |s.ft|
    requires forall f: FcbId :: f < |s.ft| && f !in s.free ==> r.ft[f] == s.ft[f]
    ensures (forall f: FcbId :: f < |s.ft| && f in s.free ==> r.ft[f] == s.ft[f].(refcount := 0)) ==>
      (r.ft == s.ft <==> forall f :: f in s.free ==> s.ft[f].refcount == 0)
  {
    if forall f: FcbId :: f < |s.ft| && f in s.free ==> r.ft[f] == s.ft[f].(refcount := 0) {
      assert forall f :: f in s.free ==> f < |s.ft|;
      if f :| f in s.free && s.ft[f].refcount != 0 {
        assert r.ft[f].refcount == 0;
      } else {
        assert r.ft == s.ft;
      }
    }
  }

  /** All callers in the kernel ask for one or two FCBs, and then the order never changes. */
  lemma ReserveFewUnchanged(s: State, p: Pid, num: nat)
    requires Inv(s) && Reserve(s, p, num).1.None? && num <= 2
    ensures Reserve(s, p, num).0.free == s.free
  {
    InvWf(s, {});
    ReserveUnchangedIff(s, p, num);
    ReserveSucceedsIff(s, p, num);
  }

  /** From three on it can: with two FCBs, a call for three swaps them. */
  lemma ReserveReorders(p: Pid) returns (s: State)
    ensures Initial(s) && Wf(s) && p in s.procs
    ensures var (r, got) := Reserve(s, p, 3); got.None? && s.free == [0, 1] && r.free == [1, 0]
  {
    s := State([Fcb(0, 0), Fcb(0, 0)], [0, 1], map[], {p}, History(0, map[], [], []));
    InitialInv(s);
    NextFid(s.refs, p, 0);
    NextFid(s.refs, p, 1);
    NextFid(s.refs, p, 2);
    hide FreeFids;
    ReserveSucceedsIff(s, p, 3);
    ReserveFails(s, p, 3);
    assert Reversed(s.free) == [1, 0];
  }

  lemma {:induction false} AcquireManyFrame(s: State, num: nat)
    requires Wf(s)
    ensures forall f: FcbId :: f < |s.ft| && f !in s.free ==> AcquireMany(s, num).0.ft[f] == s.ft[f]
    ensures forall f: FcbId :: f < |s.ft| && f in AcquireMany(s, num).1 ==> AcquireMany(s, num).0.ft[f].refcount == 0
    ensures forall f: FcbId :: f < |s.ft| ==> AcquireMany(s, num).0.ft[f].gen == s.ft[f].gen
    decreases num
  {
    if num > 0 && s.free != [] {
      AcquireManyFrame(Acquire(s), num - 1);
      AcquireManyZero(Acquire(s), num - 1, s.free[0]);
    }
  }

  lemma {:induction false} AcquireManyZero(s: State, num: nat, f: FcbId)
    requires Wf(s) && f < |s.ft| && s.ft[f].refcount == 0
    ensures AcquireMany(s, num).0.ft[f].refcount == 0
    decreases num
  {
    if num > 0 && s.free != [] { AcquireManyZero(Acquire(s), num - 1, f); }
  }

  /** On success the lowest free fids name the first free FCBs, each counted once; nothing else changes. */
  lemma ReserveSucceeds(s: State, p: Pid, num: nat)
    requires Inv(s) && Reserve(s, p, num).1.Some?
    ensures var (r, got) := Reserve(s, p, num); var (fids, fs) := got.value;
      && |fids| == num && Lowest(s.refs, p, fids) && num <= |s.free| && fs == s.free[..num] && r.free == s.free[num..]
      && |r.ft| == |s.ft|
      && (forall i :: 0 <= i < num ==> Slot(p, fids[i]) in r.refs && r.refs[Slot(p, fids[i])] == fs[i])
      && (forall x: Ref :: !IsNew(p, fids, x) ==>
            (x in r.refs <==> x in s.refs) && (x in s.refs ==> r.refs[x] == s.refs[x]))
      && (forall f :: f in fs ==> f < |s.ft|)
      && (forall f :: f in fs ==> r.ft[f].refcount == 1)
      && (forall f: FcbId :: f < |s.ft| && f !in s.free ==> r.ft[f] == s.ft[f])
      && r.procs == s.procs && r.hist.closed == s.hist.closed
  {
    hide InvFor, FreeFids, Lowest, Wf, InstallAll, AcquireMany, NoDup, Increasing, IsNew;
    InvWf(s, {});
    var fids := FreeFids(s.refs, p, 0)[..num];
    LowestFids(s.refs, p, num);
    LowestFree(s.refs, p, fids);
    AcquireManyInv(s, {}, num);
    AcquireManyForm(s, num);
    var (a, fs) := AcquireMany(s, num);
    InstallAllFt(a, p, fids, fs);
    InstallAllRefs(a, p, fids, fs);
    ReserveCounts(s, a, InstallAll(a, p, fids, fs), num, fs);
  }

  lemma ReserveCounts(s: State, a: State, r: State, num: nat, fs: seq<FcbId>)
    requires Wf(s) && num <= |s.free| && (a, fs) == AcquireMany(s, num) && fs == s.free[..num]
    requires |r.ft| == |a.ft|
    requires forall f :: f in fs ==> f < |a.ft|
    requires forall f :: f in fs ==> r.ft[f].refcount == a.ft[f].refcount + 1
    requires forall f: FcbId :: f < |a.ft| && f !in fs ==> r.ft[f] == a.ft[f]
    ensures forall f :: f in fs ==> r.ft[f].refcount == 1
    ensures forall f: FcbId :: f < |s.ft| && f !in s.free ==> r.ft[f] == s.ft[f]
  {
    AcquireManyFrame(s, num);
    assert forall f :: f in fs ==> f in s.free;
  }

  lemma {:induction false} UnreserveAllInv(s: State, p: Pid, fids: seq<Fid>)
    requires Inv(s) && NoDup(fids)
    requires forall i :: 0 <= i < |fids| ==> Slot(p, fids[i]) in s.refs && s.ft[s.refs[Slot(p, fids[i])]].refcount == 1
    ensures Inv(UnreserveAll(s, p, fids))
    decreases |fids|
  {
    hide InvFor;
    InvWf(s, {});
    if fids != [] {
      var rest := fids[1..];
      var s1 := Unreserve(s, p, fids[0]);
      UnreserveInv(s, p, fids[0]);
      forall i | 0 <= i < |rest|
        ensures Slot(p, rest[i]) in s1.refs && s1.ft[s1.refs[Slot(p, rest[i])]].refcount == 1
      {
        assert rest[i] == fids[i + 1];
      }
      UnreserveAllInv(s1, p, rest);
    }
  }

  lemma {:induction false} UnreserveAllForm(s: State, p: Pid, fids: seq<Fid>)
    requires Wf(s) && NoDup(fids) && forall i :: 0 <= i < |fids| ==> Slot(p, fids[i]) in s.refs
    ensures var u := UnreserveAll(s, p, fids);
      && u.procs == s.procs && u.hist.closed == s.hist.closed && u.ft == s.ft
      && (forall x: Ref :: x in u.refs <==> x in s.refs && !IsNew(p, fids, x))
      && (forall x: Ref :: x in u.refs ==> u.refs[x] == s.refs[x])
    decreases |fids|
  {
    if fids != [] {
      var rest := fids[1..];
      assert fids == [fids[0]] + rest;
      var s1 := Unreserve(s, p, fids[0]);
      hide Wf;
      forall i | 0 <= i < |rest| ensures Slot(p, rest[i]) in s1.refs {
        assert rest[i] == fids[i + 1];
      }
      UnreserveAllForm(s1, p, rest);
      assert forall x: Ref :: IsNew(p, fids, x) <==> x == Slot(p, fids[0]) || IsNew(p, rest, x);
    }
  }

  /** FCB_unreserve undoes FCB_reserve: the fid tables are as before, and no stream was closed. */
  lemma ReserveUnreserve(s: State, p: Pid, num: nat)
    requires Inv(s) && p in s.procs && Reserve(s, p, num).1.Some?
    ensures var (r, got) := Reserve(s, p, num); var fids := got.value.0;
      && Wf(r) && NoDup(fids) && (forall i :: 0 <= i < |fids| ==> Slot(p, fids[i]) in r.refs)
      && var u := UnreserveAll(r, p, fids);
      Inv(u) && u.refs == s.refs && u.hist.closed == s.hist.closed && u.procs == s.procs
  {
    hide InvFor, Reserve, Lowest;
    InvWf(s, {});
    ReserveInv(s, p, num);
    ReserveSucceeds(s, p, num);
    var (r, got) := Reserve(s, p, num);
    var (fids, fs) := got.value;
    LowestFree(s.refs, p, fids);
    forall i | 0 <= i < num ensures r.ft[r.refs[Slot(p, fids[i])]].refcount == 1 { assert fs[i] in fs; }
    assert NoDup(fids);
    hide NoDup, Increasing, IsNew, Wf;
    UnreserveAllInv(r, p, fids);
    UnreserveAllForm(r, p, fids);
    SameRefs(s.refs, r.refs, UnreserveAll(r, p, fids).refs, p, fids);
  }

  lemma SameRefs(a: map<Ref, FcbId>, b: map<Ref, FcbId>, c: map<Ref, FcbId>, p: Pid, fids: seq<Fid>)
    requires forall i :: 0 <= i < |fids| ==> Slot(p, fids[i]) !in a
    requires forall x: Ref :: !IsNew(p, fids, x) ==> (x in b <==> x in a) && (x in a ==> b[x] == a[x])
    requires forall x: Ref :: x in c <==> x in b && !IsNew(p, fids, x)
    requires forall x: Ref :: x in c ==> c[x] == b[x]
    ensures c == a
  {
    forall x: Ref | IsNew(p, fids, x) ensures x !in a {
      var i :| 0 <= i < |fids| && fids[i] == x.fid;
      assert x == Slot(p, fids[i]);
    }
    assert forall x: Ref :: x in c <==> x in a;
  }

  // ---------- the other calls ----------

  lemma CloseInv(s: State, p: Pid, fd: int)
    requires Inv(s)
    ensures Inv(Close(s, p, fd))
  {
    hide InvFor;
    InvWf(s, {});
    if 0 <= fd < MAX_FILEID && Slot(p, fd) in s.refs { DecrefInv(s, {}, Slot(p, fd)); }
  }

  lemma BeginInv(s: State, p: Pid, fd: int, id: nat)
    requires Inv(s) && Op(id) !in s.refs
    ensures Inv(Begin(s, p, fd, id))
  {
    hide InvFor;
    InvWf(s, {});
    if 0 <= fd < MAX_FILEID && Slot(p, fd) in s.refs {
      NamedInUse(s, {}, Slot(p, fd));
      IncrefInv(s, {}, Op(id), s.refs[Slot(p, fd)]);
    }
  }

  lemma Dup2Inv(s: State, p: Pid, oldfd: int, newfd: int)
    requires Inv(s) && p in s.procs
    ensures Inv(Dup2(s, p, oldfd, newfd))
  {
    hide InvFor;
    InvWf(s, {});
    if 0 <= oldfd < MAX_FILEID && 0 <= newfd < MAX_FILEID && Slot(p, oldfd) in s.refs {
      var f := s.refs[Slot(p, oldfd)];
      if !(Slot(p, newfd) in s.refs && s.refs[Slot(p, newfd)] == f) {
        var s1 := if Slot(p, newfd) in s.refs then Decref(s, Slot(p, newfd)) else s;
        if Slot(p, newfd) in s.refs { DecrefInv(s, {}, Slot(p, newfd)); }
        NamedInUse(s1, {}, Slot(p, oldfd));
        IncrefInv(s1, {}, Slot(p, newfd), f);
      }
    }
  }

  ghost predicate NoneFrom(refs: map<Ref, FcbId>, q: Pid, i: nat) {
    forall j: Fid :: i <= j ==> Slot(q, j) !in refs
  }

  lemma {:induction false} InheritInv(s: State, p: Pid, q: Pid, i: nat)
    requires Inv(s) && p != q && q in s.procs
    requires NoneFrom(s.refs, q, i)
    ensures Wf(s) && Inv(Inherit(s, p, q, i))
    decreases MAX_FILEID - i
  {
    hide InvFor, Wf;
    InvWf(s, {});
    if i < MAX_FILEID {
      if Slot(p, i) in s.refs {
        NamedInUse(s, {}, Slot(p, i));
        IncrefInv(s, {}, Slot(q, i), s.refs[Slot(p, i)]);
        var s1 := Incref(s, Slot(q, i), s.refs[Slot(p, i)]);
        assert NoneFrom(s1.refs, q, i + 1);
        InheritInv(s1, p, q, i + 1);
      } else {
        InheritInv(s, p, q, i + 1);
      }
    }
  }

  /** The entries of `p` from `i` on get copied to `q`, and no other reference changes. */
  lemma {:induction false} InheritOthers(s: State, p: Pid, q: Pid, i: nat, x: Ref)
    requires Wf(s) && p != q
    requires !(x.Slot? && x.p == q && i <= x.fid < MAX_FILEID && Slot(p, x.fid) in s.refs)
    ensures var r := Inherit(s, p, q, i);
      (x in r.refs <==> x in s.refs) && (x in s.refs ==> r.refs[x] == s.refs[x])
    decreases MAX_FILEID - i
  {
    if i < MAX_FILEID {
      var s1 := if Slot(p, i) in s.refs then Incref(s, Slot(q, i), s.refs[Slot(p, i)]) else s;
      hide Wf;
      InheritOthers(s1, p, q, i + 1, x);
    }
  }

  lemma {:induction false} InheritForm(s: State, p: Pid, q: Pid, i: nat, j: Fid)
    requires Wf(s) && p != q && i <= j < MAX_FILEID && Slot(p, j) in s.refs
    ensures var r := Inherit(s, p, q, i);
      Slot(q, j) in r.refs && r.refs[Slot(q, j)] == s.refs[Slot(p, j)]
    decreases MAX_FILEID - i
  {
    var s1 := if Slot(p, i) in s.refs then Incref(s, Slot(q, i), s.refs[Slot(p, i)]) else s;
    hide Wf;
    if i == j {
      InheritOthers(s1, p, q, i + 1, Slot(q, j));
    } else {
      InheritForm(s1, p, q, i + 1, j);
    }
  }

  lemma ExecInv(s: State, p: Pid, q: Pid)
    requires Inv(s) && p in s.procs && q !in s.procs
    ensures Inv(Exec(s, p, q))
  {
    var s1 := s.(procs := s.procs + {q});
    assert Inv(s1);
    assert forall j: Fid :: Slot(q, j) !in s.refs;
    InheritInv(s1, p, q, 0);
  }

  lemma {:induction false} CloseAllInv(s: State, p: Pid, i: nat)
    requires Inv(s)
    ensures Wf(s) && Inv(CloseAll(s, p, i))
    decreases MAX_FILEID - i
  {
    hide InvFor, Wf;
    InvWf(s, {});
    if i < MAX_FILEID {
      if Slot(p, i) in s.refs {
        DecrefInv(s, {}, Slot(p, i));
        CloseAllInv(Decref(s, Slot(p, i)), p, i + 1);
      } else {
        CloseAllInv(s, p, i + 1);
      }
    }
  }

  lemma {:induction false} CloseAllSlots(s: State, p: Pid, i: nat)
    requires Wf(s)
    ensures var r := CloseAll(s, p, i);
      && r.procs == s.procs
      && (forall j: Fid :: i <= j < MAX_FILEID ==> Slot(p, j) !in r.refs)
      && (forall x: Ref :: x in r.refs ==> x in s.refs && r.refs[x] == s.refs[x])
      && (forall x: Ref :: x in s.refs && !(x.Slot? && x.p == p && i <= x.fid < MAX_FILEID) ==> x in r.refs)
    decreases MAX_FILEID - i
  {
    hide Wf;
    if i < MAX_FILEID {
      if Slot(p, i) in s.refs {
        CloseAllSlots(Decref(s, Slot(p, i)), p, i + 1);
      } else {
        CloseAllSlots(s, p, i + 1);
      }
    }
  }

  lemma ExitInv(s: State, p: Pid)
    requires Inv(s)
    ensures Inv(Exit(s, p))
  {
    CloseAllInv(s, p, 0);
    CloseAllSlots(s, p, 0);
    var r := CloseAll(s, p, 0);
    hide CountsOk, StreamsOk, MadeOk, CloseAll;
    assert SlotsOk(r.refs, r.procs - {p});
  }

  /** Dup2 makes the new fid name the stream of the old one, and changes no other reference. */
  lemma Dup2Effect(s: State, p: Pid, oldfd: int, newfd: int)
    requires Wf(s)
    ensures var ok := 0 <= oldfd < MAX_FILEID && 0 <= newfd < MAX_FILEID && Slot(p, oldfd) in s.refs;
      var r := Dup2(s, p, oldfd, newfd);
      && (!ok ==> r == s)
      && (ok ==> r.refs == s.refs[Slot(p, newfd) := s.refs[Slot(p, oldfd)]])
  {
    if 0 <= oldfd < MAX_FILEID && 0 <= newfd < MAX_FILEID && Slot(p, oldfd) in s.refs {
      var f := s.refs[Slot(p, oldfd)];
      assert Dup2(s, p, oldfd, newfd).refs == s.refs[Slot(p, newfd) := f];
    }
  }

  /** Close frees the fid, and closes the stream iff nothing else refers to it. */
  lemma CloseEffect(s: State, p: Pid, fd: int)
    requires Inv(s) && 0 <= fd < MAX_FILEID && Slot(p, fd) in s.refs
    ensures var r, f := Close(s, p, fd), s.refs[Slot(p, fd)];
      && r.refs == s.refs - {Slot(p, fd)}
      && r.hist.closed == s.hist.closed + if Holders(s.refs, f) == {Slot(p, fd)} then [s.ft[f].gen] else []
  {
    var f := s.refs[Slot(p, fd)];
    NamedInUse(s, {}, Slot(p, fd));
    assert FcbOk(s.ft[f].refcount, f in s.free, f in {}, |Holders(s.refs, f)|);
    var hs := Holders(s.refs, f);
    assert Slot(p, fd) in hs;
    if |hs| == 1 {
      assert |hs - {Slot(p, fd)}| == 0;
      assert hs == {Slot(p, fd)};
    }
    assert s.hist.closed + [] == s.hist.closed;
  }

  /** A read or write of an open fid takes a reference to its stream for as long as it runs. */
  lemma BeginEffect(s: State, p: Pid, fd: int, id: nat)
    requires Inv(s) && Op(id) !in s.refs
    ensures var r := Begin(s, p, fd, id);
      if 0 <= fd < MAX_FILEID && Slot(p, fd) in s.refs then
        && var f := s.refs[Slot(p, fd)];
        && r.refs == s.refs[Op(id) := f] && r.free == s.free && r.hist.closed == s.hist.closed
        && f < |s.ft| && r.ft == s.ft[f := s.ft[f].(refcount := s.ft[f].refcount + 1)]
      else r == s
  {
    hide InvFor;
    InvWf(s, {});
  }

  /** Its end drops that reference, and closes the stream iff it was the last. */
  lemma EndEffect(s: State, id: nat)
    requires Inv(s) && Op(id) in s.refs
    ensures Wf(s) && var r, f := Decref(s, Op(id)), s.refs[Op(id)];
      && r.refs == s.refs - {Op(id)}
      && r.hist.closed == s.hist.closed + (if Holders(s.refs, f) == {Op(id)} then [s.ft[f].gen] else [])
      && r.free == s.free + (if Holders(s.refs, f) == {Op(id)} then [f] else [])
  {
    var f := s.refs[Op(id)];
    NamedInUse(s, {}, Op(id));
    assert FcbOk(s.ft[f].refcount, f in s.free, f in {}, |Holders(s.refs, f)|);
    SoleHolder(s.refs, f, Op(id));
    assert s.hist.closed + [] == s.hist.closed && s.free + [] == s.free;
    hide InvFor, Holders;
  }

  lemma SoleHolder(refs: map<Ref, FcbId>, f: FcbId, r: Ref)
    requires r in refs && refs[r] == f
    ensures |Holders(refs, f)| == 1 <==> Holders(refs, f) == {r}
  {
    var hs := Holders(refs, f);
    assert r in hs && |hs - {r}| == |hs| - 1;
    if |hs| == 1 { assert hs - {r} == {}; }
  }

  /** After Exec the new process has its parent's streams, and the others are as they were. */
  lemma ExecEffect(s: State, p: Pid, q: Pid)
    requires Inv(s) && p in s.procs && q !in s.procs
    ensures var r := Exec(s, p, q);
      && (forall j: Fid :: Slot(q, j) in r.refs <==> Slot(p, j) in s.refs)
      && (forall j: Fid :: Slot(p, j) in s.refs ==> r.refs[Slot(q, j)] == s.refs[Slot(p, j)])
      && (forall x: Ref :: !(x.Slot? && x.p == q) ==>
            (x in r.refs <==> x in s.refs) && (x in s.refs ==> r.refs[x] == s.refs[x]))
  {
    assert SlotsOk(s.refs, s.procs);
    hide InvFor;
    InvWf(s, {});
    var s1, r := s.(procs := s.procs + {q}), Exec(s, p, q);
    hide Inherit, Wf;
    forall j: Fid | Slot(p, j) in s.refs ensures Slot(q, j) in r.refs && r.refs[Slot(q, j)] == s.refs[Slot(p, j)] {
      InheritForm(s1, p, q, 0, j);
    }
    forall x: Ref | !(x.Slot? && x.p == q && Slot(p, x.fid) in s.refs)
      ensures (x in r.refs <==> x in s.refs) && (x in s.refs ==> r.refs[x] == s.refs[x])
    {
      InheritOthers(s1, p, q, 0, x);
    }
  }

  /** After its exit a process has no streams, and the others are as they were. */
  lemma ExitEffect(s: State, p: Pid)
    requires Inv(s)
    ensures var r := Exit(s, p);
      forall x: Ref ::
        (x in r.refs <==> x in s.refs && !(x.Slot? && x.p == p)) && (x in r.refs ==> r.refs[x] == s.refs[x])
  {
    assert SlotsOk(s.refs, s.procs);
    hide InvFor;
    InvWf(s, {});
    CloseAllSlots(s, p, 0);
    hide CloseAll, Wf;
    assert forall x: Ref :: x in s.refs && x.Slot? ==> x == Slot(x.p, x.fid);
  }

  // ---------- runs ----------

  /** `OpenEvent` is a call that makes `num` streams at once; `FailedOpen` one that gives them back. */
  datatype Event =
    | OpenEvent(p: Pid, num: nat) | FailedOpen(p: Pid, num: nat)
    | BeginEvent(p: Pid, fd: int, id: nat) | EndEvent(id: nat)
    | CloseEvent(p: Pid, fd: int) | Dup2Event(p: Pid, oldfd: int, newfd: int)
    | ExecEvent(p: Pid, q: Pid) | ExitEvent(p: Pid)

  ghost predicate Enabled(s: State, e: Event) {
    match e
    case OpenEvent(p, num) => p in s.procs
    case FailedOpen(p, num) => p in s.procs
    case BeginEvent(p, fd, id) => p in s.procs && Op(id) !in s.refs
    case EndEvent(id) => Op(id) in s.refs
    case CloseEvent(p, fd) => p in s.procs
    case Dup2Event(p, oldfd, newfd) => p in s.procs
    case ExecEvent(p, q) => p in s.procs && q !in s.procs
    case ExitEvent(p) => p in s.procs
  }

  /** What FCB_reserve hands out can be given back. */
  lemma ReserveSlots(s: State, p: Pid, num: nat)
    requires Wf(s) && Reserve(s, p, num).1.Some?
    ensures var (r, got) := Reserve(s, p, num); var fids := got.value.0;
      NoDup(fids) && forall i :: 0 <= i < |fids| ==> Slot(p, fids[i]) in r.refs
  {
    hide FreeFids, Lowest, Wf;
    var fids := FreeFids(s.refs, p, 0)[..num];
    LowestFids(s.refs, p, num);
    LowestFree(s.refs, p, fids);
    var (a, fs) := AcquireMany(s, num);
    InstallAllRefs(a, p, fids, fs);
  }

  ghost function Apply(s: State, e: Event): (r: State)
    requires Wf(s) && Enabled(s, e)
    ensures Wf(r)
  {
    match e
    case OpenEvent(p, num) => Reserve(s, p, num).0
    case FailedOpen(p, num) =>
      (var (r, got) := Reserve(s, p, num);
       if got.None? then r else ReserveSlots(s, p, num); UnreserveAll(r, p, got.value.0))
    case BeginEvent(p, fd, id) => Begin(s, p, fd, id)
    case EndEvent(id) => Decref(s, Op(id))
    case CloseEvent(p, fd) => Close(s, p, fd)
    case Dup2Event(p, oldfd, newfd) => Dup2(s, p, oldfd, newfd)
    case ExecEvent(p, q) => Exec(s, p, q)
    case ExitEvent(p) => Exit(s, p)
  }

  lemma StepInv(s: State, e: Event)
    requires Inv(s) && Enabled(s, e)
    ensures Wf(s) && Inv(Apply(s, e))
  {
    hide InvFor;
    InvWf(s, {});
    match e
    case OpenEvent(p, num) => ReserveInv(s, p, num);
    case FailedOpen(p, num) =>
      ReserveInv(s, p, num);
      if Reserve(s, p, num).1.Some? { ReserveUnreserve(s, p, num); }
    case BeginEvent(p, fd, id) => BeginInv(s, p, fd, id);
    case EndEvent(id) => DecrefInv(s, {}, Op(id));
    case CloseEvent(p, fd) => CloseInv(s, p, fd);
    case Dup2Event(p, oldfd, newfd) => Dup2Inv(s, p, oldfd, newfd);
    case ExecEvent(p, q) => ExecInv(s, p, q);
    case ExitEvent(p) => ExitInv(s, p);
  }

  ghost predicate Next(s: State, e: Event, s': State) {
    Wf(s) && Enabled(s, e) && s' == Apply(s, e)
  }

  ghost predicate IsRun(ss: seq<State>, es: seq<Event>) {
    |ss| == |es| + 1 && forall i :: 0 <= i < |es| ==> Next(ss[i], es[i], ss[i + 1])
  }

  /** initialize_files: all FCBs free; `procs` are the processes at boot, without streams. */
  ghost predicate Initial(s: State) {
    && Wf(s) && NoDup(s.free) && (forall f: FcbId :: f < |s.ft| ==> f in s.free)
    && s.refs == map[] && s.hist == History(0, map[], [], [])
  }

  /** The state initialize_files leaves. */
  lemma InitialExists(n: nat, procs: set<Pid>) returns (s: State)
    ensures Initial(s) && |s.ft| == n && s.procs == procs
  {
    var free := seq(n, i requires 0 <= i => i);
    s := State(seq(n, i => Fcb(0, 0)), free, map[], procs, History(0, map[], [], []));
    forall f: FcbId | f < n ensures f in free { assert free[f] == f; }
  }

  lemma InitialInv(s: State)
    requires Initial(s)
    ensures Inv(s)
  {
    assert forall f: FcbId :: Holders(s.refs, f) == {};
  }

  /** What the references mean in every reachable state. */
  ghost predicate Safe(s: State) {
    // off the free list, the count is the number of table entries and operations naming the FCB
    && (forall f: FcbId :: f < |s.ft| && f !in s.free ==> s.ft[f].refcount == |Holders(s.refs, f)| > 0)
    // on the free list, nobody names it
    && (forall f: FcbId :: f < |s.ft| && f in s.free ==> Holders(s.refs, f) == {})
    // Close ran at most once for each stream, and not while anything refers to it
    && NoDup(s.hist.closed)
    && (forall r :: r in s.refs ==>
          r in s.hist.made && s.refs[r] < |s.ft|
          && s.hist.made[r] == s.ft[s.refs[r]].gen && s.hist.made[r] !in s.hist.closed)
    // a stream that nothing refers to has been closed, or was given back unused
    && (forall g: nat :: g < s.hist.next && g !in s.hist.closed && g !in s.hist.dropped ==>
          exists r :: r in s.hist.made && s.hist.made[r] == g)
  }

  lemma InvSafe(s: State)
    requires Inv(s)
    ensures Safe(s)
  {
    forall f: FcbId | f < |s.ft|
      ensures FcbOk(s.ft[f].refcount, f in s.free, false, |Holders(s.refs, f)|)
      ensures f in s.free ==> Holders(s.refs, f) == {}
    {
      assert FcbOk(s.ft[f].refcount, f in s.free, f in {}, |Holders(s.refs, f)|);
    }
    forall r | r in s.refs ensures s.hist.made[r] !in s.hist.closed {
      NamedInUse(s, {}, r);
    }
    forall g: nat | g < s.hist.next && g !in s.hist.closed && g !in s.hist.dropped
      ensures exists r :: r in s.hist.made && s.hist.made[r] == g
    {
      OpenNamed(s, g);
    }
    hide InvFor, StreamsOk, CountsOk;
  }

  lemma OpenNamed(s: State, g: nat)
    requires Inv(s) && g < s.hist.next && g !in s.hist.closed && g !in s.hist.dropped
    ensures exists r :: r in s.hist.made && s.hist.made[r] == g
  {
    assert Open(s.ft, s.free, {}, g);
    var f: FcbId :| InUse(s.ft, s.free, {}, f) && s.ft[f].gen == g;
    assert FcbOk(s.ft[f].refcount, f in s.free, f in {}, |Holders(s.refs, f)|);
    var r :| r in Holders(s.refs, f);
    assert s.hist.made[r] == g;
  }

  /** Reference counts are exact and streams are closed once, at their last reference, in every run. */
  lemma RunSafe(ss: seq<State>, es: seq<Event>)
    requires IsRun(ss, es) && Initial(ss[0])
    ensures forall i :: 0 <= i < |ss| ==> Wf(ss[i]) && Inv(ss[i]) && Safe(ss[i])
  {
    InitialInv(ss[0]);
    for j := 0 to |es|
      invariant forall i :: 0 <= i <= j ==> Inv(ss[i])
    {
      assert Next(ss[j], es[j], ss[j + 1]);
      StepInv(ss[j], es[j]);
    }
    forall i | 0 <= i < |ss| ensures Wf(ss[i]) && Safe(ss[i]) {
      InvWf(ss[i], {});
      InvSafe(ss[i]);
    }
  }
}
