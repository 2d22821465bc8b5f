/** What every stream operation keeps: reference counts are exact, and each stream is closed once, by its
    last reference. */
module StreamsSafety {
  import opened Sequences
  import opened Streams

  ghost function Holders(refs: map<Ref, FcbId>, f: FcbId): set<Ref> {
    set r | r in refs && refs[r] == f
  }

  /** `n` references name an FCB with counter `rc`; `pending` FCBs are acquired but not installed. */
  ghost predicate FcbOk(rc: int, free: bool, pending: bool, n: nat) {
    if free then n == 0 && !pending
    else if pending then n == 0 && rc == 0
    else rc == n > 0
  }

  ghost predicate CountsOk(ft: seq<Fcb>, free: seq<FcbId>, refs: map<Ref, FcbId>, pend: set<FcbId>) {
    forall f: FcbId :: f < |ft| ==> FcbOk(ft[f].refcount, f in free, f in pend, |Holders(refs, f)|)
  }

  ghost predicate SlotsOk(refs: map<Ref, FcbId>, procs: set<Pid>) {
    forall p: Pid, fid: Fid :: Slot(p, fid) in refs ==> p in procs && fid < MAX_FILEID
  }

  ghost predicate InUse(ft: seq<Fcb>, free: seq<FcbId>, pend: set<FcbId>, f: FcbId) {
    f < |ft| && f !in free && f !in pend
  }

  ghost predicate Open(ft: seq<Fcb>, free: seq<FcbId>, pend: set<FcbId>, g: nat) {
    exists f: FcbId :: InUse(ft, free, pend, f) && ft[f].gen == g
  }

  /** Each stream is open, closed or given back unused, and only one of these; references still name the
      stream they were made to. */
  ghost predicate StreamsOk(ft: seq<Fcb>, free: seq<FcbId>, pend: set<FcbId>, h: History) {
    && NoDup(h.closed) && NoDup(h.dropped)
    && (forall g :: g in h.closed ==> g < h.next && g !in h.dropped)
    && (forall g :: g in h.dropped ==> g < h.next)
    && (forall f: FcbId :: InUse(ft, free, pend, f) ==>
          ft[f].gen < h.next && ft[f].gen !in h.closed && ft[f].gen !in h.dropped)
    && (forall f: FcbId, g: FcbId :: InUse(ft, free, pend, f) && InUse(ft, free, pend, g) && f != g ==>
          ft[f].gen != ft[g].gen)
    && (forall g: nat :: g < h.next ==> g in h.closed || g in h.dropped || Open(ft, free, pend, g))
  }

  ghost predicate MadeOk(ft: seq<Fcb>, refs: map<Ref, FcbId>, made: map<Ref, nat>)
    requires made.Keys == refs.Keys && forall r :: r in refs ==> refs[r] < |ft|
  {
    forall r :: r in refs ==> made[r] == ft[refs[r]].gen
  }

  ghost predicate InvFor(s: State, pend: set<FcbId>) {
    && Wf(s) && NoDup(s.free) && (forall f :: f in pend ==> f < |s.ft|)
    && CountsOk(s.ft, s.free, s.refs, pend) && SlotsOk(s.refs, s.procs)
    && StreamsOk(s.ft, s.free, pend, s.hist) && MadeOk(s.ft, s.refs, s.hist.made)
  }

  ghost predicate Inv(s: State) {
    InvFor(s, {})
  }

  // ---------- counting references ----------

  lemma HoldersAddAt(refs: map<Ref, FcbId>, r: Ref, f: FcbId, g: FcbId)
    requires r !in refs
    ensures |Holders(refs[r := f], g)| == |Holders(refs, g)| + if g == f then 1 else 0
  {
    if g == f {
      assert Holders(refs[r := f], g) == Holders(refs, g) + {r};
    } else {
      assert Holders(refs[r := f], g) == Holders(refs, g);
    }
  }

  lemma HoldersAdd(refs: map<Ref, FcbId>, r: Ref, f: FcbId)
    requires r !in refs
    ensures forall g: FcbId :: |Holders(refs[r := f], g)| == |Holders(refs, g)| + if g == f then 1 else 0
  {
    hide Holders;
    forall g: FcbId ensures |Holders(refs[r := f], g)| == |Holders(refs, g)| + if g == f then 1 else 0 {
      HoldersAddAt(refs, r, f, g);
    }
  }

  lemma HoldersDelAt(refs: map<Ref, FcbId>, r: Ref, g: FcbId)
    requires r in refs
    ensures |Holders(refs - {r}, g)| == |Holders(refs, g)| - if g == refs[r] then 1 else 0
  {
    if g == refs[r] {
      assert Holders(refs - {r}, g) == Holders(refs, g) - {r};
    } else {
      assert Holders(refs - {r}, g) == Holders(refs, g);
    }
  }

  lemma HoldersDel(refs: map<Ref, FcbId>, r: Ref)
    requires r in refs
    ensures forall g: FcbId :: |Holders(refs - {r}, g)| == |Holders(refs, g)| - if g == refs[r] then 1 else 0
  {
    hide Holders;
    forall g: FcbId ensures |Holders(refs - {r}, g)| == |Holders(refs, g)| - if g == refs[r] then 1 else 0 {
      HoldersDelAt(refs, r, g);
    }
  }

  /** A named FCB is in use. */
  lemma NamedInUse(s: State, pend: set<FcbId>, r: Ref)
    requires InvFor(s, pend) && r in s.refs
    ensures InUse(s.ft, s.free, pend, s.refs[r])
  {
    hide StreamsOk, MadeOk;
    assert r in Holders(s.refs, s.refs[r]);
  }

  // ---------- the primitive steps ----------

  lemma IncrefInv(s: State, pend: set<FcbId>, r: Ref, f: FcbId)
    requires InvFor(s, pend) && r !in s.refs && InUse(s.ft, s.free, pend, f)
    requires r.Slot? ==> r.p in s.procs && r.fid < MAX_FILEID
    ensures InvFor(Incref(s, r, f), pend)
  {
    hide StreamsOk, Holders;
    HoldersAdd(s.refs, r, f);
    var s' := Incref(s, r, f);
    StreamsSame(s.ft, s'.ft, s.free, pend, s.hist, s'.hist);
  }

  lemma StreamsSame(ft: seq<Fcb>, ft': seq<Fcb>, free: seq<FcbId>, pend: set<FcbId>, h: History, h': History)
    requires StreamsOk(ft, free, pend, h) && |ft'| == |ft|
    requires forall f: FcbId :: f < |ft| ==> ft'[f].gen == ft[f].gen
    requires h'.next == h.next && h'.closed == h.closed && h'.dropped == h.dropped
    ensures StreamsOk(ft', free, pend, h')
  {
    assert forall f: FcbId :: InUse(ft', free, pend, f) <==> InUse(ft, free, pend, f);
    forall g: nat | g < h.next ensures g in h.closed || g in h.dropped || Open(ft', free, pend, g) {
      if Open(ft, free, pend, g) {
        var f: FcbId :| InUse(ft, free, pend, f) && ft[f].gen == g;
        assert InUse(ft', free, pend, f);
      }
    }
  }

  /** Stream `ft[f].gen` ends, its FCB going back to the free list. */
  lemma StreamEnds(ft: seq<Fcb>, ft': seq<Fcb>, free: seq<FcbId>, f: FcbId, h: History, h': History, pend: set<FcbId>)
    requires StreamsOk(ft, free, pend, h) && |ft'| == |ft| && InUse(ft, free, pend, f)
    requires forall x: FcbId :: x < |ft| ==> ft'[x].gen == ft[x].gen
    requires h'.next == h.next
    requires (h'.closed == h.closed + [ft[f].gen] && h'.dropped == h.dropped)
          || (h'.closed == h.closed && h'.dropped == h.dropped + [ft[f].gen])
    ensures StreamsOk(ft', free + [f], pend, h')
  {
    var k := ft[f].gen;
    assert forall x: FcbId :: InUse(ft', free + [f], pend, x) <==> InUse(ft, free, pend, x) && x != f;
    forall g: nat | g < h.next ensures g in h'.closed || g in h'.dropped || Open(ft', free + [f], pend, g) {
      if Open(ft, free, pend, g) && g != k {
        var x: FcbId :| InUse(ft, free, pend, x) && ft[x].gen == g;
        assert InUse(ft', free + [f], pend, x);
      }
    }
    assert forall g :: g in h'.closed <==> g in h.closed || (g == k && h'.closed != h.closed);
  }

  lemma DecrefInv(s: State, pend: set<FcbId>, r: Ref)
    requires InvFor(s, pend) && r in s.refs
    ensures InvFor(Decref(s, r), pend)
    ensures SlotsOk(Decref(s, r).refs, s.procs)
  {
    hide StreamsOk, Holders;
    NamedInUse(s, pend, r);
    HoldersDel(s.refs, r);
    var s', f := Decref(s, r), s.refs[r];
    if s.ft[f].refcount == 1 {
      StreamEnds(s.ft, s'.ft, s.free, f, s.hist, s'.hist, pend);
      NoDupSnoc(s.free, f);
    } else {
      StreamsSame(s.ft, s'.ft, s.free, pend, s.hist, s'.hist);
    }
  }

  lemma AcquireInv(s: State, pend: set<FcbId>)
    requires InvFor(s, pend) && s.free != []
    ensures InvFor(Acquire(s), pend + {s.free[0]})
    ensures s.free[0] !in pend && s.free[0] < |s.ft|
  {
    hide StreamsOk, Holders;
    var s', f := Acquire(s), s.free[0];
    assert s.free == [f] + s.free[1..] && f in s.free;
    MoveOut(s.ft, s'.ft, s.free, s'.free, pend, pend + {f}, s.hist);
  }

  /** FCBs moving between the free list and the pending ones. */
  lemma MoveOut(ft: seq<Fcb>, ft': seq<Fcb>, free: seq<FcbId>, free': seq<FcbId>,
                pend: set<FcbId>, pend': set<FcbId>, h: History)
    requires StreamsOk(ft, free, pend, h) && |ft'| == |ft|
    requires forall f: FcbId :: f < |ft| ==> ft'[f].gen == ft[f].gen
    requires forall f: FcbId :: f < |ft| ==> (f in free || f in pend <==> f in free' || f in pend')
    ensures StreamsOk(ft', free', pend', h)
  {
    assert forall f: FcbId :: InUse(ft', free', pend', f) <==> InUse(ft, free, pend, f);
    forall g: nat | g < h.next ensures g in h.closed || g in h.dropped || Open(ft', free', pend', g) {
      if Open(ft, free, pend, g) {
        var f: FcbId :| InUse(ft, free, pend, f) && ft[f].gen == g;
        assert InUse(ft', free', pend', f);
      }
    }
  }

  lemma ReleaseInv(s: State, pend: set<FcbId>, f: FcbId)
    requires InvFor(s, pend) && f in pend
    ensures InvFor(Release(s, f), pend - {f})
  {
    hide StreamsOk, Holders;
    var s' := Release(s, f);
    assert f !in s.free by { assert FcbOk(s.ft[f].refcount, f in s.free, f in pend, |Holders(s.refs, f)|); }
    NoDupSnoc(s.free, f);
    MoveOut(s.ft, s'.ft, s.free, s'.free, pend, pend - {f}, s.hist);
  }

  lemma InstallInv(s: State, pend: set<FcbId>, p: Pid, fid: Fid, f: FcbId)
    requires InvFor(s, pend) && f in pend && Slot(p, fid) !in s.refs && p in s.procs && fid < MAX_FILEID
    ensures InvFor(Install(s, p, fid, f), pend - {f})
  {
    hide StreamsOk, Holders;
    assert FcbOk(s.ft[f].refcount, f in s.free, f in pend, |Holders(s.refs, f)|);
    HoldersAdd(s.refs, Slot(p, fid), f);
    var s' := Install(s, p, fid, f);
    StreamBegins(s.ft, s'.ft, s.free, pend, f, s.hist, s'.hist);
    InstallMade(s, pend, p, fid, f);
  }

  lemma InstallMade(s: State, pend: set<FcbId>, p: Pid, fid: Fid, f: FcbId)
    requires InvFor(s, pend) && f in pend
    ensures MadeOk(Install(s, p, fid, f).ft, Install(s, p, fid, f).refs, Install(s, p, fid, f).hist.made)
  {
    hide StreamsOk;
    assert FcbOk(s.ft[f].refcount, f in s.free, f in pend, |Holders(s.refs, f)|);
    forall r | r in s.refs ensures s.refs[r] != f {
      assert r in Holders(s.refs, s.refs[r]);
    }
  }

  lemma StreamBegins(ft: seq<Fcb>, ft': seq<Fcb>, free: seq<FcbId>, pend: set<FcbId>, f: FcbId, h: History, h': History)
    requires StreamsOk(ft, free, pend, h) && |ft'| == |ft| && f < |ft| && f in pend && f !in free
    requires ft'[f].gen == h.next && forall x: FcbId :: x < |ft| && x != f ==> ft'[x].gen == ft[x].gen
    requires h'.next == h.next + 1 && h'.closed == h.closed && h'.dropped == h.dropped
    ensures StreamsOk(ft', free, pend - {f}, h')
  {
    assert forall x: FcbId :: InUse(ft', free, pend - {f}, x) <==> InUse(ft, free, pend, x) || x == f;
    forall g: nat | g < h'.next ensures g in h.closed || g in h.dropped || Open(ft', free, pend - {f}, g) {
      if g == h.next {
        assert InUse(ft', free, pend - {f}, f);
      } else if Open(ft, free, pend, g) {
        var x: FcbId :| InUse(ft, free, pend, x) && ft[x].gen == g;
        assert InUse(ft', free, pend - {f}, x);
      }
    }
  }

  /** The only reference to a stream is the slot it is given back from. */
  lemma UnreserveInv(s: State, p: Pid, fid: Fid)
    requires Inv(s) && Slot(p, fid) in s.refs && s.ft[s.refs[Slot(p, fid)]].refcount == 1
    ensures Inv(Unreserve(s, p, fid))
  {
    hide StreamsOk, Holders;
    NamedInUse(s, {}, Slot(p, fid));
    HoldersDel(s.refs, Slot(p, fid));
    var s', f := Unreserve(s, p, fid), s.refs[Slot(p, fid)];
    StreamEnds(s.ft, s'.ft, s.free, f, s.hist, s'.hist, {});
    NoDupSnoc(s.free, f);
  }
}
