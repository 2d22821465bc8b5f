/** The process tree: what every section of the process calls keeps of the lists and parent pointers. */
module ProcessTree {
  import opened Sequences
  import opened Processes

  // ---------- the invariant ----------

  ghost predicate IsChild(pt: seq<Pcb>, c: Pid, p: Pid) {
    INIT < c < |pt| && pt[c].pstate != Free && pt[c].parent == Some(p)
  }

  /** The lists of `p` hold exactly its children, and its exited children, once each. */
  ghost predicate ListOk(pt: seq<Pcb>, p: Pid)
    requires p < |pt|
  {
    && NoDup(pt[p].children) && NoDup(pt[p].exited)
    && (forall c: Pid :: c in pt[p].children <==> IsChild(pt, c, p))
    && (forall c: Pid :: c in pt[p].exited <==> IsChild(pt, c, p) && pt[c].pstate == Zombie)
  }

  ghost predicate ListsOk(pt: seq<Pcb>) {
    forall p: Pid :: p < |pt| ==> ListOk(pt, p)
  }

  /** Every process but the first two hangs below a live parent; `d` ranks parents below children. */
  ghost predicate ParentOk(pt: seq<Pcb>, d: seq<nat>, c: Pid)
    requires c < |pt| == |d|
  {
    && pt[c].parent.Some?
    && var q := pt[c].parent.value;
    && 0 < q < |pt| && pt[q].pstate == Alive && d[q] < d[c]
  }

  ghost predicate ParentsOk(pt: seq<Pcb>, d: seq<nat>) {
    && |pt| == |d|
    && forall c: Pid {:trigger ParentOk(pt, d, c)} :: INIT < c < |pt| && pt[c].pstate != Free ==> ParentOk(pt, d, c)
  }

  ghost predicate RootsOk(pt: seq<Pcb>, d: seq<nat>) {
    && INIT < |pt| == |d| && d[INIT] == 0
    && pt[0].pstate == Alive && pt[0].threads == 0 && pt[0].parent == None
    && pt[INIT].pstate != Free && pt[INIT].parent == None
  }

  ghost predicate ThreadsOk(pt: seq<Pcb>) {
    forall p: Pid :: p < |pt| ==> pt[p].threads >= 0 && (pt[p].pstate == Zombie ==> pt[p].threads == 0)
  }

  ghost predicate TreeOk(pt: seq<Pcb>, d: seq<nat>) {
    ListsOk(pt) && ParentsOk(pt, d) && RootsOk(pt, d) && ThreadsOk(pt)
  }

  // ---------- what the invariant means ----------

  /** Only live processes have children, and children rank above. */
  lemma ChildrenOf(pt: seq<Pcb>, d: seq<nat>, p: Pid)
    requires TreeOk(pt, d) && p < |pt|
    ensures Below(pt[p].children, |pt|) && Below(pt[p].exited, |pt|)
    ensures forall c :: c in pt[p].children ==> c < |pt| && d[p] < d[c]
    ensures p !in pt[p].children && INIT !in pt[p].children && p !in pt[p].exited
    ensures forall c :: c in pt[p].exited ==> c in pt[p].children && pt[c].pstate == Zombie
    ensures pt[p].pstate != Alive || p == 0 ==> pt[p].children == [] && pt[p].exited == []
  {
    var cs, es := pt[p].children, pt[p].exited;
    assert ListOk(pt, p);
    forall i | 0 <= i < |cs| ensures cs[i] < |pt| { assert cs[i] in cs; }
    forall i | 0 <= i < |es| ensures es[i] < |pt| { assert es[i] in es; }
    assert forall c :: IsChild(pt, c, p) ==> ParentOk(pt, d, c);
    if cs != [] { assert cs[0] in cs; }
    if es != [] { assert es[0] in es; }
  }

  /** The `n`-th ancestor. */
  ghost function Ancestor(pt: seq<Pcb>, p: Pid, n: nat): Option<Pid>
    decreases n
  {
    if n == 0 then Some(p)
    else if p >= |pt| || pt[p].parent.None? then None
    else Ancestor(pt, pt[p].parent.value, n - 1)
  }

  /** The parent chain of every process reaches init, through one of init's children. */
  lemma {:induction false} ReachesInit(pt: seq<Pcb>, d: seq<nat>, p: Pid) returns (n: nat, c: Pid)
    requires TreeOk(pt, d) && INIT < p < |pt| && pt[p].pstate != Free
    ensures Ancestor(pt, p, n) == Some(c) && Ancestor(pt, p, n + 1) == Some(INIT) && c in pt[INIT].children
    decreases d[p]
  {
    assert ParentOk(pt, d, p);
    var q := pt[p].parent.value;
    if q == INIT {
      n, c := 0, p;
      assert ListOk(pt, INIT) && IsChild(pt, p, INIT);
      assert Ancestor(pt, INIT, 0) == Some(INIT);
    } else {
      n, c := ReachesInit(pt, d, q);
      n := n + 1;
    }
  }

  /** When init has no children there is no other process: only pids 0 and 1 are in use. */
  lemma InitAlone(pt: seq<Pcb>, d: seq<nat>)
    requires TreeOk(pt, d) && pt[INIT].children == []
    ensures forall p: Pid :: INIT < p < |pt| ==> pt[p].pstate == Free
  {
    forall p: Pid | INIT < p < |pt| ensures pt[p].pstate == Free {
      if pt[p].pstate != Free {
        var n, c := ReachesInit(pt, d, p);
      }
    }
  }

  /** Init is alive as long as any other process is. */
  lemma InitAlive(pt: seq<Pcb>, d: seq<nat>, p: Pid)
    requires TreeOk(pt, d) && p < |pt| && p != INIT && pt[p].pstate == Alive && pt[p].threads > 0
    ensures INIT < p && pt[INIT].pstate == Alive
  {
    var n, c := ReachesInit(pt, d, p);
    ChildrenOf(pt, d, INIT);
  }

  // ---------- steps that leave the shape alone ----------

  ghost predicate SameShape(pt: seq<Pcb>, pt': seq<Pcb>) {
    && |pt'| == |pt|
    && forall p: Pid :: p < |pt| ==> pt'[p].pstate == pt[p].pstate && pt'[p].parent == pt[p].parent
                                     && pt'[p].children == pt[p].children && pt'[p].exited == pt[p].exited
  }

  lemma SameShapeOk(pt: seq<Pcb>, pt': seq<Pcb>, d: seq<nat>)
    requires SameShape(pt, pt') && TreeOk(pt, d) && ThreadsOk(pt') && pt'[0].threads == 0
    ensures TreeOk(pt', d)
  {
    assert forall c, p :: IsChild(pt', c, p) <==> IsChild(pt, c, p);
    forall p: Pid | p < |pt| ensures ListOk(pt', p) { assert ListOk(pt, p); }
    forall c: Pid | INIT < c < |pt| && pt'[c].pstate != Free ensures ParentOk(pt', d, c) { assert ParentOk(pt, d, c); }
  }

  // ---------- birth ----------

  /** Process `n` is born below `q`. */
  ghost predicate Born(pt: seq<Pcb>, pt': seq<Pcb>, n: Pid, q: Pid) {
    && |pt'| == |pt| && INIT < n < |pt| && q < |pt| && n != q
    && pt[n].pstate == Free
    && pt'[n].pstate == Alive && pt'[n].parent == Some(q) && pt'[n].threads >= 0
    && pt'[n].children == pt[n].children && pt'[n].exited == pt[n].exited
    && pt'[q] == pt[q].(children := [n] + pt[q].children)
    && forall p: Pid :: p < |pt| && p != n && p != q ==> pt'[p] == pt[p]
  }

  lemma BornLists(pt: seq<Pcb>, pt': seq<Pcb>, n: Pid, q: Pid)
    requires Born(pt, pt', n, q) && ListsOk(pt) && (forall c :: !IsChild(pt, c, n))
    ensures ListsOk(pt')
  {
    assert forall c, p :: IsChild(pt', c, p) <==> IsChild(pt, c, p) || (c == n && p == q);
    forall p: Pid | p < |pt| ensures ListOk(pt', p) {
      assert ListOk(pt, p);
      if p == q { ConsNoDup(n, pt[q].children); }
    }
  }

  lemma BornTree(pt: seq<Pcb>, pt': seq<Pcb>, d: seq<nat>, n: Pid, q: Pid) returns (d': seq<nat>)
    requires Born(pt, pt', n, q) && TreeOk(pt, d) && pt[q].pstate == Alive && 0 < q
    ensures TreeOk(pt', d')
  {
    d' := d[n := d[q] + 1];
    NoChildren(pt, d, n);
    BornLists(pt, pt', n, q);
    forall c: Pid | INIT < c < |pt| && pt'[c].pstate != Free ensures ParentOk(pt', d', c) {
      if c != n {
        assert ParentOk(pt, d, c);
      }
    }
  }

  lemma NoChildren(pt: seq<Pcb>, d: seq<nat>, p: Pid)
    requires TreeOk(pt, d) && p < |pt| && pt[p].pstate != Alive
    ensures forall c :: !IsChild(pt, c, p)
  {
    forall c ensures !IsChild(pt, c, p) {
      assert IsChild(pt, c, p) ==> ParentOk(pt, d, c);
    }
  }

  // ---------- reaping ----------

  /** Zombie `c` of parent `q` is taken off both lists and freed. */
  ghost predicate Reaped(pt: seq<Pcb>, pt': seq<Pcb>, c: Pid, q: Pid) {
    && |pt'| == |pt| && c < |pt| && q < |pt| && c != q
    && pt'[c].pstate == Free && pt'[c].threads == pt[c].threads
    && pt'[c].children == pt[c].children && pt'[c].exited == pt[c].exited
    && pt'[q] == pt[q].(children := Without(pt[q].children, c), exited := Without(pt[q].exited, c))
    && forall p: Pid :: p < |pt| && p != c && p != q ==> pt'[p] == pt[p]
  }

  lemma ReapedLists(pt: seq<Pcb>, pt': seq<Pcb>, c: Pid, q: Pid)
    requires Reaped(pt, pt', c, q) && ListsOk(pt) && IsChild(pt, c, q)
    requires forall x :: !IsChild(pt, x, c)
    ensures ListsOk(pt')
  {
    assert forall x, p :: IsChild(pt', x, p) <==> IsChild(pt, x, p) && x != c;
    WithoutNoDup(pt[q].children, c) by { assert ListOk(pt, q); }
    WithoutNoDup(pt[q].exited, c) by { assert ListOk(pt, q); }
    forall p: Pid | p < |pt| ensures ListOk(pt', p) {
      assert ListOk(pt, p);
    }
  }

  lemma ReapedTree(pt: seq<Pcb>, pt': seq<Pcb>, d: seq<nat>, c: Pid, q: Pid)
    requires Reaped(pt, pt', c, q) && TreeOk(pt, d) && IsChild(pt, c, q) && pt[c].pstate == Zombie
    ensures TreeOk(pt', d)
  {
    NoChildren(pt, d, c);
    ReapedLists(pt, pt', c, q);
    forall x: Pid | INIT < x < |pt| && pt'[x].pstate != Free ensures ParentOk(pt', d, x) {
      assert ParentOk(pt, d, x);
    }
  }

  /** Taking the two nodes of `c` off whatever rings hold them. */
  ghost function UnlinkEverywhere(pt: seq<Pcb>, c: Pid): (r: seq<Pcb>)
    ensures |r| == |pt|
  {
    seq(|pt|, p requires 0 <= p < |pt| =>
      pt[p].(children := Without(pt[p].children, c), exited := Without(pt[p].exited, c)))
  }

  /** The rings that hold the nodes of a child are its parent's. */
  lemma UnlinkIsEverywhere(pt: seq<Pcb>, d: seq<nat>, c: Pid, q: Pid)
    requires TreeOk(pt, d) && IsChild(pt, c, q)
    ensures Unlink(pt, c) == UnlinkEverywhere(pt, c)
  {
    assert ParentOk(pt, d, c);
    forall p: Pid | p < |pt| ensures Unlink(pt, c)[p] == UnlinkEverywhere(pt, c)[p] {
      assert ListOk(pt, p);
      if p != q {
        WithoutAbsent(pt[p].children, c);
        WithoutAbsent(pt[p].exited, c);
      }
    }
  }

  // ---------- exiting ----------

  /** What the reparenting loop leaves of PCB `p`. */
  ghost function Adopted(pt: seq<Pcb>, cur: Pid, p: Pid): Pcb
    requires cur < |pt| && p < |pt|
  {
    var cs := pt[cur].children;
    if p == cur then pt[p].(children := [])
    else if p == INIT then pt[p].(children := Reversed(cs) + pt[p].children)
    else if p in cs then pt[p].(parent := Some(INIT))
    else pt[p]
  }

  lemma {:induction false} ReparentForm(pt: seq<Pcb>, cur: Pid)
    requires cur < |pt| && INIT < |pt| && cur != INIT && Below(pt[cur].children, |pt|)
    requires cur !in pt[cur].children && INIT !in pt[cur].children
    ensures forall p: Pid :: p < |pt| ==> Reparent(pt, cur)[p] == Adopted(pt, cur, p)
    decreases |pt[cur].children|
  {
    var cs := pt[cur].children;
    if cs == [] {
      assert Reversed(cs) + pt[INIT].children == pt[INIT].children;
    } else {
      ReparentOneKeeps(pt, cur);
      var one := ReparentOne(pt, cur);
      assert cs == [cs[0]] + cs[1..];
      ReparentForm(one, cur);
      forall p: Pid | p < |pt| ensures Reparent(pt, cur)[p] == Adopted(pt, cur, p) {
        assert Adopted(one, cur, p) == Adopted(pt, cur, p) by { AdoptedStep(pt, cur, p); }
      }
    }
  }

  lemma AdoptedStep(pt: seq<Pcb>, cur: Pid, p: Pid)
    requires cur < |pt| && INIT < |pt| && cur != INIT && Below(pt[cur].children, |pt|) && p < |pt|
    requires cur !in pt[cur].children && INIT !in pt[cur].children && pt[cur].children != []
    ensures Adopted(ReparentOne(pt, cur), cur, p) == Adopted(pt, cur, p)
  {
    var cs := pt[cur].children;
    var one := ReparentOne(pt, cur);
    assert cs == [cs[0]] + cs[1..] && cs[0] in cs;
    assert one[cur].children == cs[1..];
    assert Reversed(cs[1..]) + ([cs[0]] + pt[INIT].children) == Reversed(cs) + pt[INIT].children;
  }

  /** Process `cur`, child of `q`, exits. */
  ghost predicate Died(pt: seq<Pcb>, pt': seq<Pcb>, cur: Pid, q: Pid) {
    && |pt'| == |pt| && INIT < cur < |pt| && 0 < q < |pt| && q != cur && pt[cur].parent == Some(q)
    && pt'[cur] == pt[cur].(children := [], exited := [], pstate := Zombie)
    && pt'[INIT] == pt[INIT].(children := Reversed(pt[cur].children) + pt[INIT].children,
                              exited := (if q == INIT then [cur] else []) + (pt[INIT].exited + pt[cur].exited))
    && (q != INIT ==> pt'[q] == pt[q].(exited := [cur] + pt[q].exited))
    && forall p: Pid :: p < |pt| && p != cur && p != INIT && p != q ==>
         pt'[p] == if p in pt[cur].children then pt[p].(parent := Some(INIT)) else pt[p]
  }

  /** The exit code does that, and reaches its asserts with empty lists. */
  lemma DiedForm(pt: seq<Pcb>, d: seq<nat>, cur: Pid) returns (q: Pid)
    requires TreeOk(pt, d) && INIT < cur < |pt| && pt[cur].pstate == Alive
    ensures pt[cur].parent == Some(q) && InRange(pt, cur) && ExitAsserts(pt, cur)
    ensures var r := Emptied(pt, cur); Died(pt, r[cur := r[cur].(pstate := Zombie)], cur, q)
  {
    ChildrenOf(pt, d, cur);
    assert ParentOk(pt, d, cur);
    q := pt[cur].parent.value;
    ReparentForm(pt, cur);
    var a := Reparent(pt, cur);
    assert a[cur] == Adopted(pt, cur, cur) && a[INIT] == Adopted(pt, cur, INIT) && a[q] == Adopted(pt, cur, q);
    HandOverForm(a, cur, q);
    var r := HandOver(a, cur);
    var pt' := r[cur := r[cur].(pstate := Zombie)];
    forall p: Pid | p < |pt| && p != cur && p != INIT && p != q
      ensures pt'[p] == if p in pt[cur].children then pt[p].(parent := Some(INIT)) else pt[p]
    {
      assert a[p] == Adopted(pt, cur, p);
    }
  }

  lemma HandOverForm(pt: seq<Pcb>, cur: Pid, q: Pid)
    requires INIT < cur < |pt| && q < |pt| && q != cur && pt[cur].parent == Some(q)
    ensures var r := HandOver(pt, cur);
      && r[cur] == pt[cur].(exited := [])
      && r[INIT] == pt[INIT].(exited := (if q == INIT then [cur] else []) + (pt[INIT].exited + pt[cur].exited))
      && (q != INIT ==> r[q] == pt[q].(exited := [cur] + pt[q].exited))
      && forall p: Pid :: p < |pt| && p != cur && p != INIT && p != q ==> r[p] == pt[p]
  {
    assert pt[INIT].exited + [] == pt[INIT].exited;
    assert [] + (pt[INIT].exited + pt[cur].exited) == pt[INIT].exited + pt[cur].exited;
  }

  lemma DiedRelation(pt: seq<Pcb>, pt': seq<Pcb>, cur: Pid, q: Pid)
    requires Died(pt, pt', cur, q) && ListsOk(pt) && cur !in pt[cur].children && q !in pt[cur].children
    requires INIT !in pt[cur].children && pt[INIT].parent == None && pt[cur].pstate == Alive
    ensures forall c: Pid :: c < |pt| ==> pt'[c].pstate == if c == cur then Zombie else pt[c].pstate
    ensures forall c: Pid :: INIT < c < |pt| ==>
      pt'[c].parent == if c in pt[cur].children then Some(INIT) else pt[c].parent
    ensures forall c, p :: IsChild(pt', c, p) <==>
      if p == cur then false else IsChild(pt, c, p) || (p == INIT && IsChild(pt, c, cur))
  {
    assert ListOk(pt, cur);
    assert forall c: Pid :: INIT < c < |pt| && pt[c].pstate != Free && pt[c].parent == Some(cur) ==>
      IsChild(pt, c, cur);
  }

  lemma DiedLists(pt: seq<Pcb>, pt': seq<Pcb>, cur: Pid, q: Pid)
    requires Died(pt, pt', cur, q) && ListsOk(pt) && cur !in pt[cur].children && q !in pt[cur].children
    requires INIT !in pt[cur].children && pt[INIT].parent == None && pt[cur].pstate == Alive
    ensures ListsOk(pt')
  {
    DiedRelation(pt, pt', cur, q);
    forall p: Pid | p < |pt| ensures ListOk(pt', p) {
      assert ListOk(pt, p) && ListOk(pt, cur);
      if p == INIT {
        DiedInit(pt, pt', cur, q);
      } else if p == q {
        ConsNoDup(cur, pt[q].exited);
      }
    }
  }

  lemma DiedInit(pt: seq<Pcb>, pt': seq<Pcb>, cur: Pid, q: Pid)
    requires Died(pt, pt', cur, q) && ListsOk(pt) && cur !in pt[cur].children && q !in pt[cur].children
    requires INIT !in pt[cur].children && pt[INIT].parent == None && pt[cur].pstate == Alive
    ensures ListOk(pt', INIT)
  {
    DiedRelation(pt, pt', cur, q);
    assert ListOk(pt, INIT) && ListOk(pt, cur);
    var cs, es := pt[cur].children, pt[cur].exited;
    ReversedOk(cs);
    NoDupConcat(Reversed(cs), pt[INIT].children);
    NoDupConcat(pt[INIT].exited, es);
    if q == INIT { ConsNoDup(cur, pt[INIT].exited + es); }
    assert [] + (pt[INIT].exited + es) == pt[INIT].exited + es;
  }

  lemma DiedTree(pt: seq<Pcb>, pt': seq<Pcb>, d: seq<nat>, cur: Pid, q: Pid)
    requires Died(pt, pt', cur, q) && TreeOk(pt, d) && pt[cur].pstate == Alive && pt[cur].threads == 0
    requires pt[INIT].pstate == Alive
    ensures TreeOk(pt', d)
  {
    ChildrenOf(pt, d, cur);
    assert ParentOk(pt, d, cur);
    DiedLists(pt, pt', cur, q);
    DiedRelation(pt, pt', cur, q);
    assert 0 !in pt[cur].children by { assert ListOk(pt, cur); }
    forall c: Pid | INIT < c < |pt| && pt'[c].pstate != Free ensures ParentOk(pt', d, c) {
      assert ParentOk(pt, d, c) && ListOk(pt, cur);
    }
  }
}
