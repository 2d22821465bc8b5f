/** The resource lists of util.h on the heap: circular doubly linked rings, spliced by swapping
    `next` pointers. */
module Rings {
  import opened Sequences

  class Node {
    var key: int
    var prev: Node
    var next: Node

    /** rlnode_new, rlnode_init */
    constructor (k: int)
      ensures key == k && IsRing([this])
    {
      key := k;
      prev := this;
      next := this;
    }
  }

  // ---------- rings ----------

  ghost predicate Linked(p: Node, q: Node)
    reads p, q
  {
    p.next == q && q.prev == p
  }

  ghost predicate Chain(s: seq<Node>)
    reads s
  {
    forall i, j :: 0 <= i < |s| && 0 <= j < |s| && j == i + 1 ==> Linked(s[i], s[j])
  }

  /** `r` lists the nodes of a ring, starting anywhere. */
  ghost predicate IsRing(r: seq<Node>)
    reads r
  {
    && r != [] && NoDup(r) && Chain(r)
    && Linked(r[|r| - 1], r[0])
  }

  ghost predicate Disjoint(r: seq<Node>, s: seq<Node>) {
    forall p :: p in r ==> p !in s
  }

  lemma Apart(r: seq<Node>, s: seq<Node>)
    requires Disjoint(r, s)
    ensures forall i, j :: 0 <= i < |r| && 0 <= j < |s| ==> r[i] != s[j]
  {
    forall i, j | 0 <= i < |r| && 0 <= j < |s| ensures r[i] != s[j] {
      assert r[i] in r;
    }
  }

  lemma ChainConcat(s: seq<Node>, t: seq<Node>)
    ensures Chain(s + t) <==>
      Chain(s) && Chain(t) && (s != [] && t != [] ==> Linked(s[|s| - 1], t[0]))
  {
    var u := s + t;
    if Chain(u) {
      forall i, j | 0 <= i < |s| && 0 <= j < |s| && j == i + 1 ensures Linked(s[i], s[j]) {
        assert Linked(u[i], u[j]);
      }
      forall i, j | 0 <= i < |t| && 0 <= j < |t| && j == i + 1 ensures Linked(t[i], t[j]) {
        assert Linked(u[|s| + i], u[|s| + j]);
      }
      if s != [] && t != [] {
        assert Linked(u[|s| - 1], u[|s|]);
      }
    }
    if Chain(s) && Chain(t) && (s != [] && t != [] ==> Linked(s[|s| - 1], t[0])) {
      forall i, j | 0 <= i < |u| && 0 <= j < |u| && j == i + 1 ensures Linked(u[i], u[j]) {
        if j < |s| {
          assert Linked(s[i], s[j]);
        } else if i >= |s| {
          assert Linked(t[i - |s|], t[j - |s|]);
        }
      }
    }
  }

  /** A ring may be read from any of its nodes: [b,c,a] is [a,b,c]. */
  lemma Rotate(s: seq<Node>, t: seq<Node>)
    requires IsRing(s + t)
    ensures IsRing(t + s)
  {
    if s == [] || t == [] {
      assert t + s == s + t;
    } else {
      ChainConcat(s, t);
      ChainConcat(t, s);
      NoDupSplit(s, t);
      NoDupConcat(t, s);
    }
  }

  lemma NoDupSplit<T>(s: seq<T>, t: seq<T>)
    requires NoDup(s + t)
    ensures NoDup(s) && NoDup(t)
    ensures forall x :: x in s ==> x !in t
    ensures forall x :: x in t ==> x !in s
  {
    var u := s + t;
    forall i, j | 0 <= i < |s| && 0 <= j < |t| ensures s[i] != t[j] {
      assert u[i] != u[|s| + j];
    }
    forall i, j | 0 <= i < j < |s| ensures s[i] != s[j] {
      assert u[i] != u[j];
    }
    forall i, j | 0 <= i < j < |t| ensures t[i] != t[j] {
      assert u[|s| + i] != u[|s| + j];
    }
  }

  // ---------- splice ----------

  ghost function First(x: seq<Node>, d: Node): Node { if x == [] then d else x[0] }
  ghost function Last(d: Node, x: seq<Node>): Node { if x == [] then d else x[|x| - 1] }

  lemma ChainCons(a: Node, x: seq<Node>)
    ensures Chain([a] + x) <==> Chain(x) && (x != [] ==> Linked(a, x[0]))
  {
    ChainConcat([a], x);
  }

  /** The links of the ring [a, x...]. */
  ghost predicate OneRing(a: Node, x: seq<Node>)
    reads a, x
  {
    && Chain(x) && Linked(a, First(x, a)) && Linked(Last(a, x), a)
  }

  /** The links of the ring [a, x..., b, y...]. */
  ghost predicate TwoArcs(a: Node, x: seq<Node>, b: Node, y: seq<Node>)
    reads a, x, b, y
  {
    && Chain(x) && Chain(y)
    && Linked(a, First(x, b)) && Linked(Last(a, x), b)
    && Linked(b, First(y, a)) && Linked(Last(b, y), a)
  }

  lemma OneRingIff(a: Node, x: seq<Node>)
    ensures IsRing([a] + x) <==> NoDup([a] + x) && OneRing(a, x)
  {
    ChainCons(a, x);
    assert ([a] + x)[|x|] == Last(a, x);
  }

  lemma TwoArcsIff(a: Node, x: seq<Node>, b: Node, y: seq<Node>)
    ensures IsRing([a] + x + [b] + y) <==> NoDup([a] + x + [b] + y) && TwoArcs(a, x, b, y)
  {
    var u, v := [a] + x, [b] + y;
    assert [a] + x + [b] + y == u + v;
    ChainConcat(u, v);
    ChainCons(a, x);
    ChainCons(b, y);
    assert u[|u| - 1] == Last(a, x) && v[|v| - 1] == Last(b, y) == (u + v)[|u + v| - 1];
  }

  lemma NoDupIff<T>(s: seq<T>, t: seq<T>)
    ensures NoDup(s + t) <==> NoDup(s) && NoDup(t) && forall x :: x in s ==> x !in t
  {
    if NoDup(s + t) { NoDupSplit(s, t); }
    if NoDup(s) && NoDup(t) && forall x :: x in s ==> x !in t { NoDupConcat(s, t); }
  }

  ghost predicate TwoRings(a: Node, x: seq<Node>, b: Node, y: seq<Node>)
    reads a, x, b, y
  {
    IsRing([a] + x) && IsRing([b] + y) && Disjoint([a] + x, [b] + y)
  }

  ghost predicate BothRings(a: Node, x: seq<Node>, b: Node, y: seq<Node>)
    reads a, x, b, y
  {
    && Chain(x) && Linked(a, First(x, a)) && Linked(Last(a, x), a)
    && Chain(y) && Linked(b, First(y, b)) && Linked(Last(b, y), b)
  }

  /** Two nodes to splice and the arcs behind them. */
  datatype Seam = Seam(a: Node, x: seq<Node>, b: Node, y: seq<Node>)
  {
    /** The predecessor of `p`, once `q`, after a splice of `a` and `b`, whose successors were
        `an` and `bn`. */
    ghost function NewPrev(an: Node, bn: Node, p: Node, q: Node): Node {
      if p == an then b else if p == bn then a else q
    }
  }

  /** Two arcs and the two nodes between them, all different. */
  ghost predicate Arcs(a: Node, x: seq<Node>, b: Node, y: seq<Node>) {
    && a != b && a !in x && a !in y && b !in x && b !in y
    && Disjoint(x, y) && Disjoint(y, x) && NoDup(x) && NoDup(y)
  }

  twostate lemma ChainFrame(x: seq<Node>)
    requires old(Chain(x)) && forall i :: 0 <= i < |x| ==> x[i].next == old(x[i].next)
    requires forall i :: 1 <= i < |x| ==> x[i].prev == old(x[i].prev)
    ensures Chain(x)
  {
    forall i, j | 0 <= i < |x| && 0 <= j < |x| && j == i + 1 ensures Linked(x[i], x[j]) {
      assert old(Linked(x[i], x[j]));
    }
  }

  twostate lemma SameLinks(r: seq<Node>)
    requires old(IsRing(r)) && forall i :: 0 <= i < |r| ==> r[i].next == old(r[i].next) && r[i].prev == old(r[i].prev)
    ensures IsRing(r)
  {
    ChainFrame(r);
  }

  /** [a, x...] [b, y...]  ==>  [a, y..., b, x...] */
  twostate lemma SpliceJoins(m: Seam)
    requires Arcs(m.a, m.x, m.b, m.y) && old(BothRings(m.a, m.x, m.b, m.y))
    requires m.a.next == old(m.b.next) && m.b.next == old(m.a.next)
    requires m.a.prev == m.NewPrev(old(m.a.next), old(m.b.next), m.a, old(m.a.prev))
    requires m.b.prev == m.NewPrev(old(m.a.next), old(m.b.next), m.b, old(m.b.prev))
    requires forall p :: p in m.x ==> p.next == old(p.next)
    requires forall p :: p in m.y ==> p.next == old(p.next)
    requires forall p :: p in m.x ==> p.prev == m.NewPrev(old(m.a.next), old(m.b.next), p, old(p.prev))
    requires forall p :: p in m.y ==> p.prev == m.NewPrev(old(m.a.next), old(m.b.next), p, old(p.prev))
    ensures TwoArcs(m.a, m.y, m.b, m.x)
  {
    Apart(m.x, m.y);
    assert forall i :: 0 <= i < |m.x| ==> m.x[i] in m.x;
    assert forall i :: 0 <= i < |m.y| ==> m.y[i] in m.y;
    ChainFrame(m.x);
    ChainFrame(m.y);
  }

  /** [a, x..., b, y...]  ==>  [a, y...] [b, x...] */
  twostate lemma SpliceSplits(m: Seam)
    requires Arcs(m.a, m.x, m.b, m.y) && old(TwoArcs(m.a, m.x, m.b, m.y))
    requires m.a.next == old(m.b.next) && m.b.next == old(m.a.next)
    requires m.a.prev == m.NewPrev(old(m.a.next), old(m.b.next), m.a, old(m.a.prev))
    requires m.b.prev == m.NewPrev(old(m.a.next), old(m.b.next), m.b, old(m.b.prev))
    requires forall p :: p in m.x ==> p.next == old(p.next)
    requires forall p :: p in m.y ==> p.next == old(p.next)
    requires forall p :: p in m.x ==> p.prev == m.NewPrev(old(m.a.next), old(m.b.next), p, old(p.prev))
    requires forall p :: p in m.y ==> p.prev == m.NewPrev(old(m.a.next), old(m.b.next), p, old(p.prev))
    ensures BothRings(m.a, m.y, m.b, m.x)
  {
    Apart(m.x, m.y);
    assert forall i :: 0 <= i < |m.x| ==> m.x[i] in m.x;
    assert forall i :: 0 <= i < |m.y| ==> m.y[i] in m.y;
    ChainFrame(m.x);
    ChainFrame(m.y);
  }

  lemma ConsDisjoint(a: Node, x: seq<Node>, b: Node, y: seq<Node>)
    ensures Disjoint([a] + x, [b] + y) <==> a != b && a !in y && b !in x && Disjoint(x, y)
  {
    if Disjoint([a] + x, [b] + y) {
      assert a in [a] + x && b in [b] + y;
      forall p | p in x ensures p != b && p !in y {
        assert p in [a] + x;
      }
      assert a !in y;
    }
  }

  lemma ArcsIff(a: Node, x: seq<Node>, b: Node, y: seq<Node>)
    ensures NoDup([a] + x + [b] + y) <==> Arcs(a, x, b, y)
    ensures NoDup([a] + x) && NoDup([b] + y) && Disjoint([a] + x, [b] + y) <==> Arcs(a, x, b, y)
  {
    assert [a] + x + [b] + y == ([a] + x) + ([b] + y);
    NoDupIff([a] + x, [b] + y);
    ConsNoDup(a, x);
    ConsNoDup(b, y);
    ConsDisjoint(a, x, b, y);
  }

  /** rl_splice.  Only the two `next` pointers and the `prev` pointers of the two successors are
      written; splicing a node with itself does nothing. */
  method Splice(a: Node, b: Node, ghost x: seq<Node>, ghost y: seq<Node>) returns (r: Node)
    requires TwoRings(a, x, b, y) || IsRing([a] + x + [b] + y) || (a == b && IsRing([a] + x))
    modifies a`next, b`next, a.next`prev, b.next`prev
    ensures r == b
    ensures old(TwoRings(a, x, b, y)) ==> IsRing([a] + y + [b] + x)
    ensures old(IsRing([a] + x + [b] + y)) ==> TwoRings(a, y, b, x)
    ensures a == b ==> IsRing([a] + x)
  {
    OneRingIff(a, x);
    OneRingIff(b, y);
    TwoArcsIff(a, x, b, y);
    ArcsIff(a, x, b, y);
    ArcsIff(a, y, b, x);
    label before:
    SwapLinks(a, b);
    if a == b {
      SameLinks@before([a] + x);
    } else if old(BothRings(a, x, b, y)) {
      SpliceJoins@before(Seam(a, x, b, y));
    } else {
      SpliceSplits@before(Seam(a, x, b, y));
    }
    OneRingIff(a, y);
    OneRingIff(b, x);
    TwoArcsIff(a, y, b, x);
    r := b;
  }

  /** The body of rl_splice: two pointer swaps. */
  method SwapLinks(a: Node, b: Node)
    requires a.next.prev == a && b.next.prev == b
    modifies a`next, b`next, a.next`prev, b.next`prev
    ensures a.next == old(b.next) && b.next == old(a.next)
    ensures old(a.next).prev == b && old(b.next).prev == a
  {
    var an, bn := a.next, b.next;
    var t := an.prev;
    an.prev := bn.prev;
    bn.prev := t;
    t := a.next;
    a.next := b.next;
    b.next := t;
  }

  // ---------- the whole heap ----------

  /** p.next.prev == p.prev.next == p everywhere in a closed set of nodes. */
  ghost predicate WellLinked(nodes: set<Node>)
    reads nodes
  {
    && (forall p {:trigger p.next} :: p in nodes ==> p.next in nodes && p.next.prev == p)
    && (forall p {:trigger p.prev} :: p in nodes ==> p.prev in nodes && p.prev.next == p)
  }

  /** Splicing any two nodes of any well-linked heap keeps it well linked. */
  method SpliceInHeap(a: Node, b: Node, ghost nodes: set<Node>)
    requires WellLinked(nodes) && a in nodes && b in nodes
    modifies nodes
    ensures WellLinked(nodes)
    ensures a.next == old(b.next) && b.next == old(a.next)
    ensures forall p :: p in nodes && p != a && p != b ==> p.next == old(p.next)
  {
    SwapLinks(a, b);
  }

  /** A splice is its own inverse. */
  method SpliceTwice(a: Node, b: Node, ghost nodes: set<Node>)
    requires WellLinked(nodes) && a in nodes && b in nodes
    modifies nodes
    ensures forall p :: p in nodes ==> p.next == old(p.next) && p.prev == old(p.prev)
  {
    SpliceInHeap(a, b, nodes);
    SpliceInHeap(a, b, nodes);
    forall p | p in nodes ensures p.prev == old(p.prev) {
      assert p.prev.next == p && old(p.prev.next) == p;
    }
  }

  /** A chain in a well-linked heap grows until it closes. */
  lemma {:induction false} CloseChain(s: seq<Node>, nodes: set<Node>) returns (r: seq<Node>)
    requires WellLinked(nodes) && s != [] && NoDup(s) && Chain(s) && forall p :: p in s ==> p in nodes
    ensures IsRing(r) && r[0] == s[0] && forall p :: p in r ==> p in nodes
    decreases nodes - Elems(s)
  {
    var l := s[|s| - 1];
    if l.next == s[0] {
      r := s;
    } else {
      NextIsNew(s, nodes);
      ChainConcat(s, [l.next]);
      NoDupSnoc(s, l.next);
      assert l.next in Elems(s + [l.next]) && l.next !in Elems(s);
      r := CloseChain(s + [l.next], nodes);
    }
  }

  lemma NextIsNew(s: seq<Node>, nodes: set<Node>)
    requires WellLinked(nodes) && s != [] && NoDup(s) && Chain(s) && forall p :: p in s ==> p in nodes
    requires s[|s| - 1].next != s[0]
    ensures s[|s| - 1].next !in s && s[|s| - 1].next in nodes
  {
    var l := s[|s| - 1];
    assert l in nodes;
    forall i | 0 <= i < |s| ensures s[i] != l.next {
      assert i > 0 ==> Linked(s[i - 1], s[i]);
      assert i > 0 ==> s[i - 1] != l;
    }
  }

  /** Every node of a finite well-linked heap is on a ring. */
  lemma RingThrough(a: Node, nodes: set<Node>) returns (x: seq<Node>)
    requires WellLinked(nodes) && a in nodes
    ensures IsRing([a] + x) && forall p :: p in [a] + x ==> p in nodes
  {
    var r := CloseChain([a], nodes);
    x := r[1..];
    assert r == [a] + x;
  }

  /** A ring from a node that is not on another ring does not meet it. */
  lemma RingsApart(r: seq<Node>, s: seq<Node>)
    requires IsRing(r) && IsRing(s) && s[0] !in r
    ensures Disjoint(r, s)
  {
    for k := 1 to |s|
      invariant forall i :: 0 <= i < k ==> s[i] !in r
    {
      assert Linked(s[k - 1], s[k]);
      PrevOnRing(r, s[k]);
    }
    assert forall p :: p in s ==> p !in r;
  }

  lemma PrevOnRing(r: seq<Node>, p: Node)
    requires IsRing(r)
    ensures p in r ==> p.prev in r
  {
    if p in r {
      var i :| 0 <= i < |r| && r[i] == p;
      if i > 0 { assert Linked(r[i - 1], r[i]); }
    }
  }

  /** Any two nodes of any finite well-linked heap are the same, on one ring, or on two. */
  lemma SpliceCases(a: Node, b: Node, nodes: set<Node>) returns (x: seq<Node>, y: seq<Node>)
    requires WellLinked(nodes) && a in nodes && b in nodes
    ensures forall p :: p in x + y ==> p in nodes
    ensures TwoRings(a, x, b, y) || IsRing([a] + x + [b] + y) || (a == b && IsRing([a] + x))
  {
    x := RingThrough(a, nodes);
    y := [];
    var r := [a] + x;
    if b in x {
      var k :| 0 <= k < |x| && x[k] == b;
      assert r == [a] + x[..k] + [b] + x[k + 1..];
      x, y := x[..k], x[k + 1..];
    } else if a != b {
      y := RingThrough(b, nodes);
      RingsApart(r, [b] + y);
    }
  }

  /** rl_splice of any two nodes of any finite well-linked heap joins their rings, splits their ring, or
      does nothing; `x` and `y` are the arcs behind the nodes. */
  method SpliceAnywhere(a: Node, b: Node, ghost nodes: set<Node>) returns (ghost x: seq<Node>, ghost y: seq<Node>)
    requires WellLinked(nodes) && a in nodes && b in nodes
    modifies a`next, b`next, a.next`prev, b.next`prev
    ensures old(allocated(x)) && old(allocated(y))
    ensures (old(TwoRings(a, x, b, y)) && IsRing([a] + y + [b] + x))
         || (old(IsRing([a] + x + [b] + y)) && TwoRings(a, y, b, x))
         || (a == b && old(IsRing([a] + x)) && IsRing([a] + x))
  {
    x, y := SpliceCases(a, b, nodes);
    hide IsRing, TwoRings;
    var r := Splice(a, b, x, y);
  }

  // ---------- list operations ----------

  /** The ring of sentinel `l` holds the list `items`. */
  ghost predicate IsList(l: Node, items: seq<Node>)
    reads l, items
  {
    IsRing([l] + items)
  }

  /** rlist_remove: `a` becomes a singleton and the rest of its ring closes up. */
  method Remove(a: Node, ghost w: seq<Node>) returns (r: Node)
    requires IsRing([a] + w)
    modifies a`next, a`prev, a.prev`next, a.next`prev
    ensures r == a && IsRing([a])
    ensures w != [] ==> IsRing(w) && a !in w
  {
    OneRingIff(a, w);
    ghost var x := if w == [] then [] else w[..|w| - 1];
    if a.prev != a {
      assert w == x + [a.prev];
      assert [a] + w == [a] + x + [a.prev] + [];
    } else {
      assert w == [] by { NoDupIff([a], w); }
    }
    ghost var p := a.prev;
    var q := Splice(a, a.prev, x, []);
    if p != a {
      assert [a] + [] == [a];
      Rotate([p], x);
      NoDupIff([a], w);
    } else {
      assert [a] + x == [a];
    }
    r := a;
  }

  /** rlist_push_front, of a whole ring [node, y...] */
  method PushFront(list: Node, node: Node, ghost items: seq<Node>, ghost y: seq<Node>)
    requires IsList(list, items) && IsRing([node] + y) && Disjoint([list] + items, [node] + y)
    modifies list`next, node`next, list.next`prev, node.next`prev
    ensures IsList(list, y + [node] + items)
  {
    var r := Splice(list, node, items, y);
    assert [list] + y + [node] + items == [list] + (y + [node] + items);
  }

  /** The ring of a list read from its last node: the last node and then this arc. */
  ghost function BackArc(list: Node, items: seq<Node>): seq<Node> {
    if items == [] then [] else [list] + items[..|items| - 1]
  }

  lemma FromBack(list: Node, items: seq<Node>)
    requires IsList(list, items)
    ensures list.prev == Last(list, items) && IsRing([list.prev] + BackArc(list, items))
    ensures forall p :: p in [list.prev] + BackArc(list, items) <==> p in [list] + items
  {
    OneRingIff(list, items);
    var l, x := Last(list, items), BackArc(list, items);
    if items != [] {
      assert [list] + items == x + [l];
      Rotate(x, [l]);
    } else {
      assert [l] + x == [list] + items;
    }
  }

  lemma ToFront(list: Node, items: seq<Node>, z: seq<Node>)
    requires IsRing([Last(list, items)] + z + BackArc(list, items))
    ensures IsList(list, items + z)
  {
    var l, x := Last(list, items), BackArc(list, items);
    Rotate([l] + z, x);
    if items != [] {
      assert x + ([l] + z) == [list] + (items + z);
    } else {
      assert x + ([l] + z) == [list] + (items + z);
    }
  }

  /** rlist_push_back, of a whole ring [node, y...] */
  method PushBack(list: Node, node: Node, ghost items: seq<Node>, ghost y: seq<Node>)
    requires IsList(list, items) && IsRing([node] + y) && Disjoint([list] + items, [node] + y)
    modifies list`prev, list.prev`next, node`next, node.next`prev
    ensures IsList(list, items + (y + [node]))
  {
    FromBack(list, items);
    ghost var l, x := list.prev, BackArc(list, items);
    assert Disjoint([l] + x, [node] + y);
    hide IsRing, NoDup, Disjoint;
    var r := Splice(list.prev, node, x, y);
    assert [l] + y + [node] + x == [l] + (y + [node]) + x;
    ToFront(list, items, y + [node]);
  }

  /** rlist_pop_front: takes the head; on an empty list returns the list. */
  method PopFront(list: Node, ghost items: seq<Node>) returns (r: Node)
    requires IsList(list, items)
    modifies list, list.next, list.next.next`prev
    ensures items == [] ==> r == list && IsList(list, [])
    ensures items != [] ==> r == items[0] && IsList(list, items[1..]) && IsRing([r])
  {
    OneRingIff(list, items);
    ghost var rest := if items == [] then [] else items[1..];
    assert items != [] ==> [list] + items == [list] + [] + [list.next] + rest;
    assert items == [] ==> list.next == list && [list] + items == [list] + [];
    r := Splice(list, list.next, [], rest);
    assert [r] + [] == [r];
  }

  /** rlist_pop_back takes the tail, but leaves the other items on the ring of the node it returns:
      the list comes back empty. */
  method PopBack(list: Node, ghost items: seq<Node>) returns (r: Node)
    requires IsList(list, items)
    modifies list, list.next`prev, list.prev
    ensures items == [] ==> r == list
    ensures IsList(list, [])
    ensures items != [] ==> r == items[|items| - 1] && IsRing([r] + items[..|items| - 1])
    ensures items != [] ==> (IsList(list, items[..|items| - 1]) <==> |items| == 1)
  {
    OneRingIff(list, items);
    ghost var init := if items == [] then [] else items[..|items| - 1];
    assert items != [] ==> [list] + items == [list] + init + [list.prev] + [];
    assert items == [] ==> list.prev == list && [list] + items == [list] + init;
    r := Splice(list, list.prev, init, []);
    assert [list] + [] == [list];
    OneRingIff(list, init);
    ConsNoDup(list, init);
  }

  /** rlist_append:  [d, X...] [s, Y...]  ==>  [d, X..., Y...] [s] */
  method Append(ldest: Node, lsrc: Node, ghost x: seq<Node>, ghost y: seq<Node>)
    requires IsList(ldest, x) && IsList(lsrc, y) && Disjoint([ldest] + x, [lsrc] + y)
    modifies ldest, lsrc, x, y
    ensures IsList(ldest, x + y) && IsList(lsrc, [])
  {
    FromBack(ldest, x);
    assert ldest.prev in [ldest] + x;
    OneRingIff(lsrc, y);
    PushBack(ldest, lsrc, x, y);
    assert [ldest] + (x + (y + [lsrc])) == ([ldest] + (x + y)) + [lsrc];
    Rotate([ldest] + (x + y), [lsrc]);
    RingNeighbours(lsrc, [ldest] + (x + y));
    var r := Remove(lsrc, [ldest] + (x + y));
    assert [lsrc] + [] == [lsrc];
  }

  /** rlist_prepend:  [d, X...] [s, Y...]  ==>  [d, Y..., X...] [s] */
  method Prepend(ldest: Node, lsrc: Node, ghost x: seq<Node>, ghost y: seq<Node>)
    requires IsList(ldest, x) && IsList(lsrc, y) && Disjoint([ldest] + x, [lsrc] + y)
    modifies ldest, lsrc, x, y
    ensures IsList(ldest, y + x) && IsList(lsrc, [])
  {
    ListNeighbours(ldest, x);
    ListNeighbours(lsrc, y);
    hide IsRing, NoDup, Disjoint;
    PushFront(ldest, lsrc, x, y);
    SeenFromSource(ldest, lsrc, x, y);
    RingNeighbours(lsrc, x + ([ldest] + y));
    var r := Remove(lsrc, x + ([ldest] + y));
    Rotate(x, [ldest] + y);
    assert ([ldest] + y) + x == [ldest] + (y + x);
    assert [lsrc] + [] == [lsrc];
  }

  lemma SeenFromSource(ldest: Node, lsrc: Node, x: seq<Node>, y: seq<Node>)
    requires IsList(ldest, y + [lsrc] + x)
    ensures IsRing([lsrc] + (x + ([ldest] + y)))
  {
    assert [ldest] + (y + [lsrc] + x) == ([ldest] + y) + ([lsrc] + x);
    Rotate([ldest] + y, [lsrc] + x);
    assert ([lsrc] + x) + ([ldest] + y) == [lsrc] + (x + ([ldest] + y));
  }

  lemma ListNeighbours(l: Node, items: seq<Node>)
    requires IsList(l, items)
    ensures (l.next == l || l.next in items) && (l.prev == l || l.prev in items)
  {
    OneRingIff(l, items);
  }

  lemma RingNeighbours(a: Node, w: seq<Node>)
    requires IsRing([a] + w) && w != []
    ensures a.next in w && a.prev in w
  {
    OneRingIff(a, w);
  }

  // ---------- walking a list ----------

  /** The node at place `i` of the walk list->next, ...: an item, or the list itself at the end. */
  ghost function At(list: Node, items: seq<Node>, i: nat): Node {
    if i < |items| then items[i] else list
  }

  lemma Walk(list: Node, items: seq<Node>, i: nat)
    requires IsList(list, items)
    ensures list.next == At(list, items, 0)
    ensures i < |items| ==> items[i] != list && items[i].next == At(list, items, i + 1)
  {
    OneRingIff(list, items);
    ConsNoDup(list, items);
    if i + 1 < |items| {
      assert Linked(items[i], items[i + 1]);
    }
  }

  /** is_rlist_empty */
  method IsEmpty(list: Node, ghost items: seq<Node>) returns (r: bool)
    requires IsList(list, items)
    ensures r <==> items == []
  {
    Walk(list, items, 0);
    r := list == list.next;
  }

  const UINT_RANGE := 0x1_0000_0000

  /** rlist_len counts in an unsigned int. */
  method Len(list: Node, ghost items: seq<Node>) returns (count: nat)
    requires IsList(list, items)
    ensures count == |items| % UINT_RANGE
  {
    count := 0;
    Walk(list, items, 0);
    var p := list.next;
    ghost var i := 0;
    while p != list
      invariant 0 <= i <= |items| && p == At(list, items, i) && count == i % UINT_RANGE
      decreases |items| - i
    {
      Walk(list, items, i);
      p := p.next;
      count := (count + 1) % UINT_RANGE;
      i := i + 1;
    }
    if i < |items| { Walk(list, items, i); }
  }

  /** rlist_find: the first node with the key, else `fail`. */
  method Find(list: Node, key: int, fail: Node?, ghost items: seq<Node>) returns (r: Node?)
    requires IsList(list, items)
    ensures (forall i :: 0 <= i < |items| ==> items[i].key != key) ==> r == fail
    ensures (exists i :: 0 <= i < |items| && items[i].key == key) ==>
      exists i :: 0 <= i < |items| && r == items[i] && items[i].key == key
                  && forall j :: 0 <= j < i ==> items[j].key != key
  {
    Walk(list, items, 0);
    var p := list.next;
    ghost var i := 0;
    while p != list
      invariant 0 <= i <= |items| && p == At(list, items, i)
      invariant forall j :: 0 <= j < i ==> items[j].key != key
      decreases |items| - i
    {
      Walk(list, items, i);
      if p.key == key {
        return p;
      }
      p := p.next;
      i := i + 1;
    }
    if i < |items| { Walk(list, items, i); }
    r := fail;
  }

  ghost function Keys(items: seq<Node>): (k: seq<int>)
    reads items`key
    ensures |k| == |items| && forall i :: 0 <= i < |k| ==> k[i] == items[i].key
  {
    if items == [] then [] else [items[0].key] + Keys(items[1..])
  }

  /** rlist_equal compares the keys, in order. */
  method Equal(l1: Node, l2: Node, ghost x: seq<Node>, ghost y: seq<Node>) returns (r: bool)
    requires IsList(l1, x) && IsList(l2, y)
    ensures r <==> Keys(x) == Keys(y)
  {
    Walk(l1, x, 0);
    Walk(l2, y, 0);
    var i1, i2 := l1.next, l2.next;
    ghost var i := 0;
    while i1 != l1
      invariant 0 <= i <= |x| && i <= |y| && i1 == At(l1, x, i) && i2 == At(l2, y, i)
      invariant forall j :: 0 <= j < i ==> x[j].key == y[j].key
      decreases |x| - i
    {
      Walk(l1, x, i);
      Walk(l2, y, i);
      if i2 == l2 || i1.key != i2.key {
        if i < |y| { assert Keys(x)[i] != Keys(y)[i]; }
        return false;
      }
      i1, i2 := i1.next, i2.next;
      i := i + 1;
    }
    Walk(l1, x, i);
    Walk(l2, y, i);
    r := i2 == l2;
  }

  // ---------- rlist_reverse ----------

  twostate lemma SwappedRing(m: Seam)
    requires old(OneRing(m.a, m.x)) && NoDup([m.a] + m.x)
    requires m.a.next == old(m.a.prev) && m.a.prev == old(m.a.next)
    requires forall i :: 0 <= i < |m.x| ==> m.x[i].next == old(m.x[i].prev)
    requires forall i :: 0 <= i < |m.x| ==> m.x[i].prev == old(m.x[i].next)
    ensures IsList(m.a, Reversed(m.x))
  {
    var l, x := m.a, m.x;
    var y := Reversed(x);
    ConsNoDup(l, x);
    forall i, j | 0 <= i < j < |y| ensures y[i] != y[j] {
      assert x[|x| - 1 - i] != x[|x| - 1 - j];
    }
    forall i, j | 0 <= i < |y| && 0 <= j < |y| && j == i + 1 ensures Linked(y[i], y[j]) {
      assert old(Linked(x[|x| - 1 - j], x[|x| - 1 - i]));
    }
    assert l !in y;
    ConsNoDup(l, y);
    OneRingIff(l, y);
  }

  method SwapPointers(p: Node)
    modifies p`next, p`prev
    ensures p.next == old(p.prev) && p.prev == old(p.next)
  {
    var t := p.prev;
    p.prev := p.next;
    p.next := t;
  }

  /** rlist_reverse */
  method Reverse(l: Node, ghost items: seq<Node>)
    requires IsList(l, items)
    modifies l, items
    ensures IsList(l, Reversed(items))
  {
    OneRingIff(l, items);
    ConsNoDup(l, items);
    ghost var n := |items|;
    label before:
    SwapPointers(l);
    var p := l.next;
    ghost var k := n;
    while p != l
      invariant 0 <= k <= n && p == (if k > 0 then items[k - 1] else l)
      invariant l.next == old(l.prev) && l.prev == old(l.next)
      invariant forall i :: k <= i < n ==> items[i].next == old(items[i].prev) && items[i].prev == old(items[i].next)
      invariant forall i :: 0 <= i < k ==> items[i].next == old(items[i].next) && items[i].prev == old(items[i].prev)
      decreases k
    {
      assert k > 1 ==> old(Linked(items[k - 2], items[k - 1]));
      SwapPointers(p);
      p := p.next;
      k := k - 1;
    }
    SwappedRing@before(Seam(l, items, l, []));
  }

  // ---------- rlist_select ----------

  /** The items that answer `want` to `pred`, which sees the node and its key, in order. */
  ghost function Matching(items: seq<Node>, pred: (Node, int) -> bool, want: bool): (r: seq<Node>)
    reads items`key
    ensures forall p :: p in r ==> p in items
  {
    if items == [] then []
    else
      var rest := Matching(items[1..], pred, want);
      if pred(items[0], items[0].key) == want then [items[0]] + rest else rest
  }

  lemma MatchingStep(items: seq<Node>, pred: (Node, int) -> bool, kept: seq<Node>, dest: seq<Node>)
    requires items != []
    ensures var n, rest := items[0], items[1..];
      if pred(n, n.key) then
        kept + Matching(items, pred, false) == kept + Matching(rest, pred, false)
        && dest + Matching(items, pred, true) == (dest + [n]) + Matching(rest, pred, true)
      else
        kept + Matching(items, pred, false) == (kept + [n]) + Matching(rest, pred, false)
        && dest + Matching(items, pred, true) == dest + Matching(rest, pred, true)
  {
    var n, rest := items[0], items[1..];
    assert dest + ([n] + Matching(rest, pred, true)) == (dest + [n]) + Matching(rest, pred, true);
    assert kept + ([n] + Matching(rest, pred, false)) == (kept + [n]) + Matching(rest, pred, false);
  }

  /** Taking `n` out of [l, kept..., n, rest...]. */
  method Unlink(l: Node, n: Node, ghost kept: seq<Node>, ghost rest: seq<Node>)
    requires IsList(l, kept + [n] + rest)
    modifies n`next, n`prev, n.prev`next, n.next`prev
    ensures IsList(l, kept + rest) && IsRing([n])
  {
    assert [l] + (kept + [n] + rest) == ([l] + kept) + ([n] + rest);
    Rotate([l] + kept, [n] + rest);
    assert ([n] + rest) + ([l] + kept) == [n] + (rest + ([l] + kept));
    var r := Remove(n, rest + ([l] + kept));
    Rotate(rest, [l] + kept);
    assert ([l] + kept) + rest == [l] + (kept + rest);
  }

  lemma Neighbours(l: Node, n: Node, kept: seq<Node>, rest: seq<Node>)
    requires IsList(l, kept + [n] + rest)
    ensures n.prev == Last(l, kept) && n.next == First(rest, l)
  {
    assert [l] + (kept + [n] + rest) == [l] + kept + [n] + rest;
    TwoArcsIff(l, kept, n, rest);
  }

  /** Moving `n` from its place in one list to the end of another. */
  method MoveToBack(lsrc: Node, ldest: Node, n: Node, ghost kept: seq<Node>, ghost rest: seq<Node>,
                    ghost dest: seq<Node>,
                    ghost nodes: set<Node>)
    requires IsList(lsrc, kept + [n] + rest) && IsList(ldest, dest)
    requires Disjoint([lsrc] + (kept + [n] + rest), [ldest] + dest)
    requires forall p :: p in [lsrc] + (kept + [n] + rest) ==> p in nodes
    requires forall p :: p in [ldest] + dest ==> p in nodes
    modifies nodes`next, nodes`prev
    ensures IsList(lsrc, kept + rest) && IsList(ldest, dest + [n])
    ensures Disjoint([lsrc] + (kept + rest), [ldest] + (dest + [n]))
  {
    hide IsList, IsRing, Disjoint;
    Neighbours(lsrc, n, kept, rest);
    FromBack(ldest, dest);
    MoveDisjoint(lsrc, ldest, n, kept, rest, dest);
    assert n.prev in [lsrc] + (kept + [n] + rest) && n.next in [lsrc] + (kept + [n] + rest);
    assert ldest.prev in [ldest.prev] + BackArc(ldest, dest);
    ghost var back := ldest.prev;
    Unlink(lsrc, n, kept, rest);
    Singleton(n);
    assert ldest.prev == back && back in [ldest] + dest && ldest in [ldest] + dest;
    assert forall p :: p in [lsrc] + (kept + rest) ==> p != ldest && p != back && p != n;
    assert lsrc in [lsrc] + (kept + rest) && forall p :: p in kept + rest ==> p in [lsrc] + (kept + rest);
    assert [n] + [] == [n];
    PushBack(ldest, n, dest, []);
    assert dest + ([] + [n]) == dest + [n];
  }

  lemma Singleton(n: Node)
    requires IsRing([n])
    ensures n.next == n && n.prev == n
  {}

  lemma MoveDisjoint(lsrc: Node, ldest: Node, n: Node, kept: seq<Node>, rest: seq<Node>, dest: seq<Node>)
    requires IsList(lsrc, kept + [n] + rest) && Disjoint([lsrc] + (kept + [n] + rest), [ldest] + dest)
    ensures Disjoint([lsrc] + (kept + rest), [ldest] + (dest + [n]))
    ensures Disjoint([ldest] + dest, [n] + [])
    ensures n.prev !in [ldest] + dest && n !in [ldest] + dest && n.next !in [ldest] + dest
    ensures n !in [lsrc] + (kept + rest)
    ensures forall p :: p in [ldest] + dest ==> p !in [lsrc] + (kept + rest)
  {
    var all := [lsrc] + (kept + [n] + rest);
    assert all == ([lsrc] + kept) + ([n] + rest);
    NoDupIff([lsrc] + kept, [n] + rest);
    ConsNoDup(n, rest);
    assert n in [n] + rest;
    forall p | p in [lsrc] + (kept + rest) ensures p in all && p != n {}
    Neighbours(lsrc, n, kept, rest);
    assert n in all && n.prev in all && n.next in all;
  }

  /** rlist_select moves the matching items to the end of `ldest`: a stable partition. */
  method Select(lsrc: Node, ldest: Node, pred: (Node, int) -> bool, ghost s: seq<Node>, ghost d: seq<Node>)
    requires IsList(lsrc, s) && IsList(ldest, d) && Disjoint([lsrc] + s, [ldest] + d)
    modifies (set p | p in [lsrc] + s + [ldest] + d)`next, (set p | p in [lsrc] + s + [ldest] + d)`prev
    ensures IsList(lsrc, Matching(s, pred, false))
    ensures IsList(ldest, d + Matching(s, pred, true))
  {
    ghost var nodes := set p | p in [lsrc] + s + [ldest] + d;
    hide IsList, IsRing, Disjoint;
    ghost var kept, rest, dest := [], s, d;
    var i := lsrc;
    assert [] + s == s;
    while i.next != lsrc
      invariant IsList(lsrc, kept + rest) && IsList(ldest, dest) && Disjoint([lsrc] + (kept + rest), [ldest] + dest)
      invariant i == Last(lsrc, kept)
      invariant forall p :: p in [lsrc] + (kept + rest) ==> p in nodes
      invariant forall p :: p in [ldest] + dest ==> p in nodes
      invariant kept + Matching(rest, pred, false) == Matching(s, pred, false)
      invariant dest + Matching(rest, pred, true) == d + Matching(s, pred, true)
      decreases |rest|
    {
      NextUnscanned(lsrc, kept, rest);
      ghost var n, rest' := rest[0], rest[1..];
      MatchingStep(rest, pred, kept, dest);
      assert kept + rest == kept + [n] + rest';
      if pred(i.next, i.next.key) {
        MoveToBack(lsrc, ldest, i.next, kept, rest', dest, nodes);
        dest, rest := dest + [n], rest';
      } else {
        i := i.next;
        kept, rest := kept + [n], rest';
      }
    }
    NextUnscanned(lsrc, kept, rest);
    assert dest + [] == dest && kept + [] == kept;
  }

  lemma NextUnscanned(l: Node, kept: seq<Node>, rest: seq<Node>)
    requires IsList(l, kept + rest)
    ensures Last(l, kept).next == First(rest, l) && (rest != [] ==> rest[0] != l)
  {
    ConsNoDup(l, kept + rest);
    Walk(l, kept + rest, if kept == [] then 0 else |kept| - 1);
  }
}
