/** Facts about sequences shared by the kernel models. */
module Sequences {

  datatype Option<+T> = None | Some(value: T)

  lemma SelfUpdate<K, V>(m: map<K, V>, k: K)
    requires k in m
    ensures m[k := m[k]] == m
  {}

  ghost predicate NoDup<T>(q: seq<T>) {
    forall i, j :: 0 <= i < j < |q| ==> q[i] != q[j]
  }

  ghost function Elems<T>(q: seq<T>): set<T> {
    set x | x in q
  }

  /** The queue without `x`: what `rlist_remove` leaves of a list that holds `x` once. */
  function Without<T(==,!new)>(q: seq<T>, x: T): (r: seq<T>)
    ensures |r| <= |q|
    ensures x in q ==> |r| < |q|
    ensures forall y :: y in r <==> y in q && y != x
  {
    if q == [] then []
    else
      assert q == [q[0]] + q[1..];
      if q[0] == x then Without(q[1..], x) else [q[0]] + Without(q[1..], x)
  }

  lemma {:induction false} WithoutNoDup<T(!new)>(q: seq<T>, x: T)
    requires NoDup(q)
    ensures NoDup(Without(q, x))
  {
    if q != [] {
      WithoutNoDup(q[1..], x);
      assert q[0] !in q[1..];
    }
  }

  /** Removing an absent element changes nothing. */
  lemma {:induction false} WithoutAbsent<T(!new)>(q: seq<T>, x: T)
    requires x !in q
    ensures Without(q, x) == q
  {
    if q != [] {
      assert q == [q[0]] + q[1..];
      WithoutAbsent(q[1..], x);
    }
  }

  lemma {:induction false} WithoutConcat<T(!new)>(p: seq<T>, q: seq<T>, x: T)
    ensures Without(p + q, x) == Without(p, x) + Without(q, x)
  {
    if p == [] {
      assert p + q == q;
    } else {
      assert (p + q)[1..] == p[1..] + q;
      WithoutConcat(p[1..], q, x);
    }
  }

  lemma NoDupSnoc<T>(q: seq<T>, x: T)
    requires NoDup(q) && x !in q
    ensures NoDup(q + [x])
  {}

  lemma NoDupConcat<T>(p: seq<T>, q: seq<T>)
    requires NoDup(p) && NoDup(q)
    requires forall x :: x in p ==> x !in q
    ensures NoDup(p + q)
  {
    forall i, j | 0 <= i < j < |p + q| ensures (p + q)[i] != (p + q)[j] {
      if i < |p| <= j {
        assert p[i] in p && q[j - |p|] in q;
      }
    }
  }

  lemma ConsNoDup<T>(x: T, q: seq<T>)
    ensures NoDup([x] + q) <==> x !in q && NoDup(q)
  {
    var r := [x] + q;
    if x !in q && NoDup(q) { NoDupConcat([x], q); }
    assert NoDup(r) ==> forall i :: 0 <= i < |q| ==> q[i] == r[i + 1] && r[0] != r[i + 1];
  }

  function Reversed<T>(q: seq<T>): (r: seq<T>)
    ensures |r| == |q| && forall i :: 0 <= i < |r| ==> r[i] == q[|q| - 1 - i]
  {
    if q == [] then [] else [q[|q| - 1]] + Reversed(q[..|q| - 1])
  }

  lemma ReversedOk<T>(q: seq<T>)
    ensures forall x :: x in Reversed(q) <==> x in q
    ensures NoDup(q) ==> NoDup(Reversed(q))
  {
    var r := Reversed(q);
    assert forall i :: 0 <= i < |q| ==> q[i] == r[|q| - 1 - i];
  }

  /** The naturals below `n`. */
  ghost function UpTo(n: nat): (r: set<nat>)
    ensures |r| == n && forall k: nat :: k in r <==> k < n
  {
    if n == 0 then {} else UpTo(n - 1) + {n - 1}
  }

  function Min(a: nat, b: nat): nat { if a < b then a else b }

  /** `x` spliced in before position `i`. */
  function Insert<T>(q: seq<T>, i: nat, x: T): (r: seq<T>)
    requires i <= |q|
    ensures |r| == |q| + 1 && r[i] == x
    ensures forall j :: 0 <= j < i ==> r[j] == q[j]
    ensures forall j :: i < j < |r| ==> r[j] == q[j - 1]
  {
    q[..i] + [x] + q[i..]
  }

  lemma InsertNoDup<T>(q: seq<T>, i: nat, x: T)
    requires i <= |q| && x !in q && NoDup(q)
    ensures NoDup(Insert(q, i, x))
  {
    var r := Insert(q, i, x);
    forall a, b | 0 <= a < b < |r| ensures r[a] != r[b] {
      if b == i {
        assert r[a] == q[a];
      } else if a == i {
        assert r[b] == q[b - 1];
      } else {
        assert q[if a < i then a else a - 1] != q[if b < i then b else b - 1];
      }
    }
  }

  lemma InsertElems<T>(q: seq<T>, i: nat, x: T)
    requires i <= |q|
    ensures Elems(Insert(q, i, x)) == Elems(q) + {x}
  {
    assert q == q[..i] + q[i..];
    assert Elems(q) == Elems(q[..i]) + Elems(q[i..]);
  }

  lemma InsertRemoves<T>(q: seq<T>, i: nat, x: T)
    requires i <= |q|
    ensures Insert(q, i, x)[..i] + Insert(q, i, x)[i + 1..] == q
  {
    assert Insert(q, i, x)[..i] == q[..i] && Insert(q, i, x)[i + 1..] == q[i..];
  }
}
