/** kernel_cc.c as code: the waitset as a ring of nodes on the heap with no sentinel, and the loops of
    cv_signal and Cond_Broadcast. */
module CondVarCode {
  import opened Sequences
  import opened Rings
  import C = CondVars

  ghost function Cut<T>(r: seq<T>, k: nat): seq<T>
    requires k < |r|
  {
    r[..k] + r[k + 1..]
  }

  /** The threads of a sequence of waiters' nodes. */
  ghost function Threads(r: seq<Node>, thread: map<Node, C.Tid>): (ts: seq<C.Tid>)
    ensures |ts| == |r| && forall i :: 0 <= i < |r| ==> ts[i] == ThreadOf(r[i], thread)
  {
    seq(|r|, i requires 0 <= i < |r| => ThreadOf(r[i], thread))
  }

  function ThreadOf(n: Node, thread: map<Node, C.Tid>): C.Tid {
    if n in thread then thread[n] else 0
  }

  /** `thread` is the `obj->thread` of a waiter's node, `waiters` the flags of the waiting threads. */
  class CondVar {
    var waitset: Node?
    var thread: map<Node, C.Tid>
    var waiters: map<C.Tid, C.Waiter>
    var tickets: nat  // history
    ghost var ring: seq<Node>
    ghost var nodes: set<Node>  // all nodes that may be on the ring
    ghost var chosen: seq<nat>
    ghost var returned: seq<(nat, bool)>

    ghost predicate RingOk()
      reads this, nodes
    {
      && (forall i :: 0 <= i < |ring| ==> ring[i] in nodes && ring[i] in thread)
      && (ring == [] <==> waitset == null)
      && (ring != [] ==> IsRing(ring) && ring[0] == waitset)
    }

    ghost function View(): C.Cv
      reads this
    {
      C.Cv(Threads(ring, thread), waiters, tickets, chosen, returned)
    }

    ghost predicate Valid()
      reads this, nodes
    {
      RingOk() && C.Inv(View())
    }

    constructor ()
      ensures Valid() && View() == C.COND_INIT && ring == []
    {
      waitset := null;
      thread, waiters := map[], map[];
      tickets := 0;
      ring, nodes, chosen, returned := [], {}, [], [];
      new;
      C.InitInv();
    }

    method RemoveFromRing(w: Node) returns (ghost k: nat)
      requires RingOk() && w in ring
      modifies this`waitset, this`ring, nodes`next, nodes`prev
      ensures RingOk() && IsRing([w])
      ensures k < |old(ring)| && old(ring)[k] == w && ring == Cut(old(ring), k)
    {
      k :| 0 <= k < |ring| && ring[k] == w;
      ghost var rest, cut := ring[k + 1..] + ring[..k], Cut(ring, k);
      AsHead(ring, k);
      CutPlaces(ring, k, nodes, thread.Keys);
      hide IsRing, Cut;
      if waitset == w {
        var nextw := w.next;
        waitset := if nextw == w then null else nextw;
      }
      var r := Remove(w, rest);
      if rest != [] {
        Rotate(ring[k + 1..], ring[..k]);
      }
      ring := cut;
    }

    /** Taking the first waiter off the ring. */
    method TakeHead() returns (t: C.Tid)
      requires RingOk() && waitset != null
      modifies this`waitset, this`ring, nodes`next, nodes`prev
      ensures RingOk() && [t] + View().ring == old(View().ring) && |old(ring)| == |ring| + 1
    {
      var waiter := waitset;
      t := thread[waiter];
      HeadOnce(ring);
      hide IsRing;
      var k := RemoveFromRing(waiter);
    }

    /** Taking the waiter of `node` off the ring. */
    method TakeOff(node: Node)
      requires RingOk() && node in ring && NoDup(View().ring)
      modifies this`waitset, this`ring, nodes`next, nodes`prev
      ensures RingOk() && View().ring == Without(old(View().ring), ThreadOf(node, thread))
    {
      hide IsRing;
      ThreadsNoDup(ring, thread);
      var k := RemoveFromRing(node);
      ThreadsCut(old(ring), thread, k);
    }

    /** Linking a waiter's node at the back of the ring. */
    method Link(node: Node)
      requires RingOk() && IsRing([node]) && node !in ring && node in thread && node in nodes
      modifies this`waitset, this`ring, nodes`next, nodes`prev
      ensures RingOk() && ring == old(ring) + [node]
    {
      if waitset != null {
        BackOfRing(ring);
        Singleton(node);
        assert [node] == [node] + [];
        hide IsRing;
        PushBack(waitset, node, ring[1..], []);
        assert [waitset] + (ring[1..] + ([] + [node])) == ring + [node];
      } else {
        waitset := node;
      }
      ring := ring + [node];
    }

    /** The first half of cv_wait. */
    method Enqueue(node: Node, t: C.Tid)
      requires Valid() && IsRing([node]) && node !in ring && t !in waiters
      modifies this, nodes`next, nodes`prev, node`next, node`prev
      ensures Valid() && View() == C.Enqueue(old(View()), t) && nodes == old(nodes) + {node}
    {
      hide IsRing, C.Inv;
      ghost var cv := View();
      InvWf(cv);
      C.EnqueueInv(cv, t);
      thread, nodes := thread[node := t], nodes + {node};
      waiters := waiters[t := C.Waiter(true, false, false, tickets)];
      tickets := tickets + 1;
      Link(node);
      assert View() == C.Enqueue(cv, t);
    }

    /** One turn of cv_signal's loop: take the first waiter off and try to wake it. */
    method SignalHead() returns (woken: bool)
      requires RingOk() && waitset != null && C.Wf(View())
      modifies this, nodes`next, nodes`prev
      ensures RingOk() && nodes == old(nodes) && thread == old(thread) && |ring| < |old(ring)|
      ensures woken <==> old(View().waiters[View().ring[0]].asleep)
      ensures View() == if woken then C.Choose(old(View())) else C.Drop(old(View()))
    {
      hide IsRing, Threads;
      ghost var cv := View();
      assert cv.ring[0] in cv.ring;
      var t := TakeHead();
      assert t == cv.ring[0] && View().ring == cv.ring[1..];
      hide C.Wf, RingOk;
      waiters := waiters[t := waiters[t].(removed := true)];
      woken := waiters[t].asleep;
      if woken {
        waiters := waiters[t := waiters[t].(asleep := false, signalled := true)];
        chosen := chosen + [waiters[t].ticket];
      }
    }

    method CvSignal()
      requires Valid()
      modifies this, nodes`next, nodes`prev
      ensures Valid() && nodes == old(nodes) && View() == (InvWf(old(View())); C.Signal(old(View())))
    {
      hide IsRing, C.Inv, C.Wf, Threads, C.Choose, C.Drop;
      ghost var start := View();
      InvWf(start);
      while waitset != null
        invariant Valid() && C.Wf(View()) && C.Signal(View()) == C.Signal(start)
        invariant nodes == old(nodes)
        decreases |ring|
      {
        ghost var cv := View();
        InvWf(cv);
        C.SignalInv(cv);
        if !waiters[cv.ring[0]].asleep { C.DropInv(cv); }
        var woken := SignalHead();
        if woken {
          return;
        }
      }
    }

    method CondBroadcast()
      requires Valid()
      modifies this, nodes`next, nodes`prev
      ensures Valid() && nodes == old(nodes) && View() == (InvWf(old(View())); C.Broadcast(old(View())))
    {
      hide IsRing, C.Inv;
      ghost var start := View();
      InvWf(start);
      while waitset != null
        invariant Valid() && C.Wf(View()) && C.Broadcast(View()) == C.Broadcast(start)
        invariant nodes == old(nodes)
        decreases |ring|
      {
        C.SignalShrinks(View());
        CvSignal();
      }
    }

    /** The second half of cv_wait, on the fields; the assert of the source is its precondition. */
    method TidyUp(node: Node) returns (signalled: bool)
      requires RingOk() && NoDup(View().ring) && node in thread && thread[node] in waiters
      requires var w := waiters[thread[node]]; !w.removed ==> node in ring && !w.signalled
      modifies this`waitset, this`ring, this`waiters, this`returned, nodes`next, nodes`prev
      ensures RingOk()
      ensures var cv, t := old(View()), thread[node];
        && var w := cv.waiters[t];
        && signalled == w.signalled
        && View() == cv.(ring := if w.removed then cv.ring else Without(cv.ring, t),
                         waiters := cv.waiters - {t}, returned := cv.returned + [(w.ticket, w.signalled)])
    {
      var t := thread[node];
      var w := waiters[t];
      if !w.removed {
        assert !w.signalled;
        TakeOff(node);
      }
      hide IsRing, Threads, Without, NoDup;
      waiters := waiters - {t};
      returned := returned + [(w.ticket, w.signalled)];
      signalled := w.signalled;
    }

    /** The second half of cv_wait. */
    method Return(node: Node) returns (signalled: bool)
      requires Valid() && node in thread && thread[node] in waiters && !waiters[thread[node]].asleep
      requires !waiters[thread[node]].removed ==> node in ring
      modifies this, nodes`next, nodes`prev
      ensures Valid() && nodes == old(nodes) && signalled == old(waiters[thread[node]].signalled)
      ensures View() == C.Apply(old(View()), C.ReturnEvent(old(thread[node])))
    {
      hide IsRing, C.Inv, C.Wf, Threads, Without, NoDup;
      ghost var cv, t := View(), thread[node];
      C.StepInv(cv, C.ReturnEvent(t));
      ReturnFacts(cv, t);
      signalled := TidyUp(node);
      assert View() == C.Apply(cv, C.ReturnEvent(t));
    }
  }

  /** What the second half of cv_wait relies on, the assert included. */
  lemma ReturnFacts(cv: C.Cv, t: C.Tid)
    requires C.Inv(cv) && t in cv.waiters
    ensures C.Wf(cv) && NoDup(cv.ring) && (!cv.waiters[t].removed ==> !cv.waiters[t].signalled)
  {
    assert C.WaiterOk(cv.waiters[t], t in cv.ring, cv.tickets, cv.chosen);
  }

  lemma BackOfRing(r: seq<Node>)
    requires IsRing(r)
    ensures r == [r[0]] + r[1..] && r[0].prev == r[|r| - 1]
  {}

  /** A ring seen from its `k`-th node. */
  lemma AsHead(r: seq<Node>, k: nat)
    requires IsRing(r) && k < |r|
    ensures var w, rest := r[k], r[k + 1..] + r[..k];
      && IsRing([w] + rest) && w.next == First(rest, w) && w.prev == Last(w, rest)
    ensures r[k] == r[0] ==> k == 0
    ensures |r| > 1 ==> r[k].next != r[k]
  {
    var w, rest := r[k], r[k + 1..] + r[..k];
    assert r == r[..k] + ([w] + r[k + 1..]);
    Rotate(r[..k], [w] + r[k + 1..]);
    assert ([w] + r[k + 1..]) + r[..k] == [w] + rest;
    OneRingIff(w, rest);
  }

  lemma CutPlaces(r: seq<Node>, k: nat, nodes: set<Node>, known: set<Node>)
    requires k < |r| && forall i :: 0 <= i < |r| ==> r[i] in nodes && r[i] in known
    ensures var w, rest, cut := r[k], r[k + 1..] + r[..k], Cut(r, k);
      && First(rest, w) in nodes && Last(w, rest) in nodes
      && (forall i :: 0 <= i < |cut| ==> cut[i] in nodes && cut[i] in known)
      && (rest == [] <==> cut == []) && cut == r[..k] + r[k + 1..]
      && (cut != [] ==> cut[0] == if k == 0 then First(rest, w) else r[0])
  {}

  lemma InvWf(cv: C.Cv)
    requires C.Inv(cv)
    ensures C.Wf(cv) && forall i :: 0 <= i < |cv.ring| ==> cv.ring[i] in cv.waiters
  {}

  /** Only the head of a ring is its head. */
  lemma HeadOnce(r: seq<Node>)
    requires IsRing(r)
    ensures forall k: nat :: k < |r| && r[k] == r[0] ==> k == 0
  {}

  lemma ThreadsNoDup(r: seq<Node>, thread: map<Node, C.Tid>)
    requires NoDup(Threads(r, thread))
    ensures forall i, j :: 0 <= i < j < |r| ==> ThreadOf(r[i], thread) != ThreadOf(r[j], thread)
  {
    var ts := Threads(r, thread);
    assert forall i, j :: 0 <= i < j < |ts| ==> ts[i] != ts[j];
  }

  lemma ThreadsCut(r: seq<Node>, thread: map<Node, C.Tid>, k: nat)
    requires k < |r|
    requires forall i, j :: 0 <= i < j < |r| ==> ThreadOf(r[i], thread) != ThreadOf(r[j], thread)
    ensures Threads(Cut(r, k), thread) == Without(Threads(r, thread), ThreadOf(r[k], thread))
  {
    var ts := Threads(r, thread);
    assert ts == ts[..k] + ([ts[k]] + ts[k + 1..]);
    WithoutOnce(ts[..k], ts[k], ts[k + 1..]);
    assert Threads(Cut(r, k), thread) == Cut(ts, k);
  }

  lemma WithoutOnce(pre: seq<C.Tid>, w: C.Tid, post: seq<C.Tid>)
    requires w !in pre && w !in post
    ensures Without(pre + ([w] + post), w) == pre + post
  {
    WithoutConcat(pre, [w] + post, w);
    WithoutAbsent(pre, w);
    WithoutConcat([w], post, w);
    WithoutAbsent(post, w);
  }
}
