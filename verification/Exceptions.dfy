/** The exception unwinder of util.c and util.h.  A handler that raises jumps back to the TRY block on top
    of the stack, so unwinding starts over on what is left of the same frame. */
module Exceptions {
  import opened Sequences

  /** A catcher or finalizer; `raises(e)` is whether it raises when it is given error code `e`. */
  datatype Handler = Handler(id: nat, raises: int -> bool)

  /** A TRY block on the exception stack, with its handlers, last registered first. */
  datatype Frame = Frame(catchers: seq<Handler>, finalizers: seq<Handler>)

  datatype Kind = Catcher | Finalizer

  /** A handler that ran, with the error code it was given. */
  datatype Call = Call(kind: Kind, id: nat, errcode: int)

  /** Where unwinding ends: after the TRY block whose frame was popped last, with the frames below it
      still there; `escaped` when an exception found no frame, and raise_exception just returned. */
  datatype Outcome = Outcome(stack: seq<Frame>, log: seq<Call>, escaped: bool)

  // ---------- the code, step by step ----------

  ghost function Size(stack: seq<Frame>): nat {
    if stack == [] then 0 else 1 + |stack[0].catchers| + |stack[0].finalizers| + Size(stack[1..])
  }

  /** exception_unwind with the jumps of raise_exception: `captured` is its local variable. */
  ghost function Unwind(stack: seq<Frame>, errcode: int, captured: bool, log: seq<Call>): Outcome
    requires stack != []
    decreases Size(stack)
  {
    var f, rest := stack[0], stack[1..];
    if f.catchers != [] then
      var c, left := f.catchers[0], [Frame(f.catchers[1..], f.finalizers)] + rest;
      assert left[1..] == rest;
      var l := log + [Call(Catcher, c.id, errcode)];
      if c.raises(errcode) then Unwind(left, 1, false, l) else Unwind(left, errcode, true, l)
    else if f.finalizers != [] then
      var c, left := f.finalizers[0], [Frame([], f.finalizers[1..])] + rest;
      assert left[1..] == rest;
      var l := log + [Call(Finalizer, c.id, errcode)];
      if c.raises(errcode) then Unwind(left, 1, false, l) else Unwind(left, errcode, captured, l)
    else if errcode != 0 && !captured then
      if rest == [] then Outcome([], log, true) else Unwind(rest, 1, false, log)
    else Outcome(rest, log, false)
  }

  /** raise_exception, from the body of the TRY block on top. */
  ghost function Raise(stack: seq<Frame>): Outcome {
    if stack == [] then Outcome([], [], true) else Unwind(stack, 1, false, [])
  }

  /** __exc_exit_try, when the body of the TRY block on top ends. */
  ghost function ExitTry(stack: seq<Frame>): Outcome
    requires stack != []
  {
    Unwind([Frame([], stack[0].finalizers)] + stack[1..], 0, false, [])
  }

  // ---------- what it should do ----------

  function CatcherCalls(hs: seq<Handler>): (r: seq<Call>)
    ensures |r| == |hs|
  {
    seq(|hs|, i requires 0 <= i < |hs| => Call(Catcher, hs[i].id, 1))
  }

  /** The finalizers get the error code of the unwinding, and 1 once one of them has raised. */
  function FinalizerCalls(hs: seq<Handler>, errcode: int): (r: seq<Call>)
    ensures |r| == |hs|
  {
    if hs == [] then []
    else [Call(Finalizer, hs[0].id, errcode)]
         + FinalizerCalls(hs[1..], if hs[0].raises(errcode) then 1 else errcode)
  }

  predicate SomeRaises(hs: seq<Handler>, errcode: int) {
    exists i :: 0 <= i < |hs| && hs[i].raises(errcode)
  }

  /** Frame `f` stops a raised exception. */
  predicate Stops(f: Frame) {
    f.catchers != [] && !f.catchers[|f.catchers| - 1].raises(1) && !SomeRaises(f.finalizers, 1)
  }

  /** Everything one frame runs for a raised exception. */
  function FrameCalls(f: Frame): seq<Call> {
    CatcherCalls(f.catchers) + FinalizerCalls(f.finalizers, 1)
  }

  function Raised(stack: seq<Frame>): Outcome {
    if stack == [] then Outcome([], [], true)
    else if Stops(stack[0]) then Outcome(stack[1..], FrameCalls(stack[0]), false)
    else
      var r := Raised(stack[1..]);
      Outcome(r.stack, FrameCalls(stack[0]) + r.log, r.escaped)
  }

  // ---------- the code does it ----------

  /** Finalizers, then the end of the frame. */
  lemma {:induction false} UnwindFinalizers(fs: seq<Handler>, rest: seq<Frame>, errcode: int, captured: bool,
                                             log: seq<Call>)
    ensures var quiet := !SomeRaises(fs, errcode) && (errcode == 0 || captured);
      var l := log + FinalizerCalls(fs, errcode);
      Unwind([Frame([], fs)] + rest, errcode, captured, log) ==
        if quiet then Outcome(rest, l, false)
        else if rest == [] then Outcome([], l, true)
        else Unwind(rest, 1, false, l)
    decreases |fs|
  {
    var stack := [Frame([], fs)] + rest;
    assert stack[0] == Frame([], fs) && stack[1..] == rest;
    if fs == [] {
      assert log + [] == log;
    } else {
      var h, tail := fs[0], fs[1..];
      var l := log + [Call(Finalizer, h.id, errcode)];
      var e := if h.raises(errcode) then 1 else errcode;
      SomeRaisesCons(fs, errcode);
      UnwindFinalizers(tail, rest, e, if h.raises(errcode) then false else captured, l);
      assert l + FinalizerCalls(tail, e) == log + FinalizerCalls(fs, errcode);
    }
  }

  lemma SomeRaisesCons(hs: seq<Handler>, errcode: int)
    requires hs != []
    ensures SomeRaises(hs, errcode) <==> hs[0].raises(errcode) || SomeRaises(hs[1..], errcode)
  {
    if i :| 1 <= i < |hs| && hs[i].raises(errcode) {
      assert hs[1..][i - 1].raises(errcode);
    }
  }

  /** Where unwinding goes after the last handler of a frame. */
  ghost function Onwards(rest: seq<Frame>, stops: bool, log: seq<Call>): Outcome {
    if stops then Outcome(rest, log, false)
    else if rest == [] then Outcome([], log, true)
    else Unwind(rest, 1, false, log)
  }

  /** `captured` is whether a catcher has returned since the last raise. */
  ghost predicate Caught(f: Frame, captured: bool) {
    && (if f.catchers == [] then captured else !f.catchers[|f.catchers| - 1].raises(1))
    && !SomeRaises(f.finalizers, 1)
  }

  /** A frame without catchers goes on to its finalizers. */
  lemma UnwindBare(f: Frame, rest: seq<Frame>, captured: bool, log: seq<Call>)
    requires f.catchers == []
    ensures Unwind([f] + rest, 1, captured, log) == Onwards(rest, Caught(f, captured), log + FrameCalls(f))
  {
    assert f == Frame([], f.finalizers);
    UnwindFinalizers(f.finalizers, rest, 1, captured, log);
    hide Unwind;
    assert CatcherCalls([]) + FinalizerCalls(f.finalizers, 1) == FinalizerCalls(f.finalizers, 1);
  }

  /** The first catcher of a frame runs; whether it raises only matters to `captured`. */
  lemma UnwindCatcher(f: Frame, rest: seq<Frame>, captured: bool, log: seq<Call>)
    requires f.catchers != []
    ensures var c, g := f.catchers[0], Frame(f.catchers[1..], f.finalizers);
      Unwind([f] + rest, 1, captured, log) == Unwind([g] + rest, 1, !c.raises(1), log + [Call(Catcher, c.id, 1)])
  {
    var stack := [f] + rest;
    assert stack[0] == f && stack[1..] == rest;
  }

  /** Catchers, then finalizers. */
  lemma {:induction false} UnwindFrame(f: Frame, rest: seq<Frame>, captured: bool, log: seq<Call>)
    ensures Unwind([f] + rest, 1, captured, log) == Onwards(rest, Caught(f, captured), log + FrameCalls(f))
    decreases |f.catchers|
  {
    hide Unwind, SomeRaises, FinalizerCalls;
    if f.catchers == [] {
      UnwindBare(f, rest, captured, log);
    } else {
      var c, tail := f.catchers[0], f.catchers[1..];
      var g := Frame(tail, f.finalizers);
      var l := log + [Call(Catcher, c.id, 1)];
      UnwindCatcher(f, rest, captured, log);
      UnwindFrame(g, rest, !c.raises(1), l);
      assert CatcherCalls(f.catchers) == [Call(Catcher, c.id, 1)] + CatcherCalls(tail);
      assert l + FrameCalls(g) == log + FrameCalls(f);
    }
  }

  /** Whatever the handlers raise: every frame unwound runs each of its catchers and then each of its
      finalizers exactly once, last registered first, and the exception stops at the first frame with a
      catcher whose last-run catcher does not raise and none of whose finalizers does. */
  lemma {:induction false} UnwindIsRaised(stack: seq<Frame>, log: seq<Call>)
    requires stack != []
    ensures var r := Raised(stack);
      Unwind(stack, 1, false, log) == Outcome(r.stack, log + r.log, r.escaped)
    decreases |stack|
  {
    var f, rest := stack[0], stack[1..];
    assert stack == [f] + rest;
    UnwindFrame(f, rest, false, log);
    if !Stops(f) {
      if rest == [] {
        assert FrameCalls(f) + [] == FrameCalls(f);
      } else {
        UnwindIsRaised(rest, log + FrameCalls(f));
        assert (log + FrameCalls(f)) + Raised(rest).log == log + (FrameCalls(f) + Raised(rest).log);
      }
    }
  }

  lemma RaiseIsRaised(stack: seq<Frame>)
    ensures Raise(stack) == Raised(stack)
  {
    if stack != [] { UnwindIsRaised(stack, []); }
    assert [] + Raised(stack).log == Raised(stack).log;
  }

  /** A TRY block that ends normally runs no catcher and each finalizer once, and goes on below iff no
      finalizer raises; otherwise the exception goes to the next frame. */
  lemma ExitRunsFinalizers(stack: seq<Frame>)
    requires stack != []
    ensures var fs, rest := stack[0].finalizers, stack[1..];
      ExitTry(stack) ==
        if !SomeRaises(fs, 0) then Outcome(rest, FinalizerCalls(fs, 0), false)
        else
          var r := Raised(rest);
          Outcome(r.stack, FinalizerCalls(fs, 0) + r.log, r.escaped)
  {
    var fs, rest := stack[0].finalizers, stack[1..];
    UnwindFinalizers(fs, rest, 0, false, []);
    assert [] + FinalizerCalls(fs, 0) == FinalizerCalls(fs, 0);
    if SomeRaises(fs, 0) {
      if rest == [] {
        assert FinalizerCalls(fs, 0) + [] == FinalizerCalls(fs, 0);
      } else {
        UnwindIsRaised(rest, FinalizerCalls(fs, 0));
      }
    }
  }

  // ---------- once each, last registered first ----------

  /** ON_ERROR and FINALLY put a handler in front of the others of its frame. */
  function Register(hs: seq<Handler>, registered: seq<Handler>): seq<Handler>
    decreases |registered|
  {
    if registered == [] then hs else Register([registered[0]] + hs, registered[1..])
  }

  lemma {:induction false} RegisterReverses(hs: seq<Handler>, registered: seq<Handler>)
    ensures Register(hs, registered) == Reversed(registered) + hs
    decreases |registered|
  {
    if registered == [] {
      assert Reversed([]) + hs == hs;
    } else {
      var x, tail := registered[0], registered[1..];
      RegisterReverses([x] + hs, tail);
      assert Reversed(tail) + ([x] + hs) == Reversed(registered) + hs;
    }
  }

  /** Registering one more handler puts it first. */
  lemma RegisterSnoc(hs: seq<Handler>, registered: seq<Handler>, h: Handler)
    ensures Register(hs, registered + [h]) == [h] + Register(hs, registered)
  {
    RegisterReverses(hs, registered);
    RegisterReverses(hs, registered + [h]);
    assert Reversed(registered + [h]) == [h] + Reversed(registered);
  }

  /** Frame `f` is what registering `cs` and `fs`, in that order each, makes of an empty one. */
  ghost predicate Built(f: Frame, cs: seq<Handler>, fs: seq<Handler>) {
    f == Frame(Register([], cs), Register([], fs))
  }

  lemma {:induction false} FinalizerCallAt(fs: seq<Handler>, errcode: int, i: nat)
    requires i < |fs|
    ensures FinalizerCalls(fs, errcode)[i].kind == Finalizer && FinalizerCalls(fs, errcode)[i].id == fs[i].id
    decreases |fs|
  {
    if i > 0 {
      FinalizerCallAt(fs[1..], if fs[0].raises(errcode) then 1 else errcode, i - 1);
    }
  }

  /** The calls of a frame, in the order its handlers were registered: all catchers, the last registered
      first, and after them all finalizers, the last registered first. */
  lemma LastRegisteredFirst(f: Frame, cs: seq<Handler>, fs: seq<Handler>, i: nat)
    requires Built(f, cs, fs) && i < |cs| + |fs|
    ensures var log := FrameCalls(f);
      && |log| == |cs| + |fs|
      && (i < |cs| ==> log[i].kind == Catcher && log[i].id == cs[|cs| - 1 - i].id)
      && (i >= |cs| ==> log[i].kind == Finalizer && log[i].id == fs[|fs| - 1 - (i - |cs|)].id)
  {
    RegisterReverses([], cs);
    RegisterReverses([], fs);
    assert Reversed(cs) + [] == Reversed(cs) && Reversed(fs) + [] == Reversed(fs);
    if i >= |cs| { FinalizerCallAt(Reversed(fs), 1, i - |cs|); }
  }

  // ---------- the code ----------

  lemma SizeDrops(f: Frame, rest: seq<Frame>)
    ensures Size([f] + rest) == 1 + |f.catchers| + |f.finalizers| + Size(rest)
  {
    assert ([f] + rest)[1..] == rest;
  }

  /** An exception context: the stack of frames whose lists are popped in place. */
  class Context {
    var stack: seq<Frame>
    var log: seq<Call>
    var escaped: bool

    constructor ()
      ensures stack == [] && log == [] && !escaped
    {
      stack, log, escaped := [], [], false;
    }

    /** __exc_push_frame, with the frame TRY_WITH makes: nothing is registered yet. */
    method PushFrame()
      modifies this`stack
      ensures stack == [Frame([], [])] + old(stack) && Built(stack[0], [], [])
    {
      stack := [Frame([], [])] + stack;
    }

    /** ON_ERROR, after the catchers `cs` and the finalizers `fs` have been registered. */
    method OnError(h: Handler, ghost cs: seq<Handler>, ghost fs: seq<Handler>)
      requires stack != [] && Built(stack[0], cs, fs)
      modifies this`stack
      ensures stack != [] && stack[1..] == old(stack[1..]) && Built(stack[0], cs + [h], fs)
    {
      RegisterSnoc([], cs, h);
      stack := stack[0 := stack[0].(catchers := [h] + stack[0].catchers)];
    }

    /** FINALLY, after the catchers `cs` and the finalizers `fs` have been registered. */
    method Finally(h: Handler, ghost cs: seq<Handler>, ghost fs: seq<Handler>)
      requires stack != [] && Built(stack[0], cs, fs)
      modifies this`stack
      ensures stack != [] && stack[1..] == old(stack[1..]) && Built(stack[0], cs, fs + [h])
    {
      RegisterSnoc([], fs, h);
      stack := stack[0 := stack[0].(finalizers := [h] + stack[0].finalizers)];
    }

    /** exception_unwind; a handler that raises jumps back to its start, with error code 1, and so does
        the raise at its end, for the frame then on top. */
    method UnwindFrames(e: int)
      requires stack != []
      modifies this
      ensures Outcome(stack, log, escaped) == Unwind(old(stack), e, false, old(log))
    {
      ghost var target := Unwind(stack, e, false, log);
      var errcode, again := e, true;
      escaped := false;
      while again
        invariant again ==> stack != [] && !escaped && Unwind(stack, errcode, false, log) == target
        invariant !again ==> Outcome(stack, log, escaped) == target
        decreases Size(stack), again
      {
        again := false;
        ghost var size := Size(stack);
        var captured, raised := RunCatchers(errcode);
        if !raised { raised := RunFinalizers(errcode, captured); }
        if raised {
          errcode, again := 1, true;
        } else {
          assert stack == [stack[0]] + stack[1..];
          stack := stack[1..];
          if errcode != 0 && !captured {
            if stack != [] { errcode, again := 1, true; } else { escaped := true; }
          }
        }
      }
    }

    /** The first loop of exception_unwind, up to a raise. */
    method RunCatchers(errcode: int) returns (captured: bool, raised: bool)
      requires stack != []
      modifies this`stack, this`log
      ensures stack != [] && (raised ==> Size(stack) < Size(old(stack))) && Size(stack) <= Size(old(stack))
      ensures !raised ==> stack[0].catchers == []
      ensures Unwind(old(stack), errcode, false, old(log)) ==
        if raised then Unwind(stack, 1, false, log) else Unwind(stack, errcode, captured, log)
    {
      captured, raised := false, false;
      while stack[0].catchers != [] && !raised
        invariant stack != [] && (raised ==> Size(stack) < Size(old(stack))) && Size(stack) <= Size(old(stack))
        invariant Unwind(old(stack), errcode, false, old(log)) ==
          if raised then Unwind(stack, 1, false, log) else Unwind(stack, errcode, captured, log)
        decreases Size(stack)
      {
        captured := true;
        var c := stack[0].catchers[0];
        ghost var f, rest := stack[0], stack[1..];
        assert stack == [f] + rest;
        stack := [Frame(stack[0].catchers[1..], stack[0].finalizers)] + stack[1..];
        SizeDrops(f, rest);
        SizeDrops(stack[0], rest);
        log := log + [Call(Catcher, c.id, errcode)];
        raised := c.raises(errcode);
      }
    }

    /** The second loop of exception_unwind, up to a raise. */
    method RunFinalizers(errcode: int, captured: bool) returns (raised: bool)
      requires stack != [] && stack[0].catchers == []
      modifies this`stack, this`log
      ensures stack != [] && (raised ==> Size(stack) < Size(old(stack))) && Size(stack) <= Size(old(stack))
      ensures !raised ==> stack[0] == Frame([], [])
      ensures Unwind(old(stack), errcode, captured, old(log)) ==
        if raised then Unwind(stack, 1, false, log) else Unwind(stack, errcode, captured, log)
    {
      raised := false;
      while stack[0].finalizers != [] && !raised
        invariant stack != [] && stack[0].catchers == []
        invariant (raised ==> Size(stack) < Size(old(stack))) && Size(stack) <= Size(old(stack))
        invariant Unwind(old(stack), errcode, captured, old(log)) ==
          if raised then Unwind(stack, 1, false, log) else Unwind(stack, errcode, captured, log)
        decreases Size(stack)
      {
        var fin := stack[0].finalizers[0];
        ghost var f, rest := stack[0], stack[1..];
        assert stack == [f] + rest;
        stack := [Frame([], stack[0].finalizers[1..])] + stack[1..];
        SizeDrops(f, rest);
        SizeDrops(stack[0], rest);
        log := log + [Call(Finalizer, fin.id, errcode)];
        raised := fin.raises(errcode);
      }
    }

    /** raise_exception, with everything that runs until control is back after a TRY block. */
    method RaiseException()
      requires log == []
      modifies this
      ensures Outcome(stack, log, escaped) == Raised(old(stack))
    {
      RaiseIsRaised(stack);
      if stack != [] {
        UnwindFrames(1);
      } else {
        escaped := true;
      }
    }

    /** __exc_exit_try */
    method ExitTryBlock()
      requires stack != [] && log == []
      modifies this
      ensures Outcome(stack, log, escaped) == ExitTry(old(stack))
    {
      stack := [Frame([], stack[0].finalizers)] + stack[1..];
      UnwindFrames(0);
    }
  }
}
