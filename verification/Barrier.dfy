/** The reusable barrier of tinyoslib.c, used by a fixed number of parties for any number of rounds.  Each
    step is one section under the barrier's mutex; a sleeper may also be woken for no reason. */
module Barrier {
  import opened Sequences

  /** The range of `unsigned int`. */
  const UINT := 0x1_0000_0000

  /** A party outside BarrierSync, or inside it with the epoch it read on entry. */
  datatype Pc = Outside | Inside(epoch: nat, asleep: bool)

  /** `rounds`, `entered` and `returned` are history: the rounds completed, and how often each party
      has entered and returned. */
  datatype State = State(count: nat, epoch: nat, pcs: seq<Pc>, rounds: nat, entered: seq<nat>, returned: seq<nat>)

  ghost predicate Wf(s: State) {
    |s.pcs| == |s.entered| == |s.returned|
  }

  /** Cond_Broadcast */
  function WakeAll(pcs: seq<Pc>): (r: seq<Pc>)
    ensures |r| == |pcs|
    ensures forall i :: 0 <= i < |pcs| ==> r[i] == if pcs[i].Inside? then pcs[i].(asleep := false) else Outside
  {
    seq(|pcs|, i requires 0 <= i < |pcs| => if pcs[i].Inside? then pcs[i].(asleep := false) else Outside)
  }

  /** One check of the waiting loop by party `t`, which read epoch `e` on entry. */
  function Check(s: State, t: nat, e: nat): (r: State)
    requires Wf(s) && t < |s.pcs|
    ensures Wf(r)
  {
    if e == s.epoch then s.(pcs := s.pcs[t := Inside(e, true)])
    else s.(pcs := s.pcs[t := Outside], returned := s.returned[t := s.returned[t] + 1])
  }

  /** Counting party `t` of `n` in; the last one opens the next round and wakes the others. */
  function Admit(s: State, t: nat, n: nat): (r: State)
    requires Wf(s) && t < |s.pcs|
    ensures Wf(r) && |r.pcs| == |s.pcs|
  {
    var a := s.(count := s.count + 1, entered := s.entered[t := s.entered[t] + 1]);
    if a.count == n then a.(epoch := (a.epoch + 1) % UINT, count := 0, rounds := a.rounds + 1, pcs := WakeAll(a.pcs))
    else a
  }

  /** BarrierSync by party `t` of `n`, up to its sleep or return. */
  function Enter(s: State, t: nat, n: nat): (r: State)
    requires Wf(s) && t < |s.pcs|
    ensures Wf(r)
  {
    Check(Admit(s, t, n), t, s.epoch)
  }

  // ---------- the invariant ----------

  ghost function In(entered: seq<nat>, k: nat): set<nat> {
    set t: nat | t < |entered| && entered[t] == k
  }

  /** Every party has entered all completed rounds; one that has entered the next is inside, asleep or
      about to be, and one that has not is outside, or on its way out. */
  ghost predicate PartyOk(pc: Pc, entered: nat, returned: nat, rounds: nat) {
    if entered == rounds + 1 then pc.Inside? && pc.epoch == rounds % UINT && returned == rounds
    else
      && entered == rounds
      && match pc
         case Outside => returned == rounds
         case Inside(e, asleep) => rounds > 0 && e == (rounds - 1) % UINT && !asleep && returned == rounds - 1
  }

  ghost predicate Inv(s: State, n: nat) {
    && Wf(s) && |s.pcs| == n > 0
    && s.epoch == s.rounds % UINT
    && s.count == |In(s.entered, s.rounds + 1)| < n
    && forall t: nat :: t < n ==> PartyOk(s.pcs[t], s.entered[t], s.returned[t], s.rounds)
  }

  // ---------- counting ----------

  lemma InBound(entered: seq<nat>, k: nat)
    ensures |In(entered, k)| <= |entered|
    ensures |In(entered, k)| == |entered| ==> forall t: nat :: t < |entered| ==> entered[t] == k
    ensures (exists t: nat :: t < |entered| && entered[t] != k) ==> |In(entered, k)| < |entered|
  {
    var all, some := UpTo(|entered|), In(entered, k);
    assert some <= all;
    Subset(some, all);
    forall t: nat | t < |entered| && |some| == |entered| ensures entered[t] == k {
      assert t in all;
    }
  }

  lemma Subset(a: set<nat>, b: set<nat>)
    requires a <= b
    ensures |a| <= |b| && (|a| == |b| ==> a == b)
  {
    assert b == a + (b - a);
    assert |b| == |a| + |b - a|;
    if |a| == |b| { assert b - a == {}; }
  }

  lemma Missing(entered: seq<nat>, k: nat) returns (t: nat)
    requires |In(entered, k)| < |entered|
    ensures t < |entered| && entered[t] != k
  {
    var all, some := UpTo(|entered|), In(entered, k);
    assert all == some + (all - some);
    assert all - some != {};
    t :| t in all - some;
  }

  lemma InAdd(entered: seq<nat>, t: nat, k: nat)
    requires t < |entered| && entered[t] != k
    ensures |In(entered[t := k], k)| == |In(entered, k)| + 1
  {
    assert In(entered[t := k], k) == In(entered, k) + {t};
  }

  // ---------- preservation ----------

  /** The assert at the entry of BarrierSync. */
  lemma EntryAssert(s: State, t: nat, n: nat)
    requires Inv(s, n) && t < n && s.pcs[t] == Outside
    ensures s.count < n && s.entered[t] == s.rounds
  {
    assert PartyOk(s.pcs[t], s.entered[t], s.returned[t], s.rounds);
  }

  lemma EpochMoves(r: nat)
    ensures (r + 1) % UINT != r % UINT
    ensures (r % UINT + 1) % UINT == (r + 1) % UINT
  {
    assert r == (r / UINT) * UINT + r % UINT;
    if r % UINT == UINT - 1 {
      assert r + 1 == (r / UINT + 1) * UINT;
    } else {
      assert r + 1 == (r / UINT) * UINT + (r % UINT + 1);
    }
  }

  /** A party that is not the last goes to sleep. */
  lemma EnterEarly(s: State, t: nat, n: nat)
    requires Inv(s, n) && t < n && s.pcs[t] == Outside && s.count + 1 != n
    ensures Inv(Enter(s, t, n), n)
  {
    EntryAssert(s, t, n);
    InAdd(s.entered, t, s.rounds + 1);
    var r := Enter(s, t, n);
    hide In;
    forall u: nat | u < n ensures PartyOk(r.pcs[u], r.entered[u], r.returned[u], r.rounds) {
      assert PartyOk(s.pcs[u], s.entered[u], s.returned[u], s.rounds);
    }
  }

  /** The last party releases the round and returns. */
  lemma EnterLast(s: State, t: nat, n: nat)
    requires Inv(s, n) && t < n && s.pcs[t] == Outside && s.count + 1 == n
    ensures Inv(Enter(s, t, n), n) && Enter(s, t, n).rounds == s.rounds + 1
  {
    EntryAssert(s, t, n);
    InAdd(s.entered, t, s.rounds + 1);
    var all := s.entered[t := s.rounds + 1];
    InBound(all, s.rounds + 1);
    EpochMoves(s.rounds);
    var r := Enter(s, t, n);
    assert In(r.entered, r.rounds + 1) == {} by {
      assert forall u: nat :: u < n ==> r.entered[u] == r.rounds;
    }
    hide In;
    forall u: nat | u < n ensures PartyOk(r.pcs[u], r.entered[u], r.returned[u], r.rounds) {
      assert PartyOk(s.pcs[u], s.entered[u], s.returned[u], s.rounds);
      assert all[u] == s.rounds + 1;
    }
  }

  lemma CheckInv(s: State, t: nat, n: nat)
    requires Inv(s, n) && t < n && s.pcs[t].Inside?
    ensures Inv(Check(s, t, s.pcs[t].epoch), n)
  {
    assert PartyOk(s.pcs[t], s.entered[t], s.returned[t], s.rounds);
    if s.rounds > 0 { EpochMoves(s.rounds - 1); }
    var r := Check(s, t, s.pcs[t].epoch);
    hide In;
    forall u: nat | u < n ensures PartyOk(r.pcs[u], r.entered[u], r.returned[u], r.rounds) {
      assert PartyOk(s.pcs[u], s.entered[u], s.returned[u], s.rounds);
    }
  }

  // ---------- what each section does ----------

  /** A look at an unchanged epoch puts the party to sleep; a look at a new one lets it return. */
  lemma LookEffect(s: State, t: nat, n: nat)
    requires Inv(s, n) && t < n && s.pcs[t].Inside?
    ensures var r := Check(s, t, s.pcs[t].epoch);
      && r.count == s.count && r.epoch == s.epoch && r.rounds == s.rounds && r.entered == s.entered
      && |r.pcs| == |r.returned| == n
      && (forall u: nat :: u < n && u != t ==> r.pcs[u] == s.pcs[u] && r.returned[u] == s.returned[u])
      && (s.entered[t] == s.rounds + 1 ==>
            r.pcs[t].Inside? && r.pcs[t].asleep && r.pcs[t].epoch == s.pcs[t].epoch && r.returned[t] == s.returned[t])
      && (s.entered[t] == s.rounds ==>
            r.pcs[t] == Outside && r.returned[t] == s.returned[t] + 1 == s.rounds)
  {
    assert PartyOk(s.pcs[t], s.entered[t], s.returned[t], s.rounds);
    if s.rounds > 0 { EpochMoves(s.rounds - 1); }
  }

  /** An entry before the last counts the party in and puts it to sleep. */
  lemma EnterWaits(s: State, t: nat, n: nat)
    requires Inv(s, n) && t < n && s.pcs[t] == Outside && s.count + 1 != n
    ensures var r := Enter(s, t, n);
      && r.count == s.count + 1 && r.epoch == s.epoch && r.rounds == s.rounds
      && r.entered == s.entered[t := s.entered[t] + 1] && r.returned == s.returned
      && r.pcs == s.pcs[t := Inside(s.epoch, true)]
  {}

  /** The last entry completes the round: the party returns at once, and all who waited are awake. */
  lemma EnterReleases(s: State, t: nat, n: nat)
    requires Inv(s, n) && t < n && s.pcs[t] == Outside && s.count + 1 == n
    ensures var r := Enter(s, t, n);
      && r.count == 0 && r.rounds == s.rounds + 1 && |r.pcs| == |r.returned| == |r.entered| == n
      && r.pcs[t] == Outside && r.returned[t] == r.rounds
      && (forall u: nat :: u < n ==> r.entered[u] == r.rounds)
      && (forall u: nat :: u < n && u != t ==>
            r.returned[u] == s.returned[u] && (r.pcs[u].Inside? <==> s.pcs[u].Inside?)
            && (r.pcs[u].Inside? ==> !r.pcs[u].asleep))
  {
    EnterLast(s, t, n);
    EntryAssert(s, t, n);
    InAdd(s.entered, t, s.rounds + 1);
    InBound(s.entered[t := s.rounds + 1], s.rounds + 1);
    EpochMoves(s.rounds);
    var r := Enter(s, t, n);
    hide In;
    forall u: nat | u < n ensures r.entered[u] == r.rounds {
      assert s.entered[t := s.rounds + 1][u] == s.rounds + 1;
    }
  }

  // ---------- runs ----------

  datatype Event = EnterEvent(t: nat) | LookEvent(t: nat) | WakeEvent(t: nat)

  ghost predicate Enabled(s: State, e: Event) {
    && e.t < |s.pcs|
    && match e
       case EnterEvent(t) => s.pcs[t] == Outside
       case LookEvent(t) => s.pcs[t].Inside? && !s.pcs[t].asleep
       case WakeEvent(t) => s.pcs[t].Inside? && s.pcs[t].asleep
  }

  ghost function Apply(s: State, e: Event, n: nat): State
    requires Wf(s) && Enabled(s, e)
  {
    match e
    case EnterEvent(t) => Enter(s, t, n)
    case LookEvent(t) => Check(s, t, s.pcs[t].epoch)
    case WakeEvent(t) => s.(pcs := s.pcs[t := s.pcs[t].(asleep := false)])
  }

  lemma StepInv(s: State, e: Event, n: nat)
    requires Inv(s, n) && Enabled(s, e)
    ensures Inv(Apply(s, e, n), n)
  {
    match e
    case EnterEvent(t) => if s.count + 1 == n { EnterLast(s, t, n); } else { EnterEarly(s, t, n); }
    case LookEvent(t) => CheckInv(s, t, n);
    case WakeEvent(t) => WakeInv(s, t, n);
  }

  lemma WakeInv(s: State, t: nat, n: nat)
    requires Inv(s, n) && t < n && s.pcs[t].Inside?
    ensures Inv(s.(pcs := s.pcs[t := s.pcs[t].(asleep := false)]), n)
  {
    hide In;
    var r := s.(pcs := s.pcs[t := s.pcs[t].(asleep := false)]);
    forall u: nat | u < n ensures PartyOk(r.pcs[u], r.entered[u], r.returned[u], r.rounds) {
      assert PartyOk(s.pcs[u], s.entered[u], s.returned[u], s.rounds);
    }
  }

  /** BARRIER_INIT, with `n` parties outside. */
  function Initial(n: nat): State {
    State(0, 0, seq(n, i => Outside), 0, seq(n, i => 0), seq(n, i => 0))
  }

  ghost predicate Next(s: State, e: Event, s': State, n: nat) {
    Wf(s) && Enabled(s, e) && s' == Apply(s, e, n)
  }

  ghost predicate IsRun(ss: seq<State>, es: seq<Event>, n: nat) {
    |ss| == |es| + 1 && forall i :: 0 <= i < |es| ==> Next(ss[i], es[i], ss[i + 1], n)
  }

  ghost predicate Safe(s: State, n: nat) {
    && |s.pcs| == |s.entered| == |s.returned| == n
    // nobody has returned from a round that somebody has not entered
    && (forall t: nat, u: nat :: t < n && u < n ==> s.returned[t] <= s.entered[u])
    // the epoch moves at most once while a party is inside
    && (forall t: nat :: t < n && s.pcs[t].Inside? ==> s.returned[t] <= s.rounds <= s.returned[t] + 1)
    // no released party sleeps: a sleeper is in the round still open
    && (forall t: nat :: t < n && s.pcs[t].Inside? && s.pcs[t].asleep ==> s.entered[t] == s.rounds + 1)
    // the assert at the entry
    && s.count < n
  }

  lemma InvSafe(s: State, n: nat)
    requires Inv(s, n)
    ensures Safe(s, n)
  {
    forall t: nat | t < n ensures PartyOk(s.pcs[t], s.entered[t], s.returned[t], s.rounds) {}
  }

  lemma InitialInv(n: nat)
    requires n > 0
    ensures Inv(Initial(n), n)
  {
    assert In(Initial(n).entered, 1) == {};
  }

  /** With exactly `n` parties, over any number of rounds and in every interleaving. */
  lemma RunSafe(ss: seq<State>, es: seq<Event>, n: nat)
    requires n > 0 && IsRun(ss, es, n) && ss[0] == Initial(n)
    ensures forall i :: 0 <= i < |ss| ==> Inv(ss[i], n) && Safe(ss[i], n)
  {
    InitialInv(n);
    for j := 0 to |es|
      invariant forall i :: 0 <= i <= j ==> Inv(ss[i], n)
    {
      assert Next(ss[j], es[j], ss[j + 1], n);
      StepInv(ss[j], es[j], n);
    }
    forall i | 0 <= i < |ss| ensures Safe(ss[i], n) { InvSafe(ss[i], n); }
  }

  // ---------- everybody returns ----------

  ghost function Awake(pcs: seq<Pc>): set<nat> {
    set t: nat | t < |pcs| && pcs[t].Inside? && !pcs[t].asleep
  }

  lemma LookSettles(s: State, t: nat, n: nat)
    requires Inv(s, n) && t < n && s.pcs[t].Inside? && !s.pcs[t].asleep
    ensures |Awake(Check(s, t, s.pcs[t].epoch).pcs)| == |Awake(s.pcs)| - 1
  {
    LookEffect(s, t, n);
    assert t in Awake(s.pcs);
    assert Awake(Check(s, t, s.pcs[t].epoch).pcs) == Awake(s.pcs) - {t};
  }

  lemma AwakeBound(pcs: seq<Pc>)
    ensures |Awake(pcs)| <= |pcs|
  {
    assert Awake(pcs) <= UpTo(|pcs|);
    Subset(Awake(pcs), UpTo(|pcs|));
  }

  /** From any reachable state a run without entries and stray wakeups is over after at most one look by
      each party.  If it cannot go on, everybody has returned from all completed rounds, except for those
      who have entered the next one: these sleep. */
  lemma RunReturns(ss: seq<State>, es: seq<Event>, n: nat)
    requires IsRun(ss, es, n) && Inv(ss[0], n) && forall i :: 0 <= i < |es| ==> es[i].LookEvent?
    ensures |es| <= n && Inv(ss[|es|], n) && ss[|es|].rounds == ss[0].rounds && ss[|es|].entered == ss[0].entered
    ensures (forall t: nat :: !Enabled(ss[|es|], LookEvent(t))) ==>
      forall t: nat :: t < n ==>
        if ss[0].entered[t] == ss[0].rounds
        then ss[|es|].pcs[t] == Outside && ss[|es|].returned[t] == ss[0].rounds
        else ss[|es|].pcs[t].Inside? && ss[|es|].pcs[t].asleep
  {
    AwakeBound(ss[0].pcs);
    for j := 0 to |es|
      invariant Inv(ss[j], n) && |Awake(ss[j].pcs)| + j <= n
      invariant ss[j].rounds == ss[0].rounds && ss[j].entered == ss[0].entered
    {
      assert Next(ss[j], es[j], ss[j + 1], n);
      StepInv(ss[j], es[j], n);
      LookEffect(ss[j], es[j].t, n);
      LookSettles(ss[j], es[j].t, n);
    }
    var s := ss[|es|];
    if forall t: nat :: !Enabled(s, LookEvent(t)) {
      forall t: nat | t < n
        ensures if s.entered[t] == s.rounds then s.pcs[t] == Outside && s.returned[t] == s.rounds
                else s.pcs[t].Inside? && s.pcs[t].asleep
      {
        assert PartyOk(s.pcs[t], s.entered[t], s.returned[t], s.rounds) && !Enabled(s, LookEvent(t));
      }
    }
  }

  /** So after the last entry of round k, with no further entries, all come out having returned from it. */
  lemma RoundReturns(s: State, t: nat, ss: seq<State>, es: seq<Event>, n: nat)
    requires Inv(s, n) && t < n && s.pcs[t] == Outside && s.count + 1 == n
    requires IsRun(ss, es, n) && ss[0] == Enter(s, t, n) && forall i :: 0 <= i < |es| ==> es[i].LookEvent?
    requires forall u: nat :: !Enabled(ss[|es|], LookEvent(u))
    ensures |ss[|es|].pcs| == |ss[|es|].returned| == n
    ensures forall u: nat :: u < n ==> ss[|es|].pcs[u] == Outside && ss[|es|].returned[u] == s.rounds + 1
  {
    EnterLast(s, t, n);
    EnterReleases(s, t, n);
    RunReturns(ss, es, n);
  }

  /** The barrier never gets stuck: some party is outside or awake. */
  lemma NoDeadlock(s: State, n: nat) returns (e: Event)
    requires Inv(s, n)
    ensures Enabled(s, e) && !e.WakeEvent?
  {
    var t := Missing(s.entered, s.rounds + 1);
    assert PartyOk(s.pcs[t], s.entered[t], s.returned[t], s.rounds);
    e := if s.pcs[t] == Outside then EnterEvent(t) else LookEvent(t);
  }

  lemma SyncFacts(s: State, t: nat, n: nat)
    requires Inv(s, n) && t < n && s.pcs[t] == Outside
    ensures n > 0 && s.count < n && Inv(Enter(s, t, n), n)
    ensures var r := Enter(s, t, n);
      if s.count + 1 == n
      then r.pcs[t] == Outside && r.returned[t] == r.rounds == s.rounds + 1
      else r.pcs[t] == Inside(s.epoch, true) && r.count == s.count + 1
  {
    StepInv(s, EnterEvent(t), n);
    if s.count + 1 == n { EnterReleases(s, t, n); } else { EnterWaits(s, t, n); }
  }

  // ---------- the code ----------

  class BarrierObject {
    var count: nat
    var epoch: nat
    const pcs: array<Pc>
    var rounds: nat
    const entered: array<nat>
    const returned: array<nat>

    ghost predicate Valid()
      reads this
    {
      && pcs.Length == entered.Length == returned.Length && entered != returned
    }

    ghost function View(): State
      reads this, pcs, entered, returned
    {
      State(count, epoch, pcs[..], rounds, entered[..], returned[..])
    }

    constructor (n: nat)
      ensures Valid() && View() == Initial(n)
    {
      count, epoch, rounds := 0, 0, 0;
      pcs := new Pc[n](_ => Outside);
      entered := new nat[n](_ => 0);
      returned := new nat[n](_ => 0);
      new;
      assert pcs[..] == Initial(n).pcs && entered[..] == Initial(n).entered && returned[..] == Initial(n).returned;
    }

    method CondBroadcast()
      modifies pcs
      ensures pcs[..] == WakeAll(old(pcs[..]))
    {
      for i := 0 to pcs.Length
        invariant forall j :: 0 <= j < i ==> pcs[j] == WakeAll(old(pcs[..]))[j]
        invariant forall j :: i <= j < pcs.Length ==> pcs[j] == old(pcs[j])
      {
        pcs[i] := if pcs[i].Inside? then pcs[i].(asleep := false) else Outside;
      }
    }

    /** The waiting loop, from one check to the sleep or the return. */
    method WaitPass(t: nat, e: nat)
      requires Valid() && t < pcs.Length
      modifies pcs, returned
      ensures View() == Check(old(View()), t, e)
      ensures if e == epoch then pcs[t] == Inside(e, true) else pcs[t] == Outside && returned[t] == old(returned[t]) + 1
    {
      if e == epoch {
        pcs[t] := Inside(e, true);
      } else {
        pcs[t] := Outside;
        returned[t] := returned[t] + 1;
      }
    }

    method CountIn(t: nat, n: nat)
      requires Valid() && t < pcs.Length
      modifies this`count, this`epoch, this`rounds, pcs, entered
      ensures View() == Admit(old(View()), t, n)
    {
      hide WakeAll;
      entered[t] := entered[t] + 1;
      count := count + 1;
      assert entered[..] == old(entered[..])[t := old(entered[t]) + 1];
      if count == n {
        epoch := (epoch + 1) % UINT;
        count := 0;
        rounds := rounds + 1;
        CondBroadcast();
      }
    }

    /** BarrierSync, up to the sleep or the return; both asserts hold. */
    method Sync(t: nat, n: nat)
      requires Valid() && Inv(View(), n) && t < n == pcs.Length && pcs[t] == Outside
      modifies this`count, this`epoch, this`rounds, pcs, entered, returned
      ensures View() == Enter(old(View()), t, n) && Inv(View(), n)
      ensures if old(count) + 1 == n
        then pcs[t] == Outside && returned[t] == rounds == old(rounds) + 1
        else pcs[t] == Inside(old(epoch), true) && count == old(count) + 1
    {
      SyncFacts(View(), t, n);
      hide Inv, Admit, Check;
      assert n > 0;
      var e := epoch;
      assert count < n;
      CountIn(t, n);
      WaitPass(t, e);
    }
  }
}
