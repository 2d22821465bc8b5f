/** The monitor of symposium.c as code over the shared state array. */
module SymposiumCode {
  import opened Symposium

  class Table {
    const state: array<Phil>
    const pcs: array<Pc>
    const meals: array<nat>

    ghost predicate Valid()
      reads this
    {
      state.Length == pcs.Length == meals.Length
    }

    ghost function View(): State
      reads this, state, pcs, meals
    {
      State(state[..], pcs[..], meals[..])
    }

    /** SymposiumTable_init */
    constructor (n: nat)
      ensures Valid() && fresh(state) && fresh(pcs) && fresh(meals) && View() == Initial(n)
    {
      state := new Phil[n](_ => NotHere);
      pcs := new Pc[n](_ => Arriving);
      meals := new nat[n](_ => 0);
      new;
      assert state[..] == Initial(n).state && pcs[..] == Initial(n).pcs && meals[..] == Initial(n).meals;
    }

    /** Cond_Signal(&hungry[i]) */
    method SignalHungry(i: nat)
      requires Valid() && i < pcs.Length
      modifies pcs
      ensures pcs[..] == old(pcs[..])[i := Signal(old(pcs[i]))]
    {
      pcs[i] := Signal(pcs[i]);
    }

    method TryToEat(i: nat)
      requires Valid() && i < state.Length
      modifies state, pcs
      ensures View() == Symposium.TryToEat(old(View()), i)
      ensures state[i] == Hungry ==> HasEatingNeighbour(state[..], i)
    {
      var n := state.Length;
      if state[i] == Hungry && state[Left(i, n)] != Eating && state[Right(i, n)] != Eating {
        state[i] := Eating;
        SignalHungry(i);
      }
    }

    method Arrive(i: nat, bites: nat)
      requires Valid() && Inv(View(), bites) && i < state.Length && pcs[i] == Arriving
      modifies state, pcs
      ensures View() == Symposium.Arrive(old(View()), i, bites) && Inv(View(), bites)
    {
      ArriveInv(View(), i, bites);
      state[i] := Thinking;
      pcs[i] := Resume(bites);
    }

    /** From the end of a think to the meal or the sleep. */
    method GetHungry(i: nat, bites: nat)
      requires Valid() && Inv(View(), bites) && i < state.Length && pcs[i].Ponders?
      modifies state, pcs
      ensures View() == Symposium.GetHungry(old(View()), i) && Inv(View(), bites)
      ensures if pcs[i].Asleep? then HasEatingNeighbour(state[..], i) else pcs[i].Dines? && state[i] == Eating
    {
      GetHungryInv(View(), i, bites);
      hide Inv;
      var left := pcs[i].left;
      state[i] := Hungry;
      assert View() == old(View()).(state := old(state[..])[i := Hungry]);
      TryToEat(i);
      pcs[i] := if state[i] == Hungry then Asleep(left) else Dines(left);
    }

    /** The loop around Cond_Wait, from a wakeup to the meal or the next sleep; the assert after the
        loop holds. */
    method Look(i: nat, bites: nat)
      requires Valid() && Inv(View(), bites) && i < state.Length && pcs[i].Woken?
      modifies pcs
      ensures View() == Symposium.Look(old(View()), i) && Inv(View(), bites)
      ensures pcs[i].Dines? ==> state[i] == Eating
    {
      LookInv(View(), i, bites);
      assert PhilOk(View().state[i], View().pcs[i], View().meals[i], bites);
      var left := pcs[i].left;
      pcs[i] := if state[i] == Hungry then Asleep(left) else Dines(left);
    }

    method Finish(i: nat, bites: nat)
      requires Valid() && Inv(View(), bites) && i < state.Length && pcs[i].Dines? && pcs[i].left > 0
      modifies state, pcs, meals
      ensures View() == Symposium.Finish(old(View()), i) && Inv(View(), bites)
      ensures state[Right(i, state.Length)] == Hungry ==> HasEatingNeighbour(state[..], Right(i, state.Length))
    {
      FinishInv(View(), i, bites);
      hide Inv;
      var n := state.Length;
      state[i] := Thinking;
      pcs[i] := Resume(pcs[i].left - 1);
      meals[i] := meals[i] + 1;
      assert View() == old(View()).(
        state := old(state[..])[i := Thinking], pcs := old(pcs[..])[i := Resume(old(pcs[i]).left - 1)],
        meals := old(meals[..])[i := old(meals[i]) + 1]);
      TryToEat(Left(i, n));
      TryToEat(Right(i, n));
    }

    method Leave(i: nat, bites: nat)
      requires Valid() && Inv(View(), bites) && i < state.Length && pcs[i] == Leaving
      modifies state, pcs
      ensures View() == Symposium.Leave(old(View()), i) && Inv(View(), bites)
      ensures meals[i] == bites
    {
      LeaveInv(View(), i, bites);
      assert PhilOk(View().state[i], View().pcs[i], View().meals[i], bites);
      hide Inv;
      state[i] := NotHere;
      pcs[i] := Gone;
    }
  }
}
