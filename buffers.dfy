/**
 * The rolling buffer of raw game-variable vectors that every scenario and
 * reward wrapper reads: index 0 is the oldest retained vector, the last
 * index the most recent one.  Game variables are modelled as reals.
 */
module Buffers {

  /** One simulation step's game variables. */
  type Vars = seq<real>

  /** The game-variable buffer, oldest entry first. */
  type VarBuffer = seq<Vars>

  /** Python's `buf[-1]`. */
  function Latest(buf: VarBuffer): Vars
    requires |buf| >= 1
  {
    buf[|buf| - 1]
  }

  /** Python's `buf[-2]`. */
  function Previous(buf: VarBuffer): Vars
    requires |buf| >= 2
  {
    buf[|buf| - 2]
  }

  /** True when component `i` exists in both vectors and strictly drops from `prev` to `cur`. */
  predicate Dropped(prev: Vars, cur: Vars, i: nat)
  {
    i < |prev| && i < |cur| && cur[i] < prev[i]
  }

  /** A pair of consecutive vectors, previous first. */
  type Transition = (Vars, Vars)

  /** How many of the recorded transitions show a strict drop in component `i`. */
  function Drops(ts: seq<Transition>, i: nat): nat
  {
    if ts == [] then 0
    else Drops(ts[..|ts| - 1], i) + (if Dropped(ts[|ts| - 1].0, ts[|ts| - 1].1, i) then 1 else 0)
  }

  /** Recording one more transition bumps the count by one exactly when it is a strict drop. */
  lemma DropsAppend(ts: seq<Transition>, t: Transition, i: nat)
    ensures Drops(ts + [t], i) == Drops(ts, i) + (if Dropped(t.0, t.1, i) then 1 else 0)
  {
    assert (ts + [t])[..|ts|] == ts;
  }

  /** No more drops than transitions. */
  lemma {:induction false} DropsBounded(ts: seq<Transition>, i: nat)
    ensures Drops(ts, i) <= |ts|
  {
    if ts != [] {
      DropsBounded(ts[..|ts| - 1], i);
    }
  }

  /** Ties and increases are never counted: the count is zero when component `i` never strictly drops. */
  lemma {:induction false} DropsNoneWithoutDecrease(ts: seq<Transition>, i: nat)
    requires forall k :: 0 <= k < |ts| ==> !Dropped(ts[k].0, ts[k].1, i)
    ensures Drops(ts, i) == 0
  {
    if ts != [] {
      DropsNoneWithoutDecrease(ts[..|ts| - 1], i);
    }
  }

  /** The count is |ts| exactly when every transition is a strict drop. */
  lemma {:induction false} DropsAllIffEveryStepDrops(ts: seq<Transition>, i: nat)
    ensures Drops(ts, i) == |ts| <==> forall k :: 0 <= k < |ts| ==> Dropped(ts[k].0, ts[k].1, i)
  {
    if ts != [] {
      var init := ts[..|ts| - 1];
      DropsAllIffEveryStepDrops(init, i);
      DropsBounded(init, i);
      assert forall k :: 0 <= k < |init| ==> init[k] == ts[k];
    }
  }

  /** Python's `sum(xs)` over a list of reals, accumulated from the front. */
  function Sum(xs: seq<real>): real
  {
    if xs == [] then 0.0 else Sum(xs[..|xs| - 1]) + xs[|xs| - 1]
  }

  /** Appending one element adds it to the sum. */
  lemma SumAppend(xs: seq<real>, x: real)
    ensures Sum(xs + [x]) == Sum(xs) + x
  {
    assert (xs + [x])[..|xs|] == xs;
  }
}
