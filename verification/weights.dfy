/** Running sums over a weight table, shared by both weighted draws. */
module Weights {

  /** One row of a weight table: the value it awards (a prize, or the number
      a sector label spells) and its relative weight. */
  datatype Weighted = Weighted(value: int, weight: real)

  /** The weight column of a table, in table order. */
  function WeightsOf(table: seq<Weighted>): (w: seq<real>) {
    seq(|table|, i requires 0 <= i < |table| => table[i].weight)
  }

  /** Sum of the first `k` weights, accumulated left to right as the
      `reduce` that computes the total and the draw loops do. */
  function Prefix(w: seq<real>, k: nat): (s: real)
    requires k <= |w|
    decreases k
  {
    if k == 0 then 0.0 else Prefix(w, k - 1) + w[k - 1]
  }

  /** The total weight of the table. */
  function Total(w: seq<real>): (t: real) {
    Prefix(w, |w|)
  }

  predicate AllPositive(w: seq<real>) {
    forall i :: 0 <= i < |w| ==> w[i] > 0.0
  }

  /** With positive weights every later running sum is strictly larger. */
  lemma {:induction false} PrefixIncreasing(w: seq<real>, i: nat, j: nat)
    requires AllPositive(w)
    requires i < j <= |w|
    ensures Prefix(w, i) < Prefix(w, j)
    decreases j - i
  {
    if j > i + 1 {
      PrefixIncreasing(w, i, j - 1);
    }
  }

  /** Monotone form: `i <= j` gives `Prefix(w, i) <= Prefix(w, j)`. */
  lemma {:induction false} PrefixMonotone(w: seq<real>, i: nat, j: nat)
    requires AllPositive(w)
    requires i <= j <= |w|
    ensures Prefix(w, i) <= Prefix(w, j)
  {
    if i < j {
      PrefixIncreasing(w, i, j);
    }
  }

  /** Entry `i` owns the slice `[Prefix(w, i), Prefix(w, i + 1))` of the
      line `[0, Total(w))`, a slice exactly as long as its weight; the slices
      start at 0, follow each other without gaps and end at the total. */
  lemma {:induction false} SlicesTileTotal(w: seq<real>, i: nat)
    requires AllPositive(w)
    requires i < |w|
    ensures 0.0 <= Prefix(w, i) < Prefix(w, i + 1) <= Total(w)
    ensures Prefix(w, i + 1) - Prefix(w, i) == w[i]
  {
    PrefixMonotone(w, 0, i);
    PrefixMonotone(w, i + 1, |w|);
  }
}
