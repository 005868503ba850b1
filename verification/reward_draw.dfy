/** The weighted draw of the second widget (`getReward`).

    The random number `Math.random() * total` is a parameter `rand`; the
    loop compares it with each weight in turn (`rand < weight`) and
    subtracts the weight when it is not below it. Running off the end
    returns `undefined`, modelled as `None`. */
module RewardDraw {
  import opened Wrappers
  import opened Weights

  /** The loop from entry `k` on, with `rand` the part of the draw not yet
      subtracted: the index it returns at, or `None`. */
  function Walk(w: seq<real>, k: nat, rand: real): (r: Option<nat>)
    requires k <= |w|
    ensures r.Some? ==> k <= r.value < |w|
    decreases |w| - k
  {
    if k == |w| then None
    else if rand < w[k] then Some(k)
    else Walk(w, k + 1, rand - w[k])
  }

  /** `getReward` with the random number as a parameter. */
  function GetReward(table: seq<Weighted>, rand: real): (r: Option<int>)
    ensures r.Some? ==> exists i :: 0 <= i < |table| && table[i].value == r.value
  {
    match Walk(WeightsOf(table), 0, rand)
    case None => None
    case Some(i) => Some(table[i].value)
  }

  /** After the first `k` entries the loop holds the draw minus their total;
      from there it stops at index `i` exactly when the draw lies in
      `[Prefix(w, i), Prefix(w, i + 1))`, and it stops somewhere whenever
      the draw lies in `[Prefix(w, k), Total(w))`. */
  lemma {:induction false} WalkInterval(w: seq<real>, k: nat, rand: real, i: nat)
    requires AllPositive(w)
    requires k <= i < |w|
    requires Prefix(w, k) <= rand
    ensures Walk(w, k, rand - Prefix(w, k)) == Some(i)
        <==> Prefix(w, i) <= rand < Prefix(w, i + 1)
    decreases |w| - k
  {
    var rem := rand - Prefix(w, k);
    if rand < Prefix(w, k + 1) {
      if i > k {
        PrefixMonotone(w, k + 1, i);
      }
    } else {
      assert rem - w[k] == rand - Prefix(w, k + 1);
      if i > k {
        WalkInterval(w, k + 1, rand, i);
      }
    }
  }

  /** For positive weights and `0 <= rand < total` the loop always returns,
      so `getReward` never yields `undefined`. */
  lemma {:induction false} WalkFinds(w: seq<real>, k: nat, rand: real)
    requires AllPositive(w)
    requires k <= |w|
    requires Prefix(w, k) <= rand < Total(w)
    ensures Walk(w, k, rand - Prefix(w, k)).Some?
    decreases |w| - k
  {
    if k < |w| && rand >= Prefix(w, k + 1) {
      assert rand - Prefix(w, k) - w[k] == rand - Prefix(w, k + 1);
      WalkFinds(w, k + 1, rand);
    }
  }

  /** The index `getReward` settles on for a draw in `[0, total)`: entry `i`
      is chosen exactly when the draw lies in the half-open slice
      `[Prefix(w, i), Prefix(w, i + 1))`, whose length is its weight. */
  lemma RewardInterval(table: seq<Weighted>, rand: real, i: nat)
    requires AllPositive(WeightsOf(table))
    requires 0.0 <= rand < Total(WeightsOf(table))
    requires i < |table|
    ensures Walk(WeightsOf(table), 0, rand).Some?
    ensures Walk(WeightsOf(table), 0, rand) == Some(i)
        <==> Prefix(WeightsOf(table), i) <= rand < Prefix(WeightsOf(table), i + 1)
    ensures Prefix(WeightsOf(table), i + 1) - Prefix(WeightsOf(table), i) == table[i].weight
  {
    var w := WeightsOf(table);
    WalkFinds(w, 0, rand);
    WalkInterval(w, 0, rand, i);
  }
}
