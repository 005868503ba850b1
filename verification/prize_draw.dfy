/** The weighted prize draw of the first widget (`pickPrizeByWeight`).

    The random number `Math.random() * total` is a parameter `r`; the loop
    adds each weight to a running sum and returns the first entry whose
    running sum reaches `r` (`r <= acc`), falling back to the last entry when
    none does. */
module PrizeDraw {
  import opened Weights

  /** The loop from entry `k` on, where `acc` is the running sum so far:
      the index it returns at, or `|w|` when it runs off the end. */
  function Scan(w: seq<real>, r: real, k: nat, acc: real): (i: nat)
    requires k <= |w|
    ensures k <= i <= |w|
    decreases |w| - k
  {
    if k == |w| then |w|
    else if r <= acc + w[k] then k
    else Scan(w, r, k + 1, acc + w[k])
  }

  /** Index of the entry the draw settles on, including the fallback to the
      last entry. */
  function PickIndex(w: seq<real>, r: real): (i: nat)
    requires |w| > 0
    ensures i < |w|
  {
    var k := Scan(w, r, 0, 0.0);
    if k < |w| then k else |w| - 1
  }

  /** `pickPrizeByWeight` with the random number as a parameter. */
  function PickPrize(table: seq<Weighted>, r: real): (p: int)
    requires |table| > 0
    ensures exists i :: 0 <= i < |table| && table[i].value == p
  {
    table[PickIndex(WeightsOf(table), r)].value
  }

  /** Started with the true running sum, the scan returns the least index
      whose running sum reaches `r`, or `|w|` when no running sum does.
      This holds whatever the weights. */
  lemma {:induction false} ScanIsLeastCovering(w: seq<real>, r: real, k: nat, acc: real)
    requires k <= |w|
    requires acc == Prefix(w, k)
    ensures var i := Scan(w, r, k, acc);
      (i < |w| ==> r <= Prefix(w, i + 1))
      && (forall j :: k < j <= i ==> Prefix(w, j) < r)
    decreases |w| - k
  {
    if k < |w| && !(r <= acc + w[k]) {
      ScanIsLeastCovering(w, r, k + 1, acc + w[k]);
    }
  }

  /** For positive weights and `0 <= r <= total` the fallback is never
      needed: the loop itself returns. */
  lemma FallbackUnreachable(w: seq<real>, r: real)
    requires |w| > 0 && AllPositive(w)
    requires 0.0 <= r <= Total(w)
    ensures Scan(w, r, 0, 0.0) < |w|
  {
    ScanIsLeastCovering(w, r, 0, 0.0);
  }

  /** Interval characterisation: for positive weights and `0 <= r <= total`
      the draw picks entry `j` exactly when `r` lies in
      `(Prefix(w, j), Prefix(w, j + 1)]`, except that `r == 0` picks entry 0. */
  lemma PickIndexInterval(w: seq<real>, r: real, j: nat)
    requires |w| > 0 && AllPositive(w)
    requires 0.0 <= r <= Total(w)
    requires j < |w|
    ensures PickIndex(w, r) == j
        <==> (r <= Prefix(w, j + 1) && (j == 0 || Prefix(w, j) < r))
  {
    FallbackUnreachable(w, r);
    ScanIsLeastCovering(w, r, 0, 0.0);
    var i := PickIndex(w, r);
    assert r <= Prefix(w, i + 1);
    if i > 0 {
      assert Prefix(w, i) < r;
    }
    if j < i {
      PrefixMonotone(w, j + 1, i);
      assert Prefix(w, j + 1) < r;
    } else if j > i {
      PrefixMonotone(w, i + 1, j);
    }
  }
}
