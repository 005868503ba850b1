/** The first widget's spin ledger: the prize and sector tables, and the
    state changes of the spin button, its completion timer, the ad button
    and the reset button.

    The three buttons are disabled while a spin is in flight; a click on a
    disabled button does nothing, which the steps below model as the
    `Spinning` phase leaving the ledger unchanged. */
module AppLedger {
  import opened Angles
  import opened Weights
  import opened PrizeDraw
  import opened SectorChoice

  /** The wheel, clockwise from the top. */
  const Sectors: seq<Sector> := [
    Sector(100, 0), Sector(100, 1), Sector(200, 2),
    Sector(300, 3), Sector(400, 4), Sector(500, 5)
  ]

  /** The weights behind the draw: 100 twice at 25, then 200 at 20, 300 at
      15, 400 at 10 and 500 at 5. */
  const WeightedPrizes: seq<Weighted> := [
    Weighted(100, 25.0), Weighted(100, 25.0), Weighted(200, 20.0),
    Weighted(300, 15.0), Weighted(400, 10.0), Weighted(500, 5.0)
  ]

  /** Whether a spin is in flight; a spin in flight remembers the prize it
      will credit and the rotation it set. */
  datatype Phase = Idle | Spinning(prize: int, rotation: real)

  /** What the result line shows. */
  datatype Notice = Blank | NoSpinsLeft | Won(prize: int) | AdWatched

  /** `spins`, `points`, `isSpinning`, the wheel's CSS rotation and the
      result line. */
  datatype Ledger = Ledger(spins: int, points: int, phase: Phase, rotation: real, notice: Notice)

  /** The state at page load. */
  const Initial: Ledger := Ledger(1, 0, Idle, 0.0, Blank)

  /** The prize table is consistent with the wheel: the draw can only award
      prizes some sector carries, and every prize is positive. */
  lemma TablesAgree()
    ensures |WeightsOf(WeightedPrizes)| == 6 && AllPositive(WeightsOf(WeightedPrizes))
    ensures Total(WeightsOf(WeightedPrizes)) == 100.0
    ensures forall i :: 0 <= i < |WeightedPrizes| ==>
      WeightedPrizes[i].value > 0 && Sectors[i].prize == WeightedPrizes[i].value
  {
    assert WeightsOf(WeightedPrizes) == [25.0, 25.0, 20.0, 15.0, 10.0, 5.0];
  }

  /** The prize a spin awards for the draw `u` in `[0, 1)`. */
  function DrawPrize(u: real): (p: int)
    requires 0.0 <= u < 1.0
    ensures p > 0
    ensures exists i :: 0 <= i < |Sectors| && Sectors[i].prize == p
  {
    TablesAgree();
    var w := WeightsOf(WeightedPrizes);
    var p := PickPrize(WeightedPrizes, u * Total(w));
    var i :| 0 <= i < |WeightedPrizes| && WeightedPrizes[i].value == p;
    assert Sectors[i].prize == p;
    p
  }

  /** The share of each prize: a draw `u` in `[0, 1)` awards 100 on its
      first half (the two 100 sectors at 25% each), then 200 on the next
      20%, 300 on 15%, 400 on 10% and 500 on the last 5%. */
  lemma DrawPrizeShares(u: real)
    requires 0.0 <= u < 1.0
    ensures DrawPrize(u) == 100 <==> u <= 0.5
    ensures DrawPrize(u) == 200 <==> 0.5 < u <= 0.7
    ensures DrawPrize(u) == 300 <==> 0.7 < u <= 0.85
    ensures DrawPrize(u) == 400 <==> 0.85 < u <= 0.95
    ensures DrawPrize(u) == 500 <==> 0.95 < u
  {
    TablesAgree();
    var w := WeightsOf(WeightedPrizes);
    assert Prefix(w, 1) == 25.0 && Prefix(w, 2) == 50.0 && Prefix(w, 3) == 70.0;
    assert Prefix(w, 4) == 85.0 && Prefix(w, 5) == 95.0 && Prefix(w, 6) == 100.0;
    var r := u * 100.0;
    PickIndexInterval(w, r, PickIndex(w, r));
  }

  /** A click on the spin button. */
  function Spin(s: Ledger, d: Draws): (r: Ledger)
    requires ValidDraws(d)
    ensures s.phase.Spinning? ==> r == s
    ensures s.phase.Idle? && s.spins <= 0 ==> r == s.(notice := NoSpinsLeft)
    ensures s.phase.Idle? && s.spins > 0 ==>
      r.spins == s.spins && r.points == s.points && r.notice == s.notice
      && r.phase.Spinning? && r.phase.prize > 0 && r.phase.rotation == r.rotation
      && 1800.0 < r.rotation <= 2880.0
      && Sectors[SectorAt(UnderPointer(r.rotation), |Sectors|)].prize == r.phase.prize
  {
    if s.phase.Spinning? then s
    else if s.spins <= 0 then s.(notice := NoSpinsLeft)
    else
      var prize := DrawPrize(d.prize);
      var plan := PlanFor(Sectors, prize, d);
      PointerShowsPrize(Sectors, prize, d);
      s.(phase := Spinning(prize, plan.rotation), rotation := plan.rotation)
  }

  /** The completion timer of a spin in flight: spend the spin, credit the
      prize, and fold the rotation back into one turn. */
  function Complete(s: Ledger): (r: Ledger)
    requires s.phase.Spinning?
    ensures r.spins == s.spins - 1
    ensures r.points == s.points + s.phase.prize
    ensures r.phase.Idle? && r.notice == Won(s.phase.prize)
    ensures s.phase.rotation >= 0.0 ==> 0.0 <= r.rotation < 360.0
    ensures UnderPointer(r.rotation) == UnderPointer(s.phase.rotation)
  {
    FoldKeepsPointer(s.phase.rotation);
    var folded := JsRemainder360(s.phase.rotation);
    Ledger(s.spins - 1, s.points + s.phase.prize, Idle, folded, Won(s.phase.prize))
  }

  /** A click on the ad button: one more spin, points untouched. */
  function WatchAd(s: Ledger): (r: Ledger)
    ensures s.phase.Spinning? ==> r == s
    ensures s.phase.Idle? ==>
      r.spins == s.spins + 1 && r.points == s.points && r.phase.Idle?
      && r.rotation == s.rotation && r.notice == AdWatched
  {
    if s.phase.Spinning? then s else s.(spins := s.spins + 1, notice := AdWatched)
  }

  /** A click on the reset button. */
  function Reset(s: Ledger): (r: Ledger)
    ensures s.phase.Spinning? ==> r == s
    ensures s.phase.Idle? ==> r.spins == 1 && r.points == 0 && r.phase.Idle? && r.rotation == 0.0
  {
    if s.phase.Spinning? then s else Initial
  }

  /** What every reachable ledger satisfies: spins and points are never
      negative, a spin in flight holds the credit it will spend and a
      positive prize, and a resting wheel sits within one turn. */
  predicate Inv(s: Ledger) {
    s.spins >= 0 && s.points >= 0
    && (s.phase.Spinning? ==> s.spins >= 1 && s.phase.prize > 0 && s.phase.rotation > 0.0)
    && (s.phase.Idle? ==> 0.0 <= s.rotation < 360.0)
  }

  /** Every step keeps `Inv`; in particular spins never go below zero even
      though they are spent only when the spin completes. */
  lemma InvPreserved(s: Ledger, d: Draws)
    requires Inv(s)
    requires ValidDraws(d)
    ensures Inv(Initial)
    ensures Inv(Spin(s, d))
    ensures s.phase.Spinning? ==> Inv(Complete(s))
    ensures Inv(WatchAd(s))
    ensures Inv(Reset(s))
  {
  }

  /** Reset gives the same ledger whatever came before, so a second reset
      changes nothing. */
  lemma ResetIdempotent(s: Ledger)
    ensures Reset(Reset(s)) == Reset(s)
    ensures s.phase.Idle? ==> Reset(s) == Initial
  {
  }

  /** A spin that starts and completes spends exactly one credit, credits
      exactly the prize on the sector the pointer rests over, and leaves
      the wheel showing that same sector. */
  lemma SpinRoundTrip(s: Ledger, d: Draws)
    requires ValidDraws(d)
    requires s.phase.Idle? && s.spins > 0
    ensures var r := Complete(Spin(s, d));
      var shown := Sectors[SectorAt(UnderPointer(r.rotation), |Sectors|)].prize;
      r.spins == s.spins - 1 && r.points == s.points + shown
      && r.phase.Idle? && r.notice == Won(shown)
  {
  }

  /** The scenario of a fresh page: the one spin succeeds, and the next
      click is refused with the points unchanged. */
  lemma SecondSpinRefused(d1: Draws, d2: Draws)
    requires ValidDraws(d1) && ValidDraws(d2)
    ensures var after := Complete(Spin(Initial, d1));
      after.spins == 0 && after.points > 0
      && Spin(after, d2) == after.(notice := NoSpinsLeft)
  {
  }
}
