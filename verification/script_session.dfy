/** The second widget's counters: restore at startup, the spin button that
    spends a credit at once, and the completion timer that credits the
    reward.

    The spin button is never disabled and the handler has no in-flight
    flag, so presses can overlap; each schedules its own completion. All
    completions wait the same 5200 ms, so they fire in the order of the
    presses, and the queue `pending` holds the rewards still to be
    credited, oldest first. */
module ScriptSession {
  import opened Wrappers
  import opened Weights
  import opened RewardDraw
  import opened Restore

  /** The ten sectors of the second wheel, each with the number its label
      spells. */
  const Rewards: seq<Weighted> := [
    Weighted(10, 30.0), Weighted(15, 25.0), Weighted(20, 25.0), Weighted(30, 15.0),
    Weighted(50, 10.0), Weighted(55, 10.0), Weighted(80, 6.0), Weighted(100, 4.0),
    Weighted(150, 3.0), Weighted(200, 2.0)
  ]

  /** The table's weights are positive and add up to 130, and every label
      spells a positive number. */
  lemma RewardsTable()
    ensures forall i :: 0 <= i < |Rewards| ==> Rewards[i].value > 0
    ensures AllPositive(WeightsOf(Rewards))
    ensures Total(WeightsOf(Rewards)) == 130.0
  {
    assert WeightsOf(Rewards) == [30.0, 25.0, 25.0, 15.0, 10.0, 10.0, 6.0, 4.0, 3.0, 2.0];
  }

  /** `points`, `spinsLeft`, the rewards awaiting their timer, and the
      canvas rotation (`None` before the first spin). */
  datatype Session = Session(points: int, spinsLeft: int, pending: seq<int>, angle: Option<real>)

  /** Default counters used when nothing usable is stored. */
  const DefaultPoints: int := 0
  const DefaultSpins: int := 5

  /** The counters at page load, from the two stored values. */
  function Start(storedPoints: Option<string>, storedSpins: Option<string>): (s: Session)
    ensures storedPoints == None ==> s.points == 0
    ensures ToNumber(storedPoints).Num? && ToNumber(storedPoints).value != 0
      ==> s.points == ToNumber(storedPoints).value
    ensures ToNumber(storedPoints) == NaN || ToNumber(storedPoints) == Num(0) ==> s.points == 0
    ensures storedSpins == None ==> s.spinsLeft == 5
    ensures ToNumber(storedSpins).Num? && ToNumber(storedSpins).value != 0
      ==> s.spinsLeft == ToNumber(storedSpins).value
    ensures ToNumber(storedSpins) == NaN || ToNumber(storedSpins) == Num(0) ==> s.spinsLeft == 5
    ensures s.pending == [] && s.angle == None
  {
    Session(RestoreOr(storedPoints, DefaultPoints), RestoreOr(storedSpins, DefaultSpins), [], None)
  }

  /** `(Math.random() * 360) + (360 * 5)`: the canvas rotation, drawn on its
      own and unrelated to the reward. */
  function FinalAngle(u: real): (a: real)
    requires 0.0 <= u < 1.0
    ensures 1800.0 <= a < 2160.0
  {
    u * 360.0 + 360.0 * 5.0
  }

  /** The reward for the draw `u` in `[0, 1)`: always one of the labels. */
  function DrawReward(u: real): (v: int)
    requires 0.0 <= u < 1.0
    ensures v > 0
    ensures exists i :: 0 <= i < |Rewards| && Rewards[i].value == v
  {
    RewardsTable();
    var w := WeightsOf(Rewards);
    RewardInterval(Rewards, u * Total(w), 0);
    GetReward(Rewards, u * Total(w)).value
  }

  /** A press of the spin button with reward draw `u` and angle draw `a`. */
  function Press(s: Session, u: real, a: real): (r: Session)
    requires 0.0 <= u < 1.0 && 0.0 <= a < 1.0
    ensures s.spinsLeft <= 0 ==> r == s
    ensures s.spinsLeft > 0 ==>
      r.spinsLeft == s.spinsLeft - 1 && r.points == s.points
      && |r.pending| == |s.pending| + 1 && r.pending[..|s.pending|] == s.pending
      && (exists i :: 0 <= i < |Rewards| && Rewards[i].value == r.pending[|s.pending|])
      && r.angle.Some? && 1800.0 <= r.angle.value < 2160.0
  {
    if s.spinsLeft <= 0 then s
    else
      s.(spinsLeft := s.spinsLeft - 1,
         pending := s.pending + [DrawReward(u)],
         angle := Some(FinalAngle(a)))
  }

  /** The oldest completion timer fires: `points += Number(reward)`. */
  function Complete(s: Session): (r: Session)
    requires |s.pending| > 0
    ensures r.points == s.points + s.pending[0]
    ensures r.spinsLeft == s.spinsLeft && r.angle == s.angle
    ensures [s.pending[0]] + r.pending == s.pending
  {
    s.(points := s.points + s.pending[0], pending := s.pending[1..])
  }

  /** Total of the rewards still to be credited. */
  function Owed(q: seq<int>): (total: int)
    decreases |q|
  {
    if |q| == 0 then 0 else q[0] + Owed(q[1..])
  }

  lemma {:induction false} OwedAppend(q: seq<int>, v: int)
    ensures Owed(q + [v]) == Owed(q) + v
    decreases |q|
  {
    if |q| > 0 {
      assert (q + [v])[1..] == q[1..] + [v];
      OwedAppend(q[1..], v);
    }
  }

  /** Points earned plus points owed: a press raises it by exactly the
      reward it queued, and a completion only moves that reward from owed
      to earned. */
  function Promised(s: Session): (p: int) {
    s.points + Owed(s.pending)
  }

  lemma PromisedAccounting(s: Session, u: real, a: real)
    requires 0.0 <= u < 1.0 && 0.0 <= a < 1.0
    ensures s.spinsLeft > 0 ==>
      Promised(Press(s, u, a)) == Promised(s) + Press(s, u, a).pending[|s.pending|]
    ensures s.spinsLeft <= 0 ==> Promised(Press(s, u, a)) == Promised(s)
    ensures |s.pending| > 0 ==> Promised(Complete(s)) == Promised(s)
  {
    if s.spinsLeft > 0 {
      var r := Press(s, u, a);
      assert r.pending == s.pending + [r.pending[|s.pending|]];
      OwedAppend(s.pending, r.pending[|s.pending|]);
    }
  }

  /** Without an in-flight guard two quick presses both spend: with two or
      more credits the second press lands while the first reward is still
      owed, and two credits are gone before either is credited. */
  lemma OverlappingPressesSpendTwice(s: Session, u1: real, a1: real, u2: real, a2: real)
    requires 0.0 <= u1 < 1.0 && 0.0 <= a1 < 1.0 && 0.0 <= u2 < 1.0 && 0.0 <= a2 < 1.0
    requires s.spinsLeft >= 2
    ensures var r := Press(Press(s, u1, a1), u2, a2);
      r.spinsLeft == s.spinsLeft - 2 && r.points == s.points
      && |r.pending| == |s.pending| + 2
  {
  }

  /** The canvas angle of a press depends on its own draw only: changing
      the reward draw leaves it as it was. */
  lemma AngleIndependentOfReward(s: Session, u1: real, u2: real, a: real)
    requires 0.0 <= u1 < 1.0 && 0.0 <= u2 < 1.0 && 0.0 <= a < 1.0
    requires s.spinsLeft > 0
    ensures Press(s, u1, a).angle == Press(s, u2, a).angle == Some(FinalAngle(a))
  {
  }

  /** A saved zero spins comes back as five at the next page load, while a
      saved positive count comes back as itself. */
  lemma ZeroSpinsRestoreAsDefault(points: int, spins: int)
    ensures Start(Some(Show(points)), Some(Show(spins))).spinsLeft
        == if spins != 0 then spins else DefaultSpins
    ensures Start(Some(Show(points)), Some(Show(spins))).points == points
  {
    SaveThenRestore(points, DefaultPoints);
    SaveThenRestore(spins, DefaultSpins);
  }
}
