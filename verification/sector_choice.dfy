/** From an awarded prize to a wheel rotation, in the first widget: the
    random choice among sectors that carry the prize (`sectorIndexForPrize`),
    a random point inside the chosen sector, and the rotation that brings
    that point under the pointer after 5 to 7 extra full turns. */
module SectorChoice {
  import opened Wrappers
  import opened Angles

  /** One wedge of the wheel; sectors are laid out clockwise from the top in
      table order, and `index` records that position. */
  datatype Sector = Sector(prize: int, index: nat)

  /** Positions `k..` of sectors carrying `prize`, in increasing order: the
      `map` to index-or-minus-one followed by the `filter`. */
  function MatchingFrom(sectors: seq<Sector>, prize: int, k: nat): (idxs: seq<nat>)
    requires k <= |sectors|
    ensures forall j :: 0 <= j < |idxs| ==> k <= idxs[j] < |sectors| && sectors[idxs[j]].prize == prize
    ensures forall i :: k <= i < |sectors| && sectors[i].prize == prize ==> i in idxs
    ensures forall a, b :: 0 <= a < b < |idxs| ==> idxs[a] < idxs[b]
    decreases |sectors| - k
  {
    if k == |sectors| then []
    else
      var rest := MatchingFrom(sectors, prize, k + 1);
      if sectors[k].prize == prize then [k] + rest else rest
  }

  function MatchingIndices(sectors: seq<Sector>, prize: int): (idxs: seq<nat>) {
    MatchingFrom(sectors, prize, 0)
  }

  /** `Math.floor(u * n)`: the slot a uniform draw `u` selects among `n`. */
  function Slot(u: real, n: nat): (j: nat)
    requires 0.0 <= u < 1.0
    requires n > 0
    ensures j < n
  {
    assert u * (n as real) < n as real;
    (u * (n as real)).Floor
  }

  /** Each of the `n` slots is chosen by a draw interval of width `1/n`, so
      the tie-break among duplicate sectors is uniform. */
  lemma SlotInterval(u: real, n: nat, j: nat)
    requires 0.0 <= u < 1.0
    requires n > 0
    ensures Slot(u, n) == j <==> (j as real) / (n as real) <= u < ((j + 1) as real) / (n as real)
  {
  }

  /** `sectorIndexForPrize`: a uniformly chosen position among the sectors
      carrying `prize`; `None` stands for the `undefined` that JavaScript
      returns when no sector carries it. */
  function SectorIndexForPrize(sectors: seq<Sector>, prize: int, u: real): (r: Option<nat>)
    requires 0.0 <= u < 1.0
    ensures r.Some? <==> exists i :: 0 <= i < |sectors| && sectors[i].prize == prize
    ensures r.Some? ==> r.value < |sectors| && sectors[r.value].prize == prize
  {
    var idxs := MatchingIndices(sectors, prize);
    if |idxs| == 0 then None else Some(idxs[Slot(u, |idxs|)])
  }

  /** The tie-break is uniform: the `j`-th of the `n` sectors carrying the
      prize is chosen exactly when the draw lies in `[j/n, (j+1)/n)`. */
  lemma TieBreakUniform(sectors: seq<Sector>, prize: int, u: real, j: nat)
    requires 0.0 <= u < 1.0
    requires j < |MatchingIndices(sectors, prize)|
    ensures var idxs := MatchingIndices(sectors, prize);
      var n := |idxs|;
      (SectorIndexForPrize(sectors, prize, u) == Some(idxs[j])
       <==> (j as real) / (n as real) <= u < ((j + 1) as real) / (n as real))
  {
    var idxs := MatchingIndices(sectors, prize);
    var n := |idxs|;
    var k := Slot(u, n);
    SlotInterval(u, n, j);
    if k != j {
      if k < j {
        assert idxs[k] < idxs[j];
      } else {
        assert idxs[j] < idxs[k];
      }
    }
  }

  /** A random point inside sector `idx` of `n`: the sector's start plus a
      fraction `v` of its width. */
  function TargetWithinSector(idx: nat, n: nat, v: real): (t: real)
    requires idx < n
    requires 0.0 <= v < 1.0
    ensures 0.0 <= t < 360.0
    ensures SectorAt(t, n) == idx
  {
    var size := SectorWidth(n);
    var t := (idx as real) * size + v * size;
    WithinSectorBounds(idx as real, v, size, n as real);
    t
  }

  /** The arithmetic behind `TargetWithinSector`, kept apart so that the
      solver sees only the products it needs. */
  lemma WithinSectorBounds(i: real, v: real, size: real, n: real)
    requires 0.0 <= i && i + 1.0 <= n
    requires 0.0 <= v < 1.0
    requires size > 0.0 && n * size == 360.0
    ensures 0.0 <= i * size + v * size < 360.0
    ensures (i * size + v * size) / size == i + v
  {
    assert i * size + v * size == (i + v) * size;
    assert (i + v) * size < n * size;
  }

  /** `5 + Math.floor(u * 3)`: the number of extra full turns. */
  function ExtraSpins(u: real): (e: nat)
    requires 0.0 <= u < 1.0
    ensures 5 <= e <= 7
  {
    5 + Slot(u, 3)
  }

  /** The rotation applied to the wheel: `extra` full turns plus the amount
      that brings the point `t` round to the pointer. It lies in the
      `(extra + 1)`-th turn and leaves `t` exactly under the pointer. */
  function FinalRotation(t: real, extra: nat): (rot: real)
    requires 0.0 <= t < 360.0
    ensures (extra as real) * 360.0 < rot <= ((extra + 1) as real) * 360.0
    ensures WholeTurns(rot + t)
    ensures UnderPointer(rot) == t
  {
    var rot := (extra as real) * 360.0 + (360.0 - t);
    LandsOnTarget(extra, t, rot);
    rot
  }

  /** The arithmetic behind `FinalRotation`: `rot + t` is `extra + 1` whole
      turns, so turning by `rot` brings `t` to the top. */
  lemma LandsOnTarget(extra: nat, t: real, rot: real)
    requires 0.0 <= t < 360.0
    requires rot == (extra as real) * 360.0 + (360.0 - t)
    ensures WholeTurns(rot + t)
    ensures UnderPointer(rot) == t
  {
    var k := extra + 1;
    assert rot + t == (k as real) * 360.0;
    assert (rot + t) / 360.0 == k as real;
    assert (-rot - t) / 360.0 == (-k) as real;
    assert Congruent(-rot, t);
    CongruentSameMod(-rot, t);
  }

  /** The four uniform draws one spin consumes, each in `[0, 1)`. */
  datatype Draws = Draws(prize: real, sector: real, point: real, turns: real)

  predicate ValidDraws(d: Draws) {
    0.0 <= d.prize < 1.0 && 0.0 <= d.sector < 1.0
    && 0.0 <= d.point < 1.0 && 0.0 <= d.turns < 1.0
  }

  /** Where a spin for `prize` will stop. */
  datatype Plan = Plan(sectorIdx: nat, target: real, extra: nat, rotation: real)

  /** The angle arithmetic of `spin` for a prize some sector carries. */
  function PlanFor(sectors: seq<Sector>, prize: int, d: Draws): (p: Plan)
    requires ValidDraws(d)
    requires exists i :: 0 <= i < |sectors| && sectors[i].prize == prize
    ensures p.sectorIdx < |sectors| && sectors[p.sectorIdx].prize == prize
    ensures 5 <= p.extra <= 7
    ensures (p.extra as real) * 360.0 < p.rotation <= ((p.extra + 1) as real) * 360.0
    ensures SectorAt(UnderPointer(p.rotation), |sectors|) == p.sectorIdx
  {
    var idx := SectorIndexForPrize(sectors, prize, d.sector).value;
    var t := TargetWithinSector(idx, |sectors|, d.point);
    var extra := ExtraSpins(d.turns);
    Plan(idx, t, extra, FinalRotation(t, extra))
  }

  /** The pointer lands on a sector carrying the awarded prize, and still
      does after the rotation is folded back with JavaScript's `% 360`. */
  lemma PointerShowsPrize(sectors: seq<Sector>, prize: int, d: Draws)
    requires ValidDraws(d)
    requires exists i :: 0 <= i < |sectors| && sectors[i].prize == prize
    ensures var p := PlanFor(sectors, prize, d);
      sectors[SectorAt(UnderPointer(p.rotation), |sectors|)].prize == prize
      && UnderPointer(JsRemainder360(p.rotation)) == UnderPointer(p.rotation)
  {
    FoldKeepsPointer(PlanFor(sectors, prize, d).rotation);
  }
}
