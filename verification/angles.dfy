/** Degrees on the wheel, whole turns, and which sector sits under the fixed
    pointer at the top of the wheel.

    Angles are measured clockwise from the top, in the wheel's own frame; a
    CSS `rotate(a)` turns the wheel clockwise by `a` degrees, so the wheel
    point at angle `p` ends up at screen angle `p + a`. */
module Angles {

  /** `d` is a whole number of turns (an integer multiple of 360). */
  predicate WholeTurns(d: real) {
    (d / 360.0).Floor as real == d / 360.0
  }

  /** Two angles that differ by whole turns show the wheel in the same
      position. */
  predicate Congruent(a: real, b: real) {
    WholeTurns(a - b)
  }

  /** The representative of `x` in `[0, 360)`, a floor-based modulo. */
  function Mod360(x: real): (m: real)
    ensures 0.0 <= m < 360.0
    ensures Congruent(x, m)
  {
    var F := (x / 360.0).Floor;
    assert (x - (x - 360.0 * (F as real))) / 360.0 == F as real;
    x - 360.0 * (F as real)
  }

  /** Congruent angles have the same representative. */
  lemma CongruentSameMod(a: real, b: real)
    requires Congruent(a, b)
    ensures Mod360(a) == Mod360(b)
  {
    var k := ((a - b) / 360.0).Floor;
    assert a / 360.0 == b / 360.0 + k as real;
    assert (a / 360.0).Floor == (b / 360.0).Floor + k;
  }

  /** JavaScript's `x % 360`: the quotient is truncated toward zero, so the
      remainder takes the sign of the dividend. */
  function JsRemainder360(x: real): (r: real)
    ensures x >= 0.0 ==> 0.0 <= r < 360.0
    ensures x < 0.0 ==> -360.0 < r <= 0.0
    ensures Congruent(x, r)
    ensures x >= 0.0 ==> r == Mod360(x)
  {
    var q := x / 360.0;
    var t := if q >= 0.0 then q.Floor else -((-q).Floor);
    assert (x - (x - 360.0 * (t as real))) / 360.0 == t as real;
    x - 360.0 * (t as real)
  }

  /** The wheel angle under the fixed top pointer once the wheel has been
      turned clockwise by `rotation`: the one point in `[0, 360)` that the
      rotation carries to the top. */
  function UnderPointer(rotation: real): (p: real)
    ensures 0.0 <= p < 360.0
    ensures Congruent(p + rotation, 0.0)
  {
    var F := ((-rotation) / 360.0).Floor;
    assert (Mod360(-rotation) + rotation - 0.0) / 360.0 == (-F) as real;
    Mod360(-rotation)
  }

  /** Width of each of `n` equal sectors. */
  function SectorWidth(n: nat): (w: real)
    requires n > 0
  {
    360.0 / (n as real)
  }

  /** Index of the sector, among `n` equal sectors laid out clockwise from
      the top, that contains the wheel angle `p`. */
  function SectorAt(p: real, n: nat): (i: nat)
    requires n > 0
    requires 0.0 <= p < 360.0
    ensures i < n
    ensures (i as real) * SectorWidth(n) <= p < ((i + 1) as real) * SectorWidth(n)
  {
    var w := SectorWidth(n);
    var q := p / w;
    assert q < n as real;
    q.Floor
  }

  /** Folding a rotation with JavaScript's `% 360` does not move the wheel:
      the same wheel angle stays under the pointer. */
  lemma FoldKeepsPointer(x: real)
    ensures UnderPointer(JsRemainder360(x)) == UnderPointer(x)
  {
  }
}
