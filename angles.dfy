/**
 * Angle and distance conventions of the layout builder
 * (src/Layout/_Layout_utilFuncs.py). Degrees are `real`; Python's `%` on a
 * float takes the sign of the divisor, `x % m == x - m * floor(x / m)`.
 */
module Angles {

  /** Python's `x % m` for a non-zero divisor. */
  function PyMod(x: real, m: real): real
    requires m != 0.0
  {
    x - m * ((x / m).Floor as real)
  }

  /** `x % 360` lies in [0, 360) and differs from `x` by a whole number of turns. */
  lemma Mod360Range(x: real)
    ensures 0.0 <= PyMod(x, 360.0) < 360.0
    ensures PyMod(x, 360.0) == x - 360.0 * ((x / 360.0).Floor as real)
  {
  }

  /** `x % -360` lies in (-360, 0]. */
  lemma ModMinus360Range(x: real)
    ensures -360.0 < PyMod(x, -360.0) <= 0.0
  {
  }

  /** `x % 360` is the unique representative of `x` in [0, 360). */
  lemma {:induction false} Mod360Unique(x: real, k: int)
    requires 0.0 <= x - 360.0 * (k as real) < 360.0
    ensures PyMod(x, 360.0) == x - 360.0 * (k as real)
  {
    var f := (x / 360.0).Floor;
    assert (k as real) <= x / 360.0 < (k as real) + 1.0;
    assert f == k;
  }

  /** `x % -360` is the unique representative of `x` in (-360, 0]. */
  lemma {:induction false} ModMinus360Unique(x: real, k: int)
    requires -360.0 < x - 360.0 * (k as real) <= 0.0
    ensures PyMod(x, -360.0) == x - 360.0 * (k as real)
  {
    var f := (x / -360.0).Floor;
    assert -(k as real) <= x / -360.0 < -(k as real) + 1.0;
    assert f == -k;
  }

  /**
   * `convert_bearing_to_heading`: a compass bearing (clockwise from north)
   * as a mathematical heading, in [0, 360) by default and in (-180, 180]
   * when `headingFrom0To360` is false.
   */
  function BearingToHeading(bearing: real, headingFrom0To360: bool): (heading: real)
    ensures headingFrom0To360 ==> 0.0 <= heading < 360.0
    ensures !headingFrom0To360 ==> -180.0 < heading <= 180.0
  {
    Mod360Range(90.0 - bearing);
    ModMinus360Range(-90.0 - bearing);
    if headingFrom0To360 then PyMod(90.0 - bearing, 360.0)
    else PyMod(-90.0 - bearing, -360.0) + 180.0
  }

  /** `convert_heading_to_bearing` without rounding: a heading as a bearing in [0, 360). */
  function HeadingToBearing(heading: real): (bearing: real)
    ensures 0.0 <= bearing < 360.0
  {
    Mod360Range(90.0 - heading);
    PyMod(90.0 - heading, 360.0)
  }

  /** The conversion table documented for bearing to heading. */
  lemma BearingToHeadingTable()
    ensures BearingToHeading(0.0, true) == 90.0
    ensures BearingToHeading(90.0, true) == 0.0
    ensures BearingToHeading(180.0, true) == 270.0
    ensures BearingToHeading(270.0, true) == 180.0
  {
    Mod360Unique(90.0, 0);
    Mod360Unique(0.0, 0);
    Mod360Unique(-90.0, -1);
    Mod360Unique(-180.0, -1);
  }

  /** The conversion table documented for heading to bearing. */
  lemma HeadingToBearingTable()
    ensures HeadingToBearing(0.0) == 90.0
    ensures HeadingToBearing(90.0) == 0.0
    ensures HeadingToBearing(180.0) == 270.0
    ensures HeadingToBearing(270.0) == 180.0
  {
    Mod360Unique(90.0, 0);
    Mod360Unique(0.0, 0);
    Mod360Unique(-90.0, -1);
    Mod360Unique(-180.0, -1);
  }

  /**
   * The signed heading is the default heading moved into (-180, 180]: the
   * same angle, less one full turn when the default exceeds 180.
   */
  lemma {:induction false} SignedHeadingAgreesWithDefault(bearing: real)
    ensures var d := BearingToHeading(bearing, true);
            BearingToHeading(bearing, false) == if d <= 180.0 then d else d - 360.0
  {
    var d := BearingToHeading(bearing, true);
    var k := ((90.0 - bearing) / 360.0).Floor;
    Mod360Range(90.0 - bearing);
    assert d == 90.0 - bearing - 360.0 * (k as real);
    if d <= 180.0 {
      ModMinus360Unique(-90.0 - bearing, k);
    } else {
      ModMinus360Unique(-90.0 - bearing, k + 1);
    }
  }

  /** Heading to bearing undoes bearing to heading on [0, 360). */
  lemma {:induction false} HeadingToBearingInverse(bearing: real)
    requires 0.0 <= bearing < 360.0
    ensures HeadingToBearing(BearingToHeading(bearing, true)) == bearing
  {
    var k := ((90.0 - bearing) / 360.0).Floor;
    Mod360Range(90.0 - bearing);
    var h := BearingToHeading(bearing, true);
    assert h == 90.0 - bearing - 360.0 * (k as real);
    Mod360Unique(90.0 - h, k);
  }

  /** Bearing to heading undoes heading to bearing on [0, 360). */
  lemma {:induction false} BearingToHeadingInverse(heading: real)
    requires 0.0 <= heading < 360.0
    ensures BearingToHeading(HeadingToBearing(heading), true) == heading
  {
    var k := ((90.0 - heading) / 360.0).Floor;
    Mod360Range(90.0 - heading);
    var b := HeadingToBearing(heading);
    assert b == 90.0 - heading - 360.0 * (k as real);
    Mod360Unique(90.0 - b, k);
  }

  /** A point of the drawing's planar frame. */
  datatype Point = Point(x: real, y: real)

  /**
   * The square of `calc_euclidean_dist(p, q)`: the drawing is scaled down by
   * six, so the distance in metres is `6 * sqrt(dx^2 + dy^2)`. The square
   * root itself is not modelled.
   */
  function ScaledDistanceSquared(p: Point, q: Point): (d2: real)
  {
    36.0 * ((p.x - q.x) * (p.x - q.x) + (p.y - q.y) * (p.y - q.y))
  }

  lemma SquareNonNegative(a: real)
    ensures a * a >= 0.0
  {
    if a < 0.0 { assert a * a == (-a) * (-a); }
  }

  /** The scaled distance is symmetric, never negative, and zero between a point and itself. */
  lemma {:induction false} ScaledDistanceProperties(p: Point, q: Point)
    ensures ScaledDistanceSquared(p, q) == ScaledDistanceSquared(q, p)
    ensures ScaledDistanceSquared(p, q) >= 0.0
    ensures ScaledDistanceSquared(p, p) == 0.0
  {
    SquareNonNegative(p.x - q.x);
    SquareNonNegative(p.y - q.y);
    assert (p.x - q.x) * (p.x - q.x) == (q.x - p.x) * (q.x - p.x);
    assert (p.y - q.y) * (p.y - q.y) == (q.y - p.y) * (q.y - p.y);
  }
}
