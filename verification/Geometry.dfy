/** Points of a stroke and the test that a stroke forms a closed loop.
    Coordinates are exact reals; no square root is taken anywhere: a Euclidean
    distance enters only as a value g with g >= 0 and g * g equal to the squared
    distance. */
module Geometry {

  /** A sampled pointer position, in canvas pixels. */
  datatype Point = Point(x: real, y: real)

  /** Largest distance between the first and last point of a closed stroke. */
  const ClosureThreshold: real := 30.0

  /** Squared Euclidean distance between p and q. */
  function SquaredDistance(p: Point, q: Point): (r: real)
    ensures r >= 0.0
  {
    var dx := q.x - p.x;
    var dy := q.y - p.y;
    SquareNonNegative(dx);
    SquareNonNegative(dy);
    dx * dx + dy * dy
  }

  /** g is the Euclidean distance between p and q. */
  predicate IsDistance(g: real, p: Point, q: Point)
  {
    g >= 0.0 && g * g == SquaredDistance(p, q)
  }

  /** The stroke ends close to where it started: the squared gap between the
      first and the last point is below the squared threshold, which is the
      Euclidean gap being below the threshold. */
  predicate IsShapeClosed(points: seq<Point>): (closed: bool)
    requires |points| > 0
    ensures forall gap :: IsDistance(gap, points[0], Last(points)) ==>
      (closed <==> gap < ClosureThreshold)
  {
    EveryGapBelowIffSquareBelow(points[0], Last(points));
    SquaredDistance(points[0], Last(points)) < ClosureThreshold * ClosureThreshold
  }

  function Last(points: seq<Point>): Point
    requires |points| > 0
  {
    points[|points| - 1]
  }

  /** Comparing a Euclidean distance with the threshold is comparing its square
      with the squared threshold. */
  lemma GapBelowIffSquareBelow(p: Point, q: Point, gap: real)
    requires IsDistance(gap, p, q)
    ensures gap < ClosureThreshold <==> SquaredDistance(p, q) < ClosureThreshold * ClosureThreshold
  {
    if gap < ClosureThreshold {
      SquareStrictlyMonotone(gap, ClosureThreshold);
    } else {
      SquareMonotone(ClosureThreshold, gap);
    }
  }

  lemma EveryGapBelowIffSquareBelow(p: Point, q: Point)
    ensures forall gap :: IsDistance(gap, p, q) ==>
      (gap < ClosureThreshold <==> SquaredDistance(p, q) < ClosureThreshold * ClosureThreshold)
  {
    forall gap | IsDistance(gap, p, q)
      ensures gap < ClosureThreshold <==> SquaredDistance(p, q) < ClosureThreshold * ClosureThreshold
    {
      GapBelowIffSquareBelow(p, q, gap);
    }
  }

  lemma SquareNonNegative(a: real)
    ensures a * a >= 0.0
  {
    if a < 0.0 {
      assert a * a == (-a) * (-a);
    }
  }

  lemma SquareMonotone(a: real, b: real)
    requires 0.0 <= a <= b
    ensures a * a <= b * b
  {
    assert a * a <= a * b;
    assert a * b <= b * b;
  }

  lemma SquareStrictlyMonotone(a: real, b: real)
    requires 0.0 <= a < b
    ensures a * a < b * b
  {
    calc {
      a * a;
    <=  { assert a * (b - a) >= 0.0; }
      a * b;
    <  { assert (b - a) * b > 0.0; }
      b * b;
    }
  }
}
