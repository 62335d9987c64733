/** Scoring a closed stroke against the target circle: every point's distance
    from the centre is compared with the target radius, the stroke is turned
    away if one point strays too far, and otherwise the average deviation is
    turned into an accuracy percentage. */
module Scorer {
  import opened Geometry

  /** Radius of the circle the player is asked to draw. */
  const TargetRadius: real := 100.0

  /** Fraction of the radius one point may deviate before the stroke is turned away. */
  const AllowedDeviationRatio: real := 0.3

  /** Which of the two checks before scoring turned a stroke away. */
  datatype Rejection = TooShort | NotClosed

  /** What the player is told about a finished stroke. */
  datatype Verdict =
    | Rejected(reason: Rejection)
    | TooFar(maxDeviation: real)
    | Accepted(accuracy: real)

  /** ds[i] is the Euclidean distance of points[i] from the centre. */
  predicate AreCentreDistances(points: seq<Point>, centre: Point, ds: seq<real>)
  {
    |ds| == |points| &&
    forall i :: 0 <= i < |ds| ==> IsDistance(ds[i], points[i], centre)
  }

  function Abs(x: real): (r: real)
  {
    if x < 0.0 then -x else x
  }

  /** How far a point at distance d from the centre lies off the circle. */
  function Deviation(d: real, radius: real): (r: real)
    ensures r >= 0.0
    ensures r == d - radius || r == radius - d
  {
    Abs(d - radius)
  }

  /** Sum of the deviations of ds, added up left to right. */
  function SumDeviation(ds: seq<real>, radius: real): (r: real)
    ensures r >= 0.0
  {
    if ds == [] then 0.0
    else SumDeviation(ds[..|ds| - 1], radius) + Deviation(ds[|ds| - 1], radius)
  }

  /** Running maximum of the deviations of ds, starting from 0. */
  function MaxDeviation(ds: seq<real>, radius: real): (r: real)
    ensures r >= 0.0
    ensures forall i :: 0 <= i < |ds| ==> Deviation(ds[i], radius) <= r
    ensures ds == [] ==> r == 0.0
    ensures ds != [] ==> exists i :: 0 <= i < |ds| && r == Deviation(ds[i], radius)
  {
    if ds == [] then 0.0
    else
      var front := ds[..|ds| - 1];
      var m := MaxDeviation(front, radius);
      var deviation := Deviation(ds[|ds| - 1], radius);
      assert forall i :: 0 <= i < |front| ==> ds[i] == front[i];
      if deviation > m then deviation
      else
        assert front == [] ==> m == deviation;
        m
  }

  /** The score for an average deviation: 100 minus twice the average, never below 0. */
  function Accuracy(averageDeviation: real): (r: real)
    ensures r >= 0.0
    ensures averageDeviation >= 0.0 ==> r <= 100.0
  {
    var penalised := 100.0 - averageDeviation * 2.0;
    if penalised > 0.0 then penalised else 0.0
  }

  /** The verdict on a stroke whose points lie at distances ds from the centre. */
  function Score(ds: seq<real>, radius: real): (v: Verdict)
    requires |ds| > 0
    ensures !v.Rejected?
    ensures v.TooFar? <==> exists i :: 0 <= i < |ds| && Deviation(ds[i], radius) > radius * AllowedDeviationRatio
    ensures v.Accepted? <==> forall i :: 0 <= i < |ds| ==> Deviation(ds[i], radius) <= radius * AllowedDeviationRatio
  {
    var maxDeviation := MaxDeviation(ds, radius);
    var averageDeviation := SumDeviation(ds, radius) / |ds| as real;
    if maxDeviation > radius * AllowedDeviationRatio then TooFar(maxDeviation)
    else Accepted(Accuracy(averageDeviation))
  }

  /** The scoring pass: one loop accumulates the sum and the maximum of the
      deviations, then the maximum gates the verdict. */
  method CalculateAccuracy(ds: seq<real>, radius: real) returns (v: Verdict)
    requires |ds| > 0
    ensures v == Score(ds, radius)
  {
    var sumDeviation := 0.0;
    var maxDeviation := 0.0;
    var count := |ds|;
    var i := 0;
    while i < count
      invariant 0 <= i <= count
      invariant sumDeviation == SumDeviation(ds[..i], radius)
      invariant maxDeviation == MaxDeviation(ds[..i], radius)
    {
      assert ds[..i + 1][..i] == ds[..i];
      var deviation := Abs(ds[i] - radius);
      sumDeviation := sumDeviation + deviation;
      if deviation > maxDeviation {
        maxDeviation := deviation;
      }
      i := i + 1;
    }
    assert ds[..count] == ds;
    var averageDeviation := sumDeviation / count as real;
    var maxAllowedDeviation := radius * AllowedDeviationRatio;
    var accuracy := Accuracy(averageDeviation);
    if maxDeviation > maxAllowedDeviation {
      v := TooFar(maxDeviation);
    } else {
      v := Accepted(accuracy);
    }
  }

  /** A sum of deviations, each at most bound, is at most |ds| times bound. */
  lemma {:induction false} SumDeviationAtMost(ds: seq<real>, radius: real, bound: real)
    requires forall i :: 0 <= i < |ds| ==> Deviation(ds[i], radius) <= bound
    ensures SumDeviation(ds, radius) <= |ds| as real * bound
  {
    if ds != [] {
      var front := ds[..|ds| - 1];
      assert forall i :: 0 <= i < |front| ==> front[i] == ds[i];
      SumDeviationAtMost(front, radius, bound);
      var k := |front| as real;
      assert |ds| as real == k + 1.0;
      assert SumDeviation(ds, radius) <= k * bound + bound;
      MulSucc(k, bound);
    }
  }

  /** The average of deviations that are each at most bound is at most bound. */
  lemma AverageAtMost(ds: seq<real>, radius: real, bound: real)
    requires |ds| > 0
    requires forall i :: 0 <= i < |ds| ==> Deviation(ds[i], radius) <= bound
    ensures 0.0 <= SumDeviation(ds, radius) / |ds| as real <= bound
  {
    var n := |ds| as real;
    var sum := SumDeviation(ds, radius);
    SumDeviationAtMost(ds, radius, bound);
    DivAtMost(sum, n, bound);
    DivNonNegative(sum, n);
  }

  /** The average deviation lies between 0 and the maximum deviation. */
  lemma AverageAtMostMax(ds: seq<real>, radius: real)
    requires |ds| > 0
    ensures 0.0 <= SumDeviation(ds, radius) / |ds| as real <= MaxDeviation(ds, radius)
  {
    AverageAtMost(ds, radius, MaxDeviation(ds, radius));
  }

  /** An accepted stroke scores between 100 - 0.6 * radius and 100, and never below 0. */
  lemma AcceptedAccuracyBounds(ds: seq<real>, radius: real)
    requires |ds| > 0
    requires Score(ds, radius).Accepted?
    ensures 0.0 <= Score(ds, radius).accuracy <= 100.0
    ensures 100.0 - 2.0 * radius * AllowedDeviationRatio <= Score(ds, radius).accuracy
  {
    AverageAtMostMax(ds, radius);
  }

  /** With the game's radius of 100, an accepted stroke scores at least 40. */
  lemma AcceptedAtLeastForty(ds: seq<real>)
    requires |ds| > 0
    requires Score(ds, TargetRadius).Accepted?
    ensures 40.0 <= Score(ds, TargetRadius).accuracy <= 100.0
  {
    AcceptedAccuracyBounds(ds, TargetRadius);
  }

  /** A larger average deviation never scores higher. */
  lemma AccuracyNonIncreasing(a: real, b: real)
    requires a <= b
    ensures Accuracy(b) <= Accuracy(a)
  {
  }

  /** Every deviation of a stroke whose points all lie at distance d is the same. */
  lemma {:induction false} UniformSum(ds: seq<real>, d: real, radius: real)
    requires forall i :: 0 <= i < |ds| ==> ds[i] == d
    ensures SumDeviation(ds, radius) == |ds| as real * Deviation(d, radius)
  {
    if ds != [] {
      var front := ds[..|ds| - 1];
      assert forall i :: 0 <= i < |front| ==> front[i] == ds[i];
      UniformSum(front, d, radius);
      var k := |front| as real;
      var dev := Deviation(d, radius);
      assert |ds| as real == k + 1.0;
      assert SumDeviation(ds, radius) == k * dev + dev;
      MulSucc(k, dev);
    }
  }

  /** A stroke all of whose points lie at distance d from the centre: turned
      away exactly when |d - radius| exceeds the allowance, otherwise scored
      from that one deviation. */
  lemma UniformStroke(ds: seq<real>, d: real, radius: real)
    requires |ds| > 0
    requires forall i :: 0 <= i < |ds| ==> ds[i] == d
    ensures Score(ds, radius) ==
      if Abs(d - radius) > radius * AllowedDeviationRatio then TooFar(Abs(d - radius))
      else Accepted(Accuracy(Abs(d - radius)))
  {
    var n := |ds| as real;
    var dev := Deviation(d, radius);
    UniformSum(ds, d, radius);
    assert SumDeviation(ds, radius) == n * dev;
    MulDivCancel(n, dev);
    assert SumDeviation(ds, radius) / n == dev;
    assert MaxDeviation(ds, radius) == dev;
  }

  /** Strokes drawn exactly on the circle, 30 pixels outside it, and 31 pixels outside it. */
  lemma UniformStrokeExamples(ds: seq<real>)
    requires |ds| > 0
    ensures (forall i :: 0 <= i < |ds| ==> ds[i] == 100.0) ==> Score(ds, TargetRadius) == Accepted(100.0)
    ensures (forall i :: 0 <= i < |ds| ==> ds[i] == 130.0) ==> Score(ds, TargetRadius) == Accepted(40.0)
    ensures (forall i :: 0 <= i < |ds| ==> ds[i] == 131.0) ==> Score(ds, TargetRadius) == TooFar(31.0)
  {
    if forall i :: 0 <= i < |ds| ==> ds[i] == 100.0 {
      UniformStroke(ds, 100.0, TargetRadius);
    }
    if forall i :: 0 <= i < |ds| ==> ds[i] == 130.0 {
      UniformStroke(ds, 130.0, TargetRadius);
    }
    if forall i :: 0 <= i < |ds| ==> ds[i] == 131.0 {
      UniformStroke(ds, 131.0, TargetRadius);
    }
  }

  /** p lies in the ring around the centre whose radii are radius minus and
      plus the allowed deviation; stated on squared distances. */
  predicate InAllowedRing(p: Point, centre: Point, radius: real)
  {
    var inner := radius - radius * AllowedDeviationRatio;
    var outer := radius + radius * AllowedDeviationRatio;
    inner * inner <= SquaredDistance(p, centre) <= outer * outer
  }

  /** One point: its deviation is within the allowance exactly when it lies in the ring. */
  lemma WithinAllowanceIffInRing(p: Point, centre: Point, d: real, radius: real)
    requires radius >= 0.0
    requires IsDistance(d, p, centre)
    ensures Deviation(d, radius) <= radius * AllowedDeviationRatio <==> InAllowedRing(p, centre, radius)
  {
    var inner := radius - radius * AllowedDeviationRatio;
    var outer := radius + radius * AllowedDeviationRatio;
    assert 0.0 <= inner <= outer;
    if inner <= d <= outer {
      SquareMonotone(inner, d);
      SquareMonotone(d, outer);
    } else if d < inner {
      SquareStrictlyMonotone(d, inner);
    } else {
      SquareStrictlyMonotone(outer, d);
    }
  }

  /** A stroke is accepted by the scorer exactly when every point lies in the
      ring between 0.7 and 1.3 times the radius; no square root is needed to say so. */
  lemma AcceptedIffAllInRing(points: seq<Point>, centre: Point, ds: seq<real>, radius: real)
    requires radius >= 0.0
    requires |points| > 0
    requires AreCentreDistances(points, centre, ds)
    ensures Score(ds, radius).Accepted? <==> forall i :: 0 <= i < |points| ==> InAllowedRing(points[i], centre, radius)
  {
    forall i | 0 <= i < |points|
      ensures Deviation(ds[i], radius) <= radius * AllowedDeviationRatio <==> InAllowedRing(points[i], centre, radius)
    {
      WithinAllowanceIffInRing(points[i], centre, ds[i], radius);
    }
  }

  lemma MulSucc(k: real, b: real)
    ensures k * b + b == (k + 1.0) * b
  {
  }

  lemma DivAtMost(s: real, n: real, m: real)
    requires n > 0.0
    requires s <= n * m
    ensures s / n <= m
  {
  }

  lemma DivNonNegative(s: real, n: real)
    requires n > 0.0 && s >= 0.0
    ensures s / n >= 0.0
  {
  }

  lemma MulDivCancel(n: real, a: real)
    requires n > 0.0
    ensures n * a / n == a
  {
  }
}
