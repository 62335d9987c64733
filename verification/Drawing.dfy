/** One drawing session: the pointer handlers that capture a stroke, the
    rotating colour index, and the end-of-stroke decision that either turns
    the stroke away or hands it to the scorer. */
module Drawing {
  import opened Geometry
  import opened Scorer

  /** The colours the stroke cycles through. */
  const Palette: seq<string> := ["gold", "blue", "green", "white", "orange"]

  /** The colour advances each time the stroke reaches a multiple of this many points. */
  const PointsPerColour: nat := 10

  /** Points a stroke needs before it is scored at all. */
  const MinPoints: nat := 20

  /** Colour index once the stroke has grown to newLength points. */
  function NextColourIndex(index: int, newLength: nat): (r: int)
    ensures 0 <= index < |Palette| ==> 0 <= r < |Palette|
    ensures newLength % PointsPerColour != 0 ==> r == index
    ensures newLength % PointsPerColour == 0 && 0 <= index < |Palette| ==>
      r == if index == |Palette| - 1 then 0 else index + 1
  {
    if newLength % PointsPerColour == 0 then (index + 1) % |Palette| else index
  }

  /** Colour index after n points have been drawn into a freshly emptied stroke. */
  function ColourAfter(index: int, n: nat): (r: int)
    ensures 0 <= index < |Palette| ==> 0 <= r < |Palette|
  {
    if n == 0 then index else NextColourIndex(ColourAfter(index, n - 1), n)
  }

  /** Over one stroke the colour advances once per ten points, wrapping round the palette. */
  lemma {:induction false} ColourAfterClosedForm(index: int, n: nat)
    requires 0 <= index < |Palette|
    ensures ColourAfter(index, n) == (index + n / PointsPerColour) % |Palette|
  {
    if n > 0 {
      ColourAfterClosedForm(index, n - 1);
      var a := index + (n - 1) / PointsPerColour;
      var previous := ColourAfter(index, n - 1);
      assert previous == a % |Palette|;
      assert ColourAfter(index, n) == NextColourIndex(previous, n);
      if n % PointsPerColour == 0 {
        assert n / PointsPerColour == (n - 1) / PointsPerColour + 1;
        WrapStep(a);
      } else {
        assert n / PointsPerColour == (n - 1) / PointsPerColour;
      }
    }
  }

  lemma WrapStep(a: int)
    requires a >= 0
    ensures (a % |Palette| + 1) % |Palette| == (a + 1) % |Palette|
  {
  }

  /** What the end of a stroke decides: too short and open strokes are turned
      away before the scorer runs; ds holds the points' distances from the centre. */
  function Judge(points: seq<Point>, ds: seq<real>): (v: Verdict)
    requires |ds| == |points|
    ensures v.Rejected? ==> |points| < MinPoints || !IsShapeClosed(points)
    ensures v == Rejected(TooShort) <==> |points| < MinPoints
  {
    if |points| < MinPoints then Rejected(TooShort)
    else if !IsShapeClosed(points) then Rejected(NotClosed)
    else Score(ds, TargetRadius)
  }

  /** End to end: a stroke is turned away exactly when it has fewer than 20
      points or its ends are 30 pixels or more apart; an accepted stroke scores
      between 40 and 100 and lies wholly in the allowed ring; a stroke rejected
      for deviation has a point outside that ring. */
  lemma JudgeOutcomes(points: seq<Point>, centre: Point, ds: seq<real>, gap: real)
    requires AreCentreDistances(points, centre, ds)
    requires |points| > 0 ==> IsDistance(gap, points[0], points[|points| - 1])
    ensures Judge(points, ds).Rejected? <==> |points| < MinPoints || gap >= ClosureThreshold
    ensures Judge(points, ds).Accepted? ==>
      40.0 <= Judge(points, ds).accuracy <= 100.0 &&
      forall i :: 0 <= i < |points| ==> InAllowedRing(points[i], centre, TargetRadius)
    ensures Judge(points, ds).TooFar? ==>
      Judge(points, ds).maxDeviation > 30.0 &&
      exists i :: 0 <= i < |points| && !InAllowedRing(points[i], centre, TargetRadius)
  {
    if |points| >= MinPoints {
      assert IsShapeClosed(points) <==> gap < ClosureThreshold;
      if IsShapeClosed(points) {
        AcceptedIffAllInRing(points, centre, ds, TargetRadius);
        if Score(ds, TargetRadius).Accepted? {
          AcceptedAtLeastForty(ds);
        }
      }
    }
  }

  /** The state behind the canvas handlers. */
  class Session {
    var isDrawing: bool
    var points: seq<Point>
    var colourIndex: int
    const centre: Point

    /** The colour index always names a palette entry. */
    ghost predicate Valid()
      reads this
    {
      0 <= colourIndex < |Palette|
    }

    /** The state when the page loads: not drawing, no points, the first
        colour, and the target centred on the canvas. */
    constructor (canvasWidth: real, canvasHeight: real)
      ensures Valid()
      ensures !isDrawing && points == [] && colourIndex == 0
      ensures centre == Point(canvasWidth / 2.0, canvasHeight / 2.0)
    {
      isDrawing := false;
      points := [];
      colourIndex := 0;
      centre := Point(canvasWidth / 2.0, canvasHeight / 2.0);
    }

    /** Pointer down: open a stroke and empty the point buffer; the colour carries over. */
    method StartDrawing()
      requires Valid()
      modifies this
      ensures Valid()
      ensures isDrawing && points == [] && colourIndex == old(colourIndex)
    {
      isDrawing := true;
      points := [];
    }

    /** Mouse move at canvas position p: while a stroke is open, append p and
        advance the colour whenever the stroke reaches a multiple of ten points. */
    method Draw(p: Point)
      requires Valid()
      modifies this
      ensures Valid() && isDrawing == old(isDrawing)
      ensures old(isDrawing) ==>
        points == old(points) + [p] &&
        colourIndex == NextColourIndex(old(colourIndex), |points|)
      ensures !old(isDrawing) ==> points == old(points) && colourIndex == old(colourIndex)
    {
      if !isDrawing {
        return;
      }
      points := points + [p];
      if |points| % PointsPerColour == 0 {
        colourIndex := (colourIndex + 1) % |Palette|;
      }
    }

    /** Touch move, with p already translated to canvas coordinates: the same as Draw. */
    method DrawTouch(p: Point)
      requires Valid()
      modifies this
      ensures Valid() && isDrawing == old(isDrawing)
      ensures old(isDrawing) ==>
        points == old(points) + [p] &&
        colourIndex == NextColourIndex(old(colourIndex), |points|)
      ensures !old(isDrawing) ==> points == old(points) && colourIndex == old(colourIndex)
    {
      Draw(p);
    }

    /** Pointer up: close the stroke and judge it. ds are the distances of the
        points from the centre. The points are kept, so a second pointer up
        judges the same stroke again. */
    method EndDrawing(ds: seq<real>) returns (v: Verdict)
      requires Valid()
      requires AreCentreDistances(points, centre, ds)
      modifies this
      ensures Valid()
      ensures !isDrawing && points == old(points) && colourIndex == old(colourIndex)
      ensures v == Judge(points, ds)
    {
      isDrawing := false;
      if |points| < MinPoints {
        v := Rejected(TooShort);
      } else if !IsShapeClosed(points) {
        v := Rejected(NotClosed);
      } else {
        v := CalculateAccuracy(ds, TargetRadius);
      }
    }
  }
}
