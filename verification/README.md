# Circle game: stroke capture and scoring

A model of the core of a browser game in which the player draws a freehand
loop and is scored on how close it comes to a circle of radius 100 centred on
the canvas. The model covers the two parts of `script.js` that hold logic:

- the drawing session: the flag `isDrawing`, the point buffer `points` and the
  rotating colour index `currentColorIndex`, changed by the pointer handlers
  `startDrawing`, `draw`, `drawTouch` and `endDrawing` (class
  `Drawing.Session`, with `modifies this` on each handler);
- the judgement of a finished stroke: the length check, the closure check
  `isShapeClosed`, and the scoring pass `calculateAccuracy`, whose loop adds up
  the deviations and keeps their running maximum (method
  `Scorer.CalculateAccuracy`, proved equal to the specification function
  `Scorer.Score`).

Numbers are exact reals. The game's display strings become the datatype
`Verdict = Rejected(TooShort | NotClosed) | TooFar(maxDeviation) |
Accepted(accuracy)`. The game shows one message for both rejections; the
`Rejection` value only records which test fired.

No square root is taken. The squared distance between the ends of a stroke is
compared with 900, and the contract of `Geometry.IsShapeClosed` says that this
is the same as comparing the Euclidean gap with 30. The distances of the points
from the centre, which the game computes with `Math.sqrt`, are passed in as a
sequence `ds`. The predicate `Scorer.AreCentreDistances` ties `ds` to the
points: each `ds[i]` is non-negative and its square is the squared distance of
`points[i]` from the centre. From that, `Scorer.AcceptedIffAllInRing` restates
the deviation gate without roots: a stroke is accepted exactly when every point
lies in the ring between 70 and 130 pixels from the centre.

The scoring formula leaves one question open: the accuracy is clamped at 0
but not at 100. The model settles it. Every deviation is non-negative, so the
average is too, and the accuracy can never exceed 100 (`Scorer.Accuracy`,
`Scorer.AcceptedAccuracyBounds`). On the accepted branch the average is at
most the maximum deviation, which is at most 30, so an accepted stroke always
scores between 40 and 100 (`Scorer.AcceptedAtLeastForty`).

`resetCanvas` (script.js:189-193) clears only the canvas and the score text;
`points`, `isDrawing` and `currentColorIndex` survive a reset, and the model
follows that. It also keeps one consequence of the code: `endDrawing` does
not check `isDrawing`, and the points survive it, so a second pointer-up judges
the same stroke again (`Drawing.Session.EndDrawing` has no precondition on
`isDrawing`).

Files: `Geometry.dfy` (points, squared distance, closure test),
`Scorer.dfy` (deviations, the scoring loop and its specification),
`Drawing.dfy` (colour rotation, the end-of-stroke decision, the session class).

## Model

| member | source | states |
|---|---|---|
| `Geometry.SquaredDistance` | script.js:112 | the squared distance between two points is never negative |
| `Geometry.IsShapeClosed` | script.js:107-115 | the stroke is closed exactly when the squared gap between its first and last points is below `30 * 30`; for every Euclidean gap `g >= 0` with `g * g` equal to that squared gap, it is closed exactly when `g < 30` |
| `Geometry.GapBelowIffSquareBelow` | script.js:112-114 | a Euclidean distance is below 30 exactly when its square is below 900 |
| `Scorer.Deviation` | script.js:135 | a point's deviation is non-negative and equals `d - radius` or `radius - d` |
| `Scorer.SumDeviation` | script.js:119-136 | the accumulated sum of deviations is never negative |
| `Scorer.MaxDeviation` | script.js:120-139 | the running maximum is at least every deviation, is 0 for an empty stroke, and otherwise equals the deviation of some point |
| `Scorer.Accuracy` | script.js:147 | the accuracy is never below 0, and it is at most 100 whenever the average deviation is non-negative |
| `Scorer.Score` | script.js:141-156 | the scorer never rejects for shape; it reports `TooFar` exactly when some point deviates by more than 0.3 times the radius, and accepts exactly when every point is within that allowance |
| `Scorer.CalculateAccuracy` | script.js:118-157 | the loop that accumulates the sum and the maximum of the deviations, followed by the gate, yields exactly the verdict `Score` specifies |
| `Scorer.SumDeviationAtMost` | script.js:134-136 | if every deviation is at most `b`, their sum is at most `n * b` |
| `Scorer.AverageAtMost` | script.js:141 | if every deviation is at most `b`, the average deviation lies in `[0, b]` |
| `Scorer.AverageAtMostMax` | script.js:134-141 | the average deviation lies between 0 and the maximum deviation |
| `Scorer.AcceptedAccuracyBounds` | script.js:141-155 | an accepted accuracy lies in `[0, 100]` and is at least `100 - 0.6 * radius` |
| `Scorer.AcceptedAtLeastForty` | script.js:144-155 | with radius 100, an accepted accuracy lies in `[40, 100]` |
| `Scorer.AccuracyNonIncreasing` | script.js:147 | a larger average deviation never gives a higher accuracy |
| `Scorer.UniformSum` | script.js:134-136 | when every point lies at distance `d`, the sum of deviations is `n * abs(d - radius)` |
| `Scorer.UniformStroke` | script.js:134-156 | when every point lies at distance `d`, the stroke is `TooFar(abs(d - radius))` if that deviation exceeds the allowance, and otherwise `Accepted(Accuracy(abs(d - radius)))` |
| `Scorer.UniformStrokeExamples` | script.js:141-156 | a stroke on the circle scores 100; one 30 pixels outside it scores exactly 40 (the boundary is accepted); one 31 pixels outside it is `TooFar(31)` |
| `Scorer.WithinAllowanceIffInRing` | script.js:124-144 | one point's deviation is within the allowance exactly when its squared distance from the centre lies between `(0.7 r)^2` and `(1.3 r)^2` |
| `Scorer.AcceptedIffAllInRing` | script.js:124-150 | the scorer accepts exactly when every point lies in that ring |
| `Drawing.NextColourIndex` | script.js:64-67 | the colour index stays in `[0, 5)`; it is unchanged unless the new length is a multiple of 10, and then it moves to the next palette entry, wrapping from 4 to 0 |
| `Drawing.ColourAfter` | script.js:40-67 | the colour index after `n` successive `draw` calls following `startDrawing` stays in `[0, 5)` when it starts there |
| `Drawing.ColourAfterClosedForm` | script.js:40-67 | after `n` points of one stroke, the colour index is `(c + n / 10) mod 5`, where `c` is the index when the stroke started |
| `Drawing.Judge` | script.js:94-104 | the end of a stroke gives `Rejected(TooShort)` exactly when it has fewer than 20 points, and any rejection means it is too short or not closed |
| `Drawing.JudgeOutcomes` | script.js:94-156 | a stroke is rejected exactly when it has fewer than 20 points or a gap of 30 or more between its ends; an accepted stroke scores in `[40, 100]` and lies wholly in the ring; a `TooFar` stroke has maximum deviation above 30 and a point outside the ring |
| `Drawing.Session.constructor` | script.js:3-18 | the session starts not drawing, with no points, colour index 0, and the centre at half the canvas width and height |
| `Drawing.Session.StartDrawing` | script.js:40-45 | opens the stroke and empties the points; the colour index is unchanged |
| `Drawing.Session.Draw` | script.js:47-68 | when not drawing, nothing changes; when drawing, exactly one point is appended at the end, earlier points are unchanged, and the colour index advances as `NextColourIndex` says and stays in `[0, 5)` |
| `Drawing.Session.DrawTouch` | script.js:70-92 | the same contract as `Draw`, for a touch position already translated to canvas coordinates |
| `Drawing.Session.EndDrawing` | script.js:94-104 | always closes the stroke; keeps the points and the colour index; returns the verdict `Judge` gives, so the scorer only runs on strokes of at least 20 points that are closed |

## Left out

- Canvas rendering: `drawCenterPoint`, `beginPath`, `lineTo`, `stroke`, the stroke style, line width and glow (script.js:24-29, 56-62, 80-86). The palette is kept only as the range of the colour index.
- `displayScore`, `getQueryParam`, `window.onload` and the URL update with `history.pushState` (script.js:160-186). These are page and URL I/O; the model returns a `Verdict` instead of a message string.
- `resetCanvas` (script.js:189-193). It only clears the canvas and the score text, and changes no stroke state.
- Event listener wiring and the translation from an event to canvas coordinates (`offsetX`/`offsetY`, `clientX - rect.left`; script.js:32-38, 50-51, 73-75). The handlers take the canvas position as a parameter. `preventDefault` is a browser side effect.
- `Math.sqrt`: the per-point distances from the centre are an input `ds`, tied to the points by `AreCentreDistances`. The closure test is stated on squared distances.
- IEEE floating point and the `toFixed(2)` rounding of the reported values (script.js:151, 154). The model computes with exact reals and reports unrounded numbers.
- `meanRadius` (script.js:131). It is computed but never used.
- Canvas size: the centre is half the canvas width and height, given to the constructor.
- Drawing.Session.Draw: requires the class invariant that the colour index is in `[0, 5)`. The game establishes this at load and keeps it. Dafny's `%` differs from the JavaScript `%` only on negative operands, which the invariant rules out.
- Drawing.Session.DrawTouch: requires the same class invariant as `Draw`, for the same reason.
- Drawing.Session.StartDrawing: requires and keeps the same class invariant; the handler itself does not touch the colour index.
- Drawing.Session.EndDrawing: requires and keeps the same class invariant; the handler itself does not touch the colour index.
