# AnkiDraw blackboard engine in Dafny

AnkiDraw adds a drawing blackboard to Anki review cards. Its engine lives in
the JavaScript that `blackboard_js()` in `AnkiDraw/__init__.py` embeds in the
page. It captures pointer gestures in three mutually exclusive modes:

- plain or perfect-freehand line strokes;
- calligraphy strokes, fitted to cubic Bézier curves by the Caligrapher
  library (`AnkiDraw/Caligrapher.js`);
- stroke-delete gestures, which mark every stroke they cross as deleted.

Every gesture leaves a marker in one shared history, and undo reverses the top
entry. A per-frame pass draws whatever was added since the previous frame,
unless a full redraw has been requested. Perfect-freehand lines are outlined by
the PerfectFreehand library (`AnkiDraw/PerfectFreehand.js`) and turned into
SVG path data.

This project models that core and proves what it promises.

- **Geometry** (`geometry.dfy`): the two-component vector helpers of
  PerfectFreehand, and Caligrapher's `midpoint`. `add`, `sub` and `med`,
  defined in several files, are identical over reals, so each is defined once.
- **AngleMath** (`anglemath.dfy`): `reduceAngleDeg` and `getSmallerAngleDeg`.
- **Bezier** (`bezier.dfy`): the recursive `bezierPos`, the `Bezier` class as
  the value type `Curve`, `linInterpolate` and the closure built by
  `linFunction`.
- **Corners** (`corners.dfy`): `BezierShape` as a class, with its `copy` and
  the two flips that overwrite a copy point by point.
- **CurveFitting** (`curvefitting.dfy`):
  - `getLengths`, `normalizeList` (in place on an array) and `parameterize`;
  - `detectCorners` and `splitChord`;
  - `leastSquaresFit` and `fitStroke`.
- **StrokeRules** (`rules.dfy`):
  - the first-match rule engine (`checkRules2`, `Rule`, `checkCond`, `OPERATIONS`);
  - the tables `RULE_BS` and `RULE_CC_START`, `RULE_CC_END`, `RULE_CC_MID`.
- **Freehand** (`freehand.dfy`): `getStrokePoints`, with padding, the
  streamline interpolation, skipping and running length, and `getStrokeRadius`.
  A candidate is pushed exactly when it differs from the previous point and,
  before the last index, the running length has reached `size`; the last
  candidate is exempt, whatever `last` is.
- **SvgPath** (`svgpath.dfy`): `getSvgPathFromStroke` as a token sequence.
- **Intersect** (`intersect.dfy`): `doLinesIntersect` and its inner `lineLine`.
- **Drawing** (`drawing.dfy`): `draw_upto_latest_point_async` and its helpers,
  with the canvas replaced by a list of draw commands:
  - a quadratic segment of a plain line;
  - a fill of a perfect-freehand outline;
  - the drawing of a calligraphy stroke.
- **Engine** (`engine.dfy`): the engine's globals as the fields of the class
  `Blackboard`, and each of its functions as a method. The history
  operations on the stored drawing are functions on a `Store` value, and
  `Blackboard` holds that value as its one `drawing` field.

Several things the engine computes and cannot be written exactly in Dafny
arithmetic are parameters of the model:

- `dist`: `getDist`, `dist` and the hypotenuse. Properties that need it assume
  only a metric (`IsMetric`: non-negative, and zero exactly between equal points).
- `isCorner`: the angle test of `detectCorners`.
- `interior`: the two interior control points that `leastSquaresFit` obtains
  by Gaussian elimination.
- `outline`: the trigonometric outline builder `getStrokeOutlinePoints`, with
  the sine easing of `getFreeDrawSvgPath`.
- `render`: the whole perfect-freehand path a line gets when the pass
  refreshes it.

JavaScript numbers are modelled as reals.

- A sparse `*_deleted` flag array is the set of indices whose flag is set.
- `perfect_cache` is a map whose missing keys are the empty or nulled slots.
- `p1`, `p2` and `p3` are globals in the source and locals of the pass in the
  model, because the pass assigns them before every use.

Two kinds of properties are proved.

- **Contracts of the methods.** Each method that changes state states its whole
  new state, in terms of the functions of the model. The per-event methods
  preserve `Blackboard.Valid`:
  - one line per `'L'` marker and one delete record per `'D'` marker;
  - the calligraphy strokes and their point lists in step;
  - at most one mode on;
  - a line to extend whenever a line gesture is under way;
  - a stroke cursor within the calligraphy strokes unless a full redraw is
    pending.

  The saved line cursor is deliberately not bounded in `Valid`. The source's
  clean-up after a full redraw can leave it past the last line (see
  "## Findings"), and the pass is total in its cursors, because a loop that
  starts past the end does not run.
- **Lemmas about the functions.** Undo reverses exactly the top entry. An
  incremental pass emits a suffix of what a full redraw emits, and consecutive
  segments join. `doLinesIntersect` holds exactly when some pair of segments
  meets, and is symmetric. The split pieces of a chord rejoin into the chord.
  A fitted stroke has one cubic per piece of its path split at the corners.
  It runs from the first to the last point, and its junctions are exactly the
  corners, in order. `checkRules2` is a first match.

Two behaviours of the source are stated as they are.

- **A calligraphy gesture without movement.** Pointer-down pushes a `'C'`
  marker, but pointer-up stores a stroke only when the guide path is
  non-empty. Undoing that marker then pops the *previous* calligraphy stroke
  (`Engine.UndoStrokelessMarker`).
- **An undo in the middle of a calligraphy gesture.** The undo pops the
  gesture's marker before its stroke exists, so strokes can outnumber `'C'`
  markers (`Engine.UndoDuringCalligraphyGesture`).

The pass the engine runs is the code as written: `Drawing.Pass`, which ends a
full redraw with `Drawing.FinishFullRedrawAsWritten`. The clean-up the comments
describe is the separate `Drawing.FinishFullRedraw`, and `Drawing.IntendedPass`
uses it. Only the intended pass always leaves cursors the next pass can resume
from (`Drawing.PassKeepsCursors`). For the pass as written this is proved only
outside the failing cases (`Drawing.PassKeepsCursorsWithLines`).

Undoing a delete gesture clears the deleted flag of every stroke it hit,
including strokes that were already deleted before it. So the undo gives back
the earlier state exactly when the gesture hit no deleted stroke
(`Engine.UndoDeleteGesture`).

## Model

| member | source | states |
|---|---|---|
| `Geometry.PerPerIsNeg` | AnkiDraw/PerfectFreehand.js:397-448 | turning a vector a quarter turn twice negates it |
| `Geometry.PerIsOrthogonal` | AnkiDraw/PerfectFreehand.js:441-457 | a vector and its quarter turn have dot product 0 |
| `Geometry.LrpEnds` | AnkiDraw/PerfectFreehand.js:536-543 | `lrp(A, B, 0)` is A and `lrp(A, B, 1)` is B |
| `Geometry.MedIsHalfwayLrp` | AnkiDraw/PerfectFreehand.js:510-517 | `med(A, B)` is `lrp(A, B, 1/2)` and is symmetric; it is also the engine's own `med` at __init__.py:949-951 |
| `Geometry.PrjIsAddMul` | AnkiDraw/PerfectFreehand.js:546-547 | `prj(A, B, c)` is `add(A, mul(B, c))`, and projecting by 0 stays at A |
| `Geometry.SubAddInverse` | AnkiDraw/PerfectFreehand.js:406-422 | `add` and `sub` undo each other |
| `Geometry.DivUndoesMul` | AnkiDraw/PerfectFreehand.js:424-439 | dividing by a non-zero n undoes multiplying by n |
| `Geometry.MidpointIsLrp` | AnkiDraw/Caligrapher.js:1395-1397 | Caligrapher's `midpoint(p1, p2, t)` is `lrp(p1, p2, t)`: p1 at 0, p2 at 1 |
| `AngleMath.ReduceAngleDeg` | AnkiDraw/Caligrapher.js:1370-1372 | the result lies in [0, 360) and differs from the angle by a whole number of turns |
| `AngleMath.ReduceAngleDegPeriodic` | AnkiDraw/Caligrapher.js:1370-1372 | adding a full turn does not change the reduced angle |
| `AngleMath.ReduceAngleDegFixesRange` | AnkiDraw/Caligrapher.js:1370-1372 | an angle already in [0, 360) is its own reduction |
| `AngleMath.ReduceAngleDegIdempotent` | AnkiDraw/Caligrapher.js:1370-1372 | reducing twice is reducing once |
| `AngleMath.GetSmallerAngleDeg` | AnkiDraw/Caligrapher.js:1350-1356 | an angle in [-360, 360] maps into [-180, 180], and its size is the smaller of the two ways round |
| `Bezier.BezierPosEnds` | AnkiDraw/Caligrapher.js:342-352 | de Casteljau's recursion gives the first control point at t = 0 and the last at t = 1 |
| `Bezier.BezierPosConstant` | AnkiDraw/Caligrapher.js:342-352 | a curve whose control points all coincide stays at that point for every t |
| `Bezier.BezierPosLinear` | AnkiDraw/Caligrapher.js:342-352 | a two-point curve is linear interpolation |
| `Bezier.CurveEnds` | AnkiDraw/Caligrapher.js:371-386 | `getPoint(0)` is `getStart()` and `getPoint(1)` is `getEnd()`, the control point at index `order` |
| `Bezier.LinInterpolateEnds` | AnkiDraw/Caligrapher.js:210-212 | `linInterpolate(y0, y1, mu)` is y0 at 0 and y1 at 1 |
| `Bezier.LinInterpolateBetween` | AnkiDraw/Caligrapher.js:210-212 | for mu in [0, 1] the result lies between y0 and y1 |
| `Bezier.LinFunction` | AnkiDraw/Caligrapher.js:222-236 | at t = 0 the closure returns the value of the first breakpoint |
| `Bezier.LinFromAtBreakpoint` | AnkiDraw/Caligrapher.js:222-236 | the scan from any earlier interval returns the breakpoint's value at the breakpoint's t |
| `Bezier.LinFunctionAtBreakpoint` | AnkiDraw/Caligrapher.js:222-236 | with ascending breakpoints from t ≥ 0, the closure returns `p[1]` at each breakpoint `t = p[0]` |
| `Bezier.LinFromOutside` | AnkiDraw/Caligrapher.js:222-236 | beyond the breakpoints the scan finds no interval |
| `Bezier.LinFunctionOutside` | AnkiDraw/Caligrapher.js:222-236 | at a non-zero t at or before the first breakpoint, or after the last, the closure returns undefined (`None`) |
| `Corners.BezierShape.constructor` | AnkiDraw/Caligrapher.js:12-16 | a new shape has the given sections, no name and an empty skeleton |
| `Corners.BezierShape.Copy` | AnkiDraw/Caligrapher.js:18-34 | a fresh shape with the first four control points of each section, the same name and bones; the original is not in its frame |
| `Corners.FirstFour` | AnkiDraw/Caligrapher.js:21-26 | the copied sections are one per section |
| `Corners.MapSection` | AnkiDraw/Caligrapher.js:305-307 | mapping a section keeps its length |
| `Corners.MapSections` | AnkiDraw/Caligrapher.js:304-308 | mapping the sections keeps their number |
| `Corners.MapOffsets` | AnkiDraw/Caligrapher.js:309-311 | mapping the offsets keeps the bone names |
| `Corners.HorizFlipOffset` | AnkiDraw/Caligrapher.js:323-327 | an offset in [0, 360) is mapped back into [0, 360) |
| `Corners.BezierShape.Transform` | AnkiDraw/Caligrapher.js:318-328 | the loops of the flips: each control point through f, each bone offset through g, the name kept |
| `Corners.VertFlipCopy` | AnkiDraw/Caligrapher.js:301-313 | a fresh copy with every y negated and every offset `360 - offset`; the argument is unchanged |
| `Corners.HorizFlipCopy` | AnkiDraw/Caligrapher.js:315-330 | a fresh copy with every x negated and every offset `180 - offset`, raised by 360 when negative |
| `Corners.MapFirstFourIsCubic` | AnkiDraw/Caligrapher.js:18-34 | a flipped copy is again cubic, so copying it again keeps every point |
| `Corners.MapSectionsTwice` | AnkiDraw/Caligrapher.js:304-308 | mapping twice by an involution restores the sections |
| `Corners.MapOffsetsTwice` | AnkiDraw/Caligrapher.js:309-311 | mapping twice by an offset map that is its own inverse restores the skeleton |
| `Corners.FlipsAreInvolutions` | AnkiDraw/Caligrapher.js:304-321 | negating y, or x, twice restores the point |
| `Corners.VertFlipOffsetTwice` | AnkiDraw/Caligrapher.js:309-311 | `360 - (360 - o)` is o |
| `Corners.HorizFlipOffsetTwice` | AnkiDraw/Caligrapher.js:323-327 | the horizontal offset rule applied twice is the identity on [0, 360) |
| `Corners.VertFlipTwice` | AnkiDraw/Caligrapher.js:301-313 | `vertFlipCopy` twice restores the sections (as copied) and every bone offset |
| `Corners.HorizFlipTwice` | AnkiDraw/Caligrapher.js:315-330 | `horizFlipCopy` twice restores the sections (as copied); offsets in [0, 360) stay there and are restored |
| `Corners.CopyOfCubicsIsExact` | AnkiDraw/Caligrapher.js:18-34 | a shape whose sections have four points each is copied exactly |
| `CurveFitting.CumulativeLengths` | AnkiDraw/Caligrapher.js:557-563 | one length per chord point (a single 0 on an empty chord), starting at 0 |
| `CurveFitting.CumulativeLengthsStep` | AnkiDraw/Caligrapher.js:557-563 | each length is the previous one plus the distance between the two points |
| `CurveFitting.CumulativeLengthsMonotone` | AnkiDraw/Caligrapher.js:557-563 | with a metric the lengths are non-negative and non-decreasing |
| `CurveFitting.CumulativeLengthsPositive` | AnkiDraw/Caligrapher.js:557-563 | a chord of two or more points with no repeated neighbours has positive total length |
| `CurveFitting.GetLengths` | AnkiDraw/Caligrapher.js:557-563 | the loop computes the cumulative lengths |
| `CurveFitting.Normalized` | AnkiDraw/Caligrapher.js:565-569 | normalizing keeps the length of the list |
| `CurveFitting.NormalizeList` | AnkiDraw/Caligrapher.js:565-569 | in place on the array, every entry after the first is divided by the original last entry (which changes only at the last iteration); the last becomes 1 |
| `CurveFitting.Parameterize` | AnkiDraw/Caligrapher.js:595-606 | the two loops compute the normalized cumulative lengths, and the divisor is never zero |
| `CurveFitting.ParameterizationRange` | AnkiDraw/Caligrapher.js:595-606 | one parameter per point, starting at 0, non-decreasing, in [0, 1], ending at 1 when there are two or more points |
| `CurveFitting.NormalizedEntryInUnit` | AnkiDraw/Caligrapher.js:565-569 | a normalized entry lies in [0, 1] |
| `CurveFitting.NormalizedPairOrdered` | AnkiDraw/Caligrapher.js:565-569 | normalization keeps the order of the entries |
| `CurveFitting.DetectCorners` | AnkiDraw/Caligrapher.js:720-733 | the loop returns exactly `CornerIndices`: strictly ascending indices in [1, n-2], exactly those whose neighbourhood passes the corner test |
| `CurveFitting.CornersBelowMeaning` | AnkiDraw/Caligrapher.js:720-733 | the corners found below index n are ascending interior indices below n, exactly those that pass the corner test |
| `CurveFitting.CornerIndicesMeaning` | AnkiDraw/Caligrapher.js:720-733 | the corners of a chord are ascending interior indices, exactly those that pass the corner test |
| `CurveFitting.PiecesUpTo` | AnkiDraw/Caligrapher.js:748-757 | the first k pieces are k chords |
| `CurveFitting.PiecesUpToAt` | AnkiDraw/Caligrapher.js:748-757 | piece m of a longer prefix is the m-th slice |
| `CurveFitting.SplitChord` | AnkiDraw/Caligrapher.js:748-757 | the push loop yields the slices `chord[ind..indices[i]+1]` and the rest from the last index |
| `CurveFitting.SplitRejoins` | AnkiDraw/Caligrapher.js:748-757 | for valid indices there are k+1 pieces, and dropping each later piece's shared first point and concatenating gives back the chord |
| `CurveFitting.RejoinPrefix` | AnkiDraw/Caligrapher.js:748-757 | the first k pieces rejoin into the chord up to the k-th index |
| `CurveFitting.SplitPiecesShareEnds` | AnkiDraw/Caligrapher.js:748-757 | piece k starts where piece k-1 ends, at `chord[indices[k-1]]`; the last ends at the last point |
| `CurveFitting.SplitPiecesNoRepeats` | AnkiDraw/Caligrapher.js:748-757 | a piece of a chord without repeated neighbours has none either |
| `CurveFitting.LeastSquaresFit` | AnkiDraw/Caligrapher.js:643-656 | four control points from `chord[0]` to `chord[last]`; under four points the interior ones are at 1/4 and 3/4 of the way |
| `CurveFitting.FitPiece` | AnkiDraw/Caligrapher.js:675-680 | one iteration of `fitStroke`: parameterize the piece and fit it, giving a cubic from its first to its last point |
| `CurveFitting.JunctionsAreCorners` | AnkiDraw/Caligrapher.js:671-682 | curves fitted to the split pieces run from the first to the last point, each ends where the next begins, and each junction is a detected corner |
| `CurveFitting.CornersAreJunctions` | AnkiDraw/Caligrapher.js:671-682 | with one curve fitted per piece, curve k ends at the chord point of split index k |
| `CurveFitting.FittedStrokeShape` | AnkiDraw/Caligrapher.js:671-682 | a stroke fitted piece by piece has one cubic per corner plus one, runs from the first to the last chord point, each curve ends where the next begins, and curve k ends at corner k |
| `CurveFitting.FitStroke` | AnkiDraw/Caligrapher.js:671-682 | one cubic per piece of the chord split at `CornerIndices`, each fitted from the first to the last point of its piece (`FitsCorners`); consecutive curves meet; the first starts at `chord[0]`, the last ends at `chord[last]`, and the junctions are corners |
| `StrokeRules.InRangesFromIff` | AnkiDraw/Caligrapher.js:867-873 | the scan over ranges holds exactly when some range from the cursor contains the value |
| `StrokeRules.InRangeIff` | AnkiDraw/Caligrapher.js:980-985 | `IN_RANGE` holds exactly when the attribute is set and lies in some half-open range `[lo, hi)` |
| `StrokeRules.GreaterThanIsAtLeast` | AnkiDraw/Caligrapher.js:986-988 | `GREATER_THAN` means at least |
| `StrokeRules.AnyFromIff` | AnkiDraw/Caligrapher.js:992-997 | the `OR` loop holds exactly when some sub-condition holds |
| `StrokeRules.AllFromIff` | AnkiDraw/Caligrapher.js:998-1003 | the `AND` loop holds exactly when every sub-condition holds |
| `StrokeRules.OrAndSemantics` | AnkiDraw/Caligrapher.js:992-1003 | `OR` is any-of and `AND` is all-of over the sub-conditions, whatever the key |
| `StrokeRules.InRangeOne` | AnkiDraw/Caligrapher.js:980-985 | a one-range `IN_RANGE` is `lo <= value < hi` |
| `StrokeRules.AndOfTwo` | AnkiDraw/Caligrapher.js:998-1003 | a two-part `AND` is the conjunction |
| `StrokeRules.FirstMatchFromSpec` | AnkiDraw/Caligrapher.js:944-953 | the scan from i returns no result exactly when no rule from i holds, and otherwise the result of the first that holds |
| `StrokeRules.CheckRules2IsFirstMatch` | AnkiDraw/Caligrapher.js:944-970 | `checkRules2` returns the result of the first rule whose condition holds, and null exactly when none does |
| `StrokeRules.RuleBSAlwaysMatches` | AnkiDraw/Caligrapher.js:1028-1037 | the final `TRUE` rule means every basic stroke gets one of the component lists |
| `StrokeRules.ShortStrokeIsDian` | AnkiDraw/Caligrapher.js:1028-1030 | a stroke shorter than `TH2` is a dian |
| `StrokeRules.VerticalStrokeIsShu` | AnkiDraw/Caligrapher.js:1028-1034 | a stroke of length at least `TH2` starting between 80 and 100 degrees is `SHU1` from `TH1` on, `SHU2` below |
| `StrokeRules.StartCornerChoice` | AnkiDraw/Caligrapher.js:1006-1009 | the start corner is C2 near 0 degrees, C4 on [80, 350), and none otherwise |
| `StrokeRules.EndCornerChoice` | AnkiDraw/Caligrapher.js:1011-1015 | the end corner is C3 near 0 degrees, C7 on [10, 80), none otherwise; C5 is never chosen because its rule reads the unset key `engAngle` |
| `StrokeRules.MidCornerNeedsInnerAngle` | AnkiDraw/Caligrapher.js:1017-1026 | every middle-corner rule requires the angle between the segments to lie in [-180, 180) |
| `Freehand.Pressure` | AnkiDraw/PerfectFreehand.js:372 | a missing or negative pressure falls back to a non-negative default |
| `Freehand.ConfigOf` | AnkiDraw/PerfectFreehand.js:295-300 | the defaults (streamline 0.5, so t = 0.575; size 16; not complete) and t = 0.15 + (1 - streamline) * 0.85 at the extremes |
| `Freehand.PadShape` | AnkiDraw/PerfectFreehand.js:311-322 | no points stay none; one point gains a second at +[1,1] with its extra fields; two points become p0 and four `lrp` points at i/4 without extra fields, the last at p1; three or more are kept |
| `Freehand.PadPoints` | AnkiDraw/PerfectFreehand.js:311-322 | the padding loop builds the padded list |
| `Freehand.Step` | AnkiDraw/PerfectFreehand.js:343-380 | one candidate is pushed or skipped |
| `Freehand.ScanFrom` | AnkiDraw/PerfectFreehand.js:343-380 | the scan only ever adds points |
| `Freehand.InitialInv` | AnkiDraw/PerfectFreehand.js:325-342 | the first stroke point starts the loop invariant |
| `Freehand.StepInv` | AnkiDraw/PerfectFreehand.js:343-380 | every iteration keeps the loop invariant (linked points, accumulated running length, minimum length reached) |
| `Freehand.ScanFromInv` | AnkiDraw/PerfectFreehand.js:343-380 | the whole scan keeps the loop invariant |
| `Freehand.ScanFromEndsAtLast` | AnkiDraw/PerfectFreehand.js:346-350 | with `last` set, the final candidate is the raw last input point |
| `Freehand.GetStrokePoints` | AnkiDraw/PerfectFreehand.js:292-385 | the imperative loop, with its skips and the final vector fix-up of the first point, computes the specified stroke points |
| `Freehand.StrokePointsEmpty` | AnkiDraw/PerfectFreehand.js:297-298 | the result is empty exactly when the input is |
| `Freehand.StrokePointsShape` | AnkiDraw/PerfectFreehand.js:325-385 | never longer than the padded input; the first point has the input's x and y, distance and running length 0, and pressure defaulting to 0.25; each later point differs from its predecessor, with distance, unit vector and accumulated running length; intermediate points have reached the minimum length; the first vector is the second's, or [0,0]; the converse, that every passing candidate is pushed, is `Freehand.StrokePointsPushesPassing` |
| `Freehand.StepPushesIffPasses` | AnkiDraw/PerfectFreehand.js:343-380 | one iteration pushes its candidate, with the running length grown by its distance, exactly when the candidate differs from the previous point and, before the last index, the running length with it has reached `size`; otherwise the output and `prev` are kept |
| `Freehand.StepTracking` | AnkiDraw/PerfectFreehand.js:343-380 | every iteration keeps `prev` the last pushed point and `hasReachedMinimumLength` only set once the running length has reached `size` |
| `Freehand.StateBeforeTracking` | AnkiDraw/PerfectFreehand.js:325-380 | the loop state before every index keeps that agreement |
| `Freehand.ScanFromStateBefore` | AnkiDraw/PerfectFreehand.js:343-380 | running the loop from the state before any index gives the whole loop |
| `Freehand.ScanFromExtends` | AnkiDraw/PerfectFreehand.js:343-380 | the rest of the loop keeps the points pushed so far as a prefix |
| `Freehand.ScanIsLastState` | AnkiDraw/PerfectFreehand.js:343-380 | the whole loop ends in the state after its last index |
| `Freehand.StateBeforePrefix` | AnkiDraw/PerfectFreehand.js:343-380 | the points pushed before any index are a prefix of the final output |
| `Freehand.ScanPushesPassing` | AnkiDraw/PerfectFreehand.js:343-380 | index i adds a point exactly when its candidate passes the filter, and the final output holds that candidate at the next position |
| `Freehand.StrokePointsPushesPassing` | AnkiDraw/PerfectFreehand.js:343-380 | both directions of the skipping rule for the result: at every index the points so far are in the result, ending with `prev`, and the candidate is added, at the next position and with its running length, exactly when it differs from `prev` and the index is the last or the running length has reached `size` |
| `Freehand.StrokeEndsWithLastCandidate` | AnkiDraw/PerfectFreehand.js:346-366 | for either value of `last`, the result ends with the last index's candidate taken from the point before it, unless that candidate coincides with the final point |
| `Freehand.RunningLengthMonotone` | AnkiDraw/PerfectFreehand.js:357-376 | running length never decreases along the stroke |
| `Freehand.CompleteStrokeEndsAtLastPoint` | AnkiDraw/PerfectFreehand.js:346-350 | with `last: true` the final stroke point is the last padded input point |
| `Freehand.GetStrokeRadius` | AnkiDraw/PerfectFreehand.js:387-390 | with thinning 0 or pressure 0.5 the radius is `size * easing(0.5)`; with thinning 1 it is `size * easing(pressure)` |
| `SvgPath.SvgPathFromStroke` | AnkiDraw/__init__.py:958-979 | the path is empty exactly when there are no points |
| `SvgPath.FoldKeepsPrefix` | AnkiDraw/__init__.py:963-976 | the reduce only appends to its accumulator |
| `SvgPath.FoldShape` | AnkiDraw/__init__.py:963-976 | the reduce from any point keeps the point/midpoint pairs and ends with the closing five tokens |
| `SvgPath.SvgPathLayout` | AnkiDraw/__init__.py:958-979 | for n points: `M p0 Q`, then `p_i med(p_i, p_i+1)` for i < n-1, then `p_last med(p_last, p0) L p0 Z`, 2n+6 tokens |
| `SvgPath.SinglePointPath` | AnkiDraw/__init__.py:958-979 | a single point gives `M p Q p p L p Z` |
| `Intersect.InnerFromIff` | AnkiDraw/__init__.py:881-886 | the inner loop returns true exactly when some later segment of the second line meets segment i |
| `Intersect.OuterFromIff` | AnkiDraw/__init__.py:880-886 | the outer loop returns true exactly when some segment pair from i on meets |
| `Intersect.DoLinesIntersectIff` | AnkiDraw/__init__.py:867-889 | `doLinesIntersect` holds exactly when some pair of consecutive-point segments has uA and uB both in [0, 1] |
| `Intersect.ParallelNeverMeets` | AnkiDraw/__init__.py:868-878 | a zero denominator (parallel or collinear segments) never counts as a hit |
| `Intersect.MeetingPointIsShared` | AnkiDraw/__init__.py:868-878 | when `lineLine` holds, the points at uA on the first segment and at uB on the second coincide |
| `Intersect.LineLineSymmetric` | AnkiDraw/__init__.py:868-878 | swapping the two segments does not change `lineLine` |
| `Intersect.DoLinesIntersectSymmetric` | AnkiDraw/__init__.py:867-889 | the hit test is symmetric in its two polylines |
| `Intersect.ShortLineNeverIntersects` | AnkiDraw/__init__.py:880-889 | a polyline with fewer than two points intersects nothing |
| `Intersect.SingleSegmentPolylines` | AnkiDraw/__init__.py:867-889 | two one-segment polylines intersect exactly when `lineLine` holds |
| `Intersect.CrossingDiagonalsIntersect` | AnkiDraw/__init__.py:867-889 | the two diagonals of a square intersect |
| `Intersect.CollinearDisjointDoNotIntersect` | AnkiDraw/__init__.py:867-889 | two disjoint pieces of one line do not |
| `Drawing.Positions` | AnkiDraw/__init__.py:714-720 | the x and y of each captured point, in order |
| `Drawing.Segment` | AnkiDraw/__init__.py:677-683 | a quadratic from the middle of p1 and p2, through p2, to the middle of p2 and p3, with p3's width |
| `Drawing.QuadsRangeMeaning` | AnkiDraw/__init__.py:712-723 | the inner loop from s emits one segment per point j ≥ s, built from points `max(j-2,0)`, `max(j-1,0)`, j |
| `Drawing.QuadsRangeSplit` | AnkiDraw/__init__.py:712-723 | resuming at b emits exactly the tail of the run from a |
| `Drawing.ConsecutiveSegmentsJoin` | AnkiDraw/__init__.py:677-683 | each segment ends where the next begins |
| `Drawing.FirstSegmentIsADot` | AnkiDraw/__init__.py:712-718 | the first segment of a line starts and ends at its first point |
| `Drawing.FreeDrawOptionsOf` | AnkiDraw/__init__.py:981-994 | pressure is simulated exactly when the first point's pressure exceeds 1; size is the line width; thinning 0.6, smoothing and streamline 0.5; `last` is `complete` |
| `Drawing.AsInputs` | AnkiDraw/__init__.py:981-994 | each captured point is handed to the freehand library as x and y, with its pressure and width as extra fields, in order |
| `Drawing.FreeDrawSvgPathEmpty` | AnkiDraw/__init__.py:981-994 | the SVG path is empty exactly when the outline is |
| `Drawing.LastLineIsDrawnOrFinished` | AnkiDraw/__init__.py:669-675 | the two tests never both hold, and one of them holds exactly for the last line |
| `Drawing.LineStep` | AnkiDraw/__init__.py:702-739 | a deleted line emits nothing, leaves the cache alone and keeps the start point for the next line, because its `continue` skips the reset; any other line resets the start point to 0 |
| `Drawing.PerfectLineStep` | AnkiDraw/__init__.py:724-733 | in perfect-freehand mode a line with new points emits one fill of its cached path, rebuilt only when the slot is empty or the line is still being drawn |
| `Drawing.PerfectLineUpToDate` | AnkiDraw/__init__.py:714-733 | a perfect-freehand line with no new points emits nothing |
| `Drawing.LinesFromQuads` | AnkiDraw/__init__.py:702-739 | in plain mode the walk emits exactly the segments of the non-deleted lines from the cursor on |
| `Drawing.SuffixOfConcat` | AnkiDraw/__init__.py:702-739 | a tail of emitted commands is a suffix |
| `Drawing.SuffixTransitive` | AnkiDraw/__init__.py:702-739 | a suffix of a suffix is a suffix |
| `Drawing.LaterLineIsSuffix` | AnkiDraw/__init__.py:702-739 | starting at a later line emits a suffix of a full redraw |
| `Drawing.ResumedPassIsSuffix` | AnkiDraw/__init__.py:702-739 | resuming at any saved line and point emits a suffix of a full redraw |
| `Drawing.DeletedLinesAreSkipped` | AnkiDraw/__init__.py:705-709 | every emitted segment belongs to a non-deleted line |
| `Drawing.CursorOkAfterNewLine` | AnkiDraw/__init__.py:768-776 | pushing a new line keeps a valid saved cursor valid, as the intended pass needs |
| `Drawing.CursorOkAfterNewPoint` | AnkiDraw/__init__.py:783-788 | appending a point to the last line keeps a valid saved cursor valid, as the intended pass needs |
| `Drawing.StepResumable` | AnkiDraw/__init__.py:702-739 | each line of the walk leaves the next one resumable |
| `Drawing.LinesFromCursor` | AnkiDraw/__init__.py:702-739 | the walk over the lines, started from a resumable position, saves a valid cursor |
| `Drawing.FinishFullRedrawAsWritten` | AnkiDraw/__init__.py:748-758 | with calligraphy strokes and no full clear, the cursors are left as they are, whatever the number of lines |
| `Drawing.StaleLineCursorAfterFullRedraw` | AnkiDraw/__init__.py:748-758 | as written, a full redraw over no lines with one calligraphy stroke and cursors 1, 0, 1 keeps the line cursor at 1, past the end; after a new line, the next incremental pass draws nothing, where a full redraw draws the line's segment and the stroke |
| `Drawing.FinishFullRedraw` | AnkiDraw/__init__.py:748-758 | as intended: out of lines, or on a full clear, the line cursor restarts at 0; out of strokes, or on a full clear, the stroke cursor restarts at 0; otherwise the cursors are kept |
| `Drawing.FinishFullRedrawRestoresCursor` | AnkiDraw/__init__.py:748-758 | after the intended clean-up the cursors are valid for every state of the lines |
| `Drawing.FreshLineDrawnAfterFullRedraw` | AnkiDraw/__init__.py:748-758 | in the same situation the intended pass restarts the cursors at 0, 0, 1 and the next pass draws the new line's segment |
| `Drawing.StrokeCommandsMeaning` | AnkiDraw/__init__.py:741-746 | the stroke loop draws exactly the non-deleted calligraphy strokes from the cursor on, at `WEIGHT` |
| `Drawing.DrawLine` | AnkiDraw/__init__.py:702-739 | one iteration of the line loop computes `LineStep` |
| `Drawing.DrawPoints` | AnkiDraw/__init__.py:712-723 | the point loop emits the segments from the start point in plain mode, asks for a perfect draw otherwise, and saves the next point; a start past the last point draws nothing |
| `Drawing.DrawLines` | AnkiDraw/__init__.py:702-739 | the line loop computes the specified walk from any start line, past the end included |
| `Drawing.DrawStrokes` | AnkiDraw/__init__.py:741-746 | the stroke loop emits the specified stroke commands and moves the stroke cursor past the last stroke |
| `Drawing.PassKeepsCursors` | AnkiDraw/__init__.py:687-759 | as intended: every pass, full or incremental, leaves cursors the next pass can resume from |
| `Drawing.LoopsKeepCursors` | AnkiDraw/__init__.py:700-746 | the two loops, started from a valid cursor or from the first of some lines, leave a valid line cursor |
| `Drawing.PassKeepsStrokeCursor` | AnkiDraw/__init__.py:741-758 | as written, every pass leaves the stroke cursor within the calligraphy strokes when it was before an incremental one |
| `Drawing.PassKeepsCursorsWithLines` | AnkiDraw/__init__.py:687-759 | as written, a pass leaves valid cursors, except after a full redraw over no lines or a full clear with strokes stored |
| `Drawing.DrawFrame` | AnkiDraw/__init__.py:687-759 | the pass computes `Pass`: the two loops, then the clean-up as written after a full redraw |
| `Engine.SimulatedPressureIffNotPen` | AnkiDraw/__init__.py:763-776 | a stroke started by a pen (pressure at most 1) uses its real pressure, any other simulates it; the stored position is the event's offset |
| `Engine.GuidePathAfterMove` | AnkiDraw/__init__.py:1053-1064 | a move appends the mouse position when the path is empty or at least `MIN_MOUSE_DIST` (5) from its last point, and otherwise keeps the path |
| `Engine.GuidePathStaysSpaced` | AnkiDraw/__init__.py:1053-1064 | consecutive guide-path points stay at least 5 apart, so none repeat |
| `Engine.GuidePathNoRepeats` | AnkiDraw/__init__.py:900-911 | a guide path never gains a repeated neighbour |
| `Engine.LineHitsMeaning` | AnkiDraw/__init__.py:922-928 | the line loop records `["L", i]` exactly for the lines the path intersects, deleted or not, in index order |
| `Engine.StrokeHitsMeaning` | AnkiDraw/__init__.py:929-935 | the stroke loop records `["C", i]` exactly for the calligraphy strokes the path intersects, in index order |
| `Engine.LinesOf` | AnkiDraw/__init__.py:600-606 | the line indices named by a delete record |
| `Engine.StrokesOf` | AnkiDraw/__init__.py:600-606 | the stroke indices named by a delete record |
| `Engine.LinesOfPush` | AnkiDraw/__init__.py:922-928 | recording one more entry adds at most its line |
| `Engine.StrokesOfPush` | AnkiDraw/__init__.py:929-935 | recording one more entry adds at most its stroke |
| `Engine.UndoDeletionRestoresIff` | AnkiDraw/__init__.py:600-606 | clearing the flags that a deletion set restores the earlier flags exactly when none of them were set before |
| `Engine.Pop` | AnkiDraw/__init__.py:590 | popping removes the last entry, and leaves an empty list empty |
| `Engine.MarkLines` | AnkiDraw/__init__.py:922-928 | the loop records the line hits and sets their deleted flags |
| `Engine.MarkStrokes` | AnkiDraw/__init__.py:929-935 | the loop records the stroke hits and sets their deleted flags |
| `Engine.Unmark` | AnkiDraw/__init__.py:600-606 | the `forEach` clears exactly the recorded flags |
| `Engine.Toggle` | AnkiDraw/__init__.py:405-448 | after a switch at most one mode is on: the chosen flag is negated and the other two are off |
| `Engine.ToggleTwice` | AnkiDraw/__init__.py:405-448 | switching the same mode twice gives back its old value with the others off; from off, everything is off |
| `Engine.AddLine` | AnkiDraw/__init__.py:768-776 | pushing a line and its `'L'` keeps the store consistent |
| `Engine.ExtendLast` | AnkiDraw/__init__.py:783-788 | appending a point keeps the store consistent |
| `Engine.AddCalligraphyMarker` | AnkiDraw/__init__.py:1049 | pushing `'C'` keeps the store consistent |
| `Engine.AddStroke` | AnkiDraw/__init__.py:1072-1075 | pushing the points and the stroke keeps the store consistent |
| `Engine.Delete` | AnkiDraw/__init__.py:913-943 | a delete gesture keeps the store consistent |
| `Engine.Undo` | AnkiDraw/__init__.py:588-610 | undo pops exactly the top marker |
| `Engine.UndoKeepsStoreOk` | AnkiDraw/__init__.py:588-610 | undo keeps one line per `'L'`, one record per `'D'`, and the calligraphy lists in step |
| `Engine.UndoAddLine` | AnkiDraw/__init__.py:595-599 | undoing a new line gives back the earlier drawing, with that line's cache slot emptied |
| `Engine.UndoIgnoresExtend` | AnkiDraw/__init__.py:595-599 | points added to the top line are undone with the line |
| `Engine.UndoCalligraphyGesture` | AnkiDraw/__init__.py:591-594 | undoing a complete calligraphy gesture (marker and stroke) gives back the earlier drawing |
| `Engine.UndoStrokelessMarker` | AnkiDraw/__init__.py:591-594 | undoing a `'C'` with no stroke of its own pops the previous calligraphy stroke |
| `Engine.UndoDeleteGesture` | AnkiDraw/__init__.py:600-606 | undoing a delete gesture gives back the earlier drawing exactly when it hit no stroke that was already deleted |
| `Engine.UndoLast` | AnkiDraw/__init__.py:588-610 | the switch on the popped marker computes `Undo` |
| `Engine.DeleteHits` | AnkiDraw/__init__.py:913-943 | the commit loops compute `Delete`: flags set, and `'D'` with its record pushed only when something was hit |
| `Engine.Blackboard.constructor` | AnkiDraw/__init__.py:357-387 | the page starts with an empty drawing, all modes off, no gesture, no redraw pending and cursors at 0 |
| `Engine.Blackboard.StopDrawing` | AnkiDraw/__init__.py:649-652 | `isPointerDown` is false and the pen-only lock released; nothing else changes |
| `Engine.Blackboard.StartDrawing` | AnkiDraw/__init__.py:654-657 | `isPointerDown` is true; nothing else changes |
| `Engine.Blackboard.TsRedraw` | AnkiDraw/__init__.py:624-626 | a full redraw is requested; nothing else changes |
| `Engine.Blackboard.TsClear` | AnkiDraw/__init__.py:628-631 | a full redraw and a full clear are requested; nothing else changes |
| `Engine.Blackboard.ResetDrawingModes` | AnkiDraw/__init__.py:394-403 | all three modes off and a full redraw requested |
| `Engine.Blackboard.SwitchMode` | AnkiDraw/__init__.py:405-448 | the modes become `Toggle` of the old ones; the gesture is stopped and a full redraw requested; the drawing is unchanged |
| `Engine.Blackboard.SwitchPerfectFreehand` | AnkiDraw/__init__.py:405-418 | perfect freehand negated, the other modes off, the gesture stopped, a full redraw requested |
| `Engine.Blackboard.SwitchCalligraphyMode` | AnkiDraw/__init__.py:420-433 | calligraphy negated, the other modes off, the gesture stopped, a full redraw requested |
| `Engine.Blackboard.SwitchStrokeDeleteMode` | AnkiDraw/__init__.py:435-448 | stroke delete negated, the other modes off, the gesture stopped, a full redraw requested |
| `Engine.Blackboard.ClearCanvas` | AnkiDraw/__init__.py:633-647 | every array and the history emptied, the gesture stopped, a full redraw and full clear requested |
| `Engine.Blackboard.UndoNewest` | AnkiDraw/__init__.py:588-610 | the drawing becomes `Undo` of the old one and stays consistent |
| `Engine.Blackboard.TsUndo` | AnkiDraw/__init__.py:588-621 | undo stops the gesture and undoes the top entry; an emptied history clears the canvas and requests a full clear, otherwise a full redraw |
| `Engine.Blackboard.PointerDownLine` | AnkiDraw/__init__.py:763-778 | a one-point line and its `'L'` are pushed exactly for a primary event with calligraphy and stroke delete off, no gesture under way, and not a non-pen contact under the pen-only lock; a pen contact sets the lock |
| `Engine.Blackboard.ExtendLine` | AnkiDraw/__init__.py:784-788 | the point of the event is appended to the last line |
| `Engine.Blackboard.PointerMoveLine` | AnkiDraw/__init__.py:780-790 | a point is appended only while a line gesture is under way and the event passes the guards |
| `Engine.Blackboard.PointerUpLine` | AnkiDraw/__init__.py:792-806 | a point is appended while drawing, then the gesture stops; perfect freehand requests a redraw; an event failing the guards changes nothing |
| `Engine.Blackboard.PointerDownCaligraphy` | AnkiDraw/__init__.py:1045-1051 | in calligraphy mode a primary event pushes `'C'` and starts the gesture |
| `Engine.Blackboard.MoveGuidePath` | AnkiDraw/__init__.py:1055-1063 | while `isPointerDown` holds, the guide path grows by `GuidePathAfterMove` |
| `Engine.Blackboard.PointerMoveCaligraphy` | AnkiDraw/__init__.py:1053-1064 | the guide path grows only for a primary event in calligraphy mode while `isPointerDown` holds |
| `Engine.Blackboard.CommitStroke` | AnkiDraw/__init__.py:1070-1077 | the guide path and a stroke fitted to it are pushed and the path emptied; the stroke has one cubic per piece of the path split at its corners (`FitsCorners`) |
| `Engine.Blackboard.PointerUpCaligraphy` | AnkiDraw/__init__.py:1066-1079 | the gesture always stops; a primary event in calligraphy mode with a non-empty guide path commits a stroke fitted piece by piece to it (`FitsCorners`); otherwise the drawing and path are kept |
| `Engine.Blackboard.PointerDownStrokeDelete` | AnkiDraw/__init__.py:891-898 | in stroke-delete mode a primary event starts the gesture |
| `Engine.Blackboard.PointerMoveStrokeDelete` | AnkiDraw/__init__.py:900-911 | the guide path grows only for a primary event in stroke-delete mode while `isPointerDown` holds |
| `Engine.Blackboard.PointerUpStrokeDelete` | AnkiDraw/__init__.py:913-943 | the gesture always stops; a primary event in stroke-delete mode with a non-empty path applies `Delete`, empties the path and requests a redraw; otherwise nothing else changes |
| `Engine.Blackboard.PointerDown` | AnkiDraw/__init__.py:486-494 | the three down-handlers in registration order: in calligraphy mode a `'C'`, in stroke-delete mode only the gesture start, otherwise the line rules; a primary pen contact outside both modes sets the pen-only lock |
| `Engine.Blackboard.PointerMove` | AnkiDraw/__init__.py:486-494 | the three move-handlers in order: a line point, or a guide-path point in calligraphy or stroke-delete mode |
| `Engine.Blackboard.PointerUp` | AnkiDraw/__init__.py:486-494 | the three up-handlers in order; every window pointer-up leaves `isPointerDown` false; the mode decides between a line point, a stroke commit and a delete; outside stroke-delete mode a redraw is requested exactly for a line event in perfect-freehand mode |
| `Engine.Blackboard.SaveFrame` | AnkiDraw/__init__.py:704-758 | the pass's cache and cursors are stored, keeping the store valid and the stroke cursor within the strokes |
| `Engine.Blackboard.DrawUptoLatestPoint` | AnkiDraw/__init__.py:687-759 | one frame: it returns `Pass`, the pass as written, of the old state, taking a full redraw when requested, stores its cache and cursors, and clears the redraw request (and the full clear it served) |
| `Engine.UndoDuringCalligraphyGesture` | AnkiDraw/__init__.py:1045-1051 | pointer-down, move, undo and pointer-up in calligraphy mode leave one stroke and no `'C'` marker |
| `Engine.OneStrokeInLineMode` | AnkiDraw/__init__.py:1045-1079 | a fresh page, a calligraphy stroke and a switch back to line mode leave one stroke, a `'C'`, no line and a redraw pending |
| `Engine.RedrawOneStroke` | AnkiDraw/__init__.py:687-759 | the pending full redraw over no lines and one stroke leaves the cursors 0, 0, 1 |
| `Engine.ClickLine` | AnkiDraw/__init__.py:763-806 | a click in line mode stores a line and its `'L'`, with no redraw requested |
| `Engine.FinishOneLine` | AnkiDraw/__init__.py:700-746 | the next pass finishes that line and leaves the cursors 1, 0, 1 |
| `Engine.UndoLineAndDrawAnother` | AnkiDraw/__init__.py:588-621 | undo and the full redraw it requests keep the line cursor at 1 over no lines; after another click the pass draws nothing |
| `Engine.StaleLineCursorScenario` | AnkiDraw/__init__.py:748-758 | through the handlers: a page whose one live line is never drawn by the incremental pass, its line cursor stuck at 1 with no redraw pending |

## Left out

- DOM and canvas work is not modelled: `classList` and `className` changes,
  `preventDefault`, `ctx`, `Path2D`, the secondary canvas, `drawCurrentPath` and
  `requestAnimationFrame` scheduling. The draw pass returns commands instead.
- `async` on the draw functions is not modelled: nothing in them awaits.
- The keyup shortcuts (AnkiDraw/__init__.py:826-862), `switch_small_canvas`,
  `switch_visibility`, `resize` and `update_pen_settings` are not modelled.
  They are key bindings and layout, and reach the model only through the
  methods they call.
- The Python host around `blackboard_js` (menus, dialogs, settings, HTML and
  CSS templates) is not modelled.
- `getStrokeOutlinePoints`, `getStroke`, `getAngle` and the angle of
  `detectCorners` are parameters (`outline`, `isCorner`), not definitions,
  because they are built on trigonometry and square roots. The `easing`
  option the engine passes (an ease-out sine, __init__.py:989) is read only by
  `getStrokeOutlinePoints` (PerfectFreehand.js:52), which hands it to
  `getStrokeRadius`. It therefore belongs to the abstract `outline` and has no
  field in `Drawing.FreeDrawOptionsOf`; `Freehand.GetStrokeRadius` takes it as a
  parameter.
- `coefficientHelper` and `gaussianElimination` are left out.
  `leastSquaresFit` takes its two interior control points from the parameter
  `interior`.
- `CurveFitting.FitPiece`: only the end points (and the under-four-points
  interior) are stated, because the interior controls come from Gaussian
  elimination, which is not modelled.
- The `TO_FIXED_PRECISION` regex and the `join(" ")` of
  `getSvgPathFromStroke` are left out. The path is a token sequence, and
  number formatting is not modelled.
- `Stroke.draw` and `drawBezier` are left out. Drawing a calligraphy stroke is
  one abstract command.
- `cosFunction`, `cosInterpolate`, `checkRules`, the `COMPOUND_CORNER_*` tables,
  `updateVariable`, `getLengthAtWithStep`, `transpose` and `matrixMult` are left
  out. None of them is used by the core.
- `Geometry.Div` excludes a zero divisor, where JavaScript yields infinity
  or NaN.
- `CurveFitting.Parameterize` requires a metric and a path without repeated
  neighbours. That is stronger than the source needs: it divides by zero only
  when the total length is zero, that is, when every point of a path of two or
  more is the same. Guide paths meet the stronger condition because of
  `MIN_MOUSE_DIST`, as `Engine.GuidePathStaysSpaced` states.
- `Corners.BezierShape.Copy` requires every section to have at least four
  points. On a shorter section the source reads an undefined point and throws
  a TypeError at `slice`. That error path is not modelled.
- `Bezier.BezierPos` requires at least one control point. On an empty list the
  source recurses without end. That case is not modelled.
- `Bezier.LinFunction` requires at least one breakpoint. `linFunction([])(0)`
  throws a TypeError in the source. That case is not modelled.
- `Freehand.StrokePoints` takes input points only as number arrays. The branch
  at PerfectFreehand.js:302-307 that converts `{x, y, pressure}` objects, with
  pressure defaulting to 0.5, is not modelled. The engine always passes
  arrays (__init__.py:993).
- `Freehand.GetStrokePoints` takes the unit vector `uni(sub(prev, point))` as
  the difference divided by `dist`. `dist` is abstract, so the vector is not
  proved to have length 1.
- Floating point is not modelled: rounding, NaN and infinities do not exist
  over reals.
- In `pointerUpStrokeDelete` the model sets `lineDeleted` from the recorded hits
  after both loops, not inside them. The outcome is the same.
- `strokes.length` at most the number of `'C'` markers is not an invariant of
  the source, so it is not stated. `Engine.UndoDuringCalligraphyGesture`
  exhibits the counterexample. The other count invariants are part of
  `StoreOk`.

## Findings

| source | as written | input that shows it | evidently intended | confidence | as-written member | corrected member |
|---|---|---|---|---|---|---|
| AnkiDraw/__init__.py:748-758 | after a full redraw, `nextPoint` and `nextStroke` are reset when there are no calligraphy strokes, and `nextLine` only on a full clear | draw one calligraphy stroke, then one line, and let a pass finish the line (cursors 1, 0, 1); undo pops the line's `'L'` and leaves `'C'`, so the full redraw runs over no lines and keeps `nextLine` at 1; a line drawn next, at index 0, gets no segment from the following incremental passes until another full redraw (`Engine.StaleLineCursorScenario` goes through these steps with the handlers) | reset `nextLine` and `nextPoint` when there are no lines (the comment says "out of lines"), and `nextStroke` when there are no strokes, both also on a full clear | not executed | `Drawing.StaleLineCursorAfterFullRedraw` | `Drawing.FreshLineDrawnAfterFullRedraw` |
