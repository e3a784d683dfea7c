/**
 * The per-frame drawing pass of the blackboard engine
 * (`draw_upto_latest_point_async` and its helpers), stated on values.
 *
 * The canvas is replaced by a list of commands: a quadratic segment of a
 * plain line, a fill of a perfect-freehand outline, or the drawing of a
 * calligraphy stroke. The pass walks the line strokes from a saved cursor
 * (`nextLine`, `nextPoint`), then the calligraphy strokes from
 * `nextStroke`; `LinesFrom` is that walk over the lines, one `LineStep` per
 * line, and the engine's method is proved equal to it.
 *
 * The outline builder of the freehand library (`getStrokeOutlinePoints`,
 * trigonometry) is the parameter `outline`; `getDist` is the parameter `dist`.
 */
module Drawing {
  import opened Geometry
  import opened Wrappers
  import opened SvgPath
  import opened Freehand
  import opened Bezier

  /** One captured point of a line stroke, `[x, y, pressure, width]`. */
  datatype LinePoint = LinePoint(x: real, y: real, pressure: real, width: real)

  function Position(p: LinePoint): Vec2 { Vec2(p.x, p.y) }

  function Positions(pts: seq<LinePoint>): (r: seq<Vec2>)
    ensures |r| == |pts| && forall k :: 0 <= k < |pts| ==> r[k] == Position(pts[k])
  {
    seq(|pts|, k requires 0 <= k < |pts| => Position(pts[k]))
  }

  /** `new Stroke(curves)`: a calligraphy stroke is the list of its fitted segments. */
  datatype Stroke = Stroke(segments: seq<Curve>)

  /** A `Path2D` is kept as the token sequence it was built from. */
  type Path = seq<Token>

  type Metric = (Vec2, Vec2) -> real

  /** What the pass asks of the canvas. */
  datatype DrawCommand =
    | Quad(from: Vec2, control: Vec2, to: Vec2, width: real)
    | Fill(path: Path)
    | DrawStroke(stroke: Stroke, weight: real)

  /** The pen width calligraphy strokes are drawn with. */
  const WEIGHT: real := 15.0

  // ---------------------------------------------------------------------
  // Plain lines
  // ---------------------------------------------------------------------

  /**
   * `draw_path_at_some_point_async`: a quadratic curve from halfway between
   * the first two points, with the middle point as control, to halfway
   * between the last two, stroked with the given width.
   */
  function Segment(p1: LinePoint, p2: LinePoint, p3: LinePoint): (c: DrawCommand)
    ensures c.Quad?
    ensures c.from == Med(Position(p1), Position(p2))
    ensures c.control == Position(p2)
    ensures c.to == Med(Position(p2), Position(p3))
    ensures c.width == p3.width
  {
    Quad(Vec2(p1.x + (p2.x - p1.x) / 2.0, p1.y + (p2.y - p1.y) / 2.0),
         Vec2(p2.x, p2.y),
         Vec2(p2.x + (p3.x - p2.x) / 2.0, p2.y + (p3.y - p2.y) / 2.0),
         p3.width)
  }

  /** The segment drawn for point j: the two points before it, clamped at the first. */
  function SegmentAt(pts: seq<LinePoint>, j: nat): DrawCommand
    requires j < |pts|
  {
    Segment(pts[if j >= 2 then j - 2 else 0], pts[if j >= 1 then j - 1 else 0], pts[j])
  }

  /** The segments drawn for the points s .. j-1 of one line. */
  function QuadsRange(pts: seq<LinePoint>, s: nat, j: nat): seq<DrawCommand>
    requires j <= |pts|
    decreases j
  {
    if j <= s then [] else QuadsRange(pts, s, j - 1) + [SegmentAt(pts, j - 1)]
  }

  /** One segment per point from s to j-1, the k-th drawn for point s + k. */
  lemma {:induction false} QuadsRangeMeaning(pts: seq<LinePoint>, s: nat, j: nat)
    requires j <= |pts|
    ensures var r := QuadsRange(pts, s, j);
            |r| == (if s <= j then j - s else 0) && forall k :: 0 <= k < |r| ==> r[k] == SegmentAt(pts, s + k)
    decreases j
  {
    if j > s {
      QuadsRangeMeaning(pts, s, j - 1);
    }
  }

  /** Drawing a line from point a, then from b on, is drawing it from a. */
  lemma {:induction false} QuadsRangeSplit(pts: seq<LinePoint>, a: nat, b: nat, j: nat)
    requires a <= b <= j <= |pts|
    ensures QuadsRange(pts, a, j) == QuadsRange(pts, a, b) + QuadsRange(pts, b, j)
    decreases j
  {
    if j > b {
      QuadsRangeSplit(pts, a, b, j - 1);
    }
  }

  /** Consecutive segments of a line meet: each ends where the next one starts. */
  lemma ConsecutiveSegmentsJoin(pts: seq<LinePoint>, s: nat, k: nat)
    requires s <= |pts| && k + 1 < |QuadsRange(pts, s, |pts|)|
    ensures var q := QuadsRange(pts, s, |pts|); q[k].Quad? && q[k + 1].Quad? && q[k].to == q[k + 1].from
  {
    QuadsRangeMeaning(pts, s, |pts|);
    var q := QuadsRange(pts, s, |pts|);
    assert q[k] == SegmentAt(pts, s + k);
    assert q[k + 1] == SegmentAt(pts, s + k + 1);
  }

  /** The first segment of a line is a dot: it starts and ends at the first point. */
  lemma FirstSegmentIsADot(pts: seq<LinePoint>)
    requires |pts| >= 1
    ensures var q := QuadsRange(pts, 0, |pts|); |q| > 0 && q[0].Quad? && q[0].from == Position(pts[0]) && q[0].to == Position(pts[0])
  {
    QuadsRangeMeaning(pts, 0, |pts|);
    assert QuadsRange(pts, 0, |pts|)[0] == SegmentAt(pts, 0);
  }

  // ---------------------------------------------------------------------
  // Perfect-freehand outlines (getFreeDrawSvgPath)
  // ---------------------------------------------------------------------

  /** The options `getFreeDrawSvgPath` passes to the freehand library; the sine easing is part of `outline`. */
  datatype FreeDrawOptions = FreeDrawOptions(
    simulatePressure: bool, size: real, thinning: real, smoothing: real, streamline: real, last: bool)

  type Outline = (seq<StrokePoint>, FreeDrawOptions) -> seq<Vec2>

  /**
   * The options for one stroke: pressure is simulated when the first point
   * carries a pressure above 1, which is what a mouse or touch point stores.
   */
  function FreeDrawOptionsOf(inputPoints: seq<LinePoint>, complete: bool, lineWidth: real): (o: FreeDrawOptions)
    requires |inputPoints| >= 1
    ensures o.simulatePressure <==> inputPoints[0].pressure > 1.0
    ensures o.size == lineWidth && o.last == complete
    ensures o.thinning == 0.6 && o.smoothing == 0.5 && o.streamline == 0.5
  {
    FreeDrawOptions(inputPoints[0].pressure > 1.0, lineWidth, 0.6, 0.5, 0.5, complete)
  }

  /** The fields of the options the point preprocessing reads. */
  function StrokeOptionsOf(o: FreeDrawOptions): StrokeOptions
  {
    StrokeOptions(Some(o.streamline), Some(o.size), Some(o.last))
  }

  /** A stored point handed to the freehand library: pressure and width become its extra fields. */
  function AsInput(p: LinePoint): InputPoint { InputPoint(p.x, p.y, [p.pressure, p.width]) }

  function AsInputs(pts: seq<LinePoint>): (r: seq<InputPoint>)
    ensures |r| == |pts| && forall k :: 0 <= k < |pts| ==> r[k] == AsInput(pts[k])
  {
    seq(|pts|, k requires 0 <= k < |pts| => AsInput(pts[k]))
  }

  /** `getFreeDrawSvgPath(inputPoints, complete)`: the outline of the stroke as path tokens. */
  function FreeDrawSvgPath(inputPoints: seq<LinePoint>, complete: bool, lineWidth: real,
                           outline: Outline, dist: Metric): Path
    requires |inputPoints| >= 1 && IsMetric(dist)
  {
    var o := FreeDrawOptionsOf(inputPoints, complete, lineWidth);
    SvgPathFromStroke(outline(StrokePoints(AsInputs(inputPoints), StrokeOptionsOf(o), dist), o))
  }

  /** The path is empty exactly when the outline builder returns no point. */
  lemma FreeDrawSvgPathEmpty(inputPoints: seq<LinePoint>, complete: bool, lineWidth: real,
                             outline: Outline, dist: Metric)
    requires |inputPoints| >= 1 && IsMetric(dist)
    ensures var o := FreeDrawOptionsOf(inputPoints, complete, lineWidth);
            FreeDrawSvgPath(inputPoints, complete, lineWidth, outline, dist) == [] <==>
            outline(StrokePoints(AsInputs(inputPoints), StrokeOptionsOf(o), dist), o) == []
  {
  }

  /** Builds the perfect-freehand path of a line's points, finished or still being drawn. */
  type Renderer = (seq<LinePoint>, bool) -> Path

  /** The renderer the engine passes to the walk: `getFreeDrawSvgPath` at the current line width. */
  function FreeDraw(lineWidth: real, outline: Outline, dist: Metric): Renderer
    requires IsMetric(dist)
  {
    (pts: seq<LinePoint>, complete: bool) => if |pts| >= 1 then FreeDrawSvgPath(pts, complete, lineWidth, outline, dist) else []
  }

  // ---------------------------------------------------------------------
  // The walk over the line strokes
  // ---------------------------------------------------------------------

  /** What the pass reads of the engine: the line strokes and the flags. */
  datatype Scene = Scene(lines: seq<seq<LinePoint>>, deleted: set<nat>, perfect: bool,
                         pointerDown: bool)

  /** Every stored line starts with the point of its pointer-down. */
  predicate WellFormed(lines: seq<seq<LinePoint>>)
  {
    forall i :: 0 <= i < |lines| ==> |lines[i]| >= 1
  }

  /** `is_last_path_and_currently_drawn(i)`. */
  predicate IsLastPathAndCurrentlyDrawn(sc: Scene, i: int)
  {
    sc.pointerDown && |sc.lines| - 1 == i
  }

  /** `all_drawing_finished(i)`. */
  predicate AllDrawingFinished(sc: Scene, i: int)
  {
    !sc.pointerDown && |sc.lines| - 1 == i
  }

  /** The last line is either still being drawn or finished, never both; no other line is either. */
  lemma LastLineIsDrawnOrFinished(sc: Scene, i: int)
    ensures !(IsLastPathAndCurrentlyDrawn(sc, i) && AllDrawingFinished(sc, i))
    ensures i == |sc.lines| - 1 <==> IsLastPathAndCurrentlyDrawn(sc, i) || AllDrawingFinished(sc, i)
  {
  }

  /** The state the walk carries from one line to the next. */
  datatype LinePass = LinePass(cmds: seq<DrawCommand>, cache: map<nat, Path>,
                               nextLine: nat, nextPoint: nat, startPoint: nat)

  /** The perfect-freehand path of line i: rebuilt unless cached and finished. */
  function PerfectPath(sc: Scene, i: nat, cache: map<nat, Path>, render: Renderer): Path
    requires i < |sc.lines| && |sc.lines[i]| >= 1
  {
    var current := IsLastPathAndCurrentlyDrawn(sc, i);
    if i !in cache || current then render(sc.lines[i], !current)
    else cache[i]
  }

  /** One iteration of the loop over the line strokes. */
  function LineStep(sc: Scene, i: nat, st: LinePass, render: Renderer): (r: LinePass)
    requires i < |sc.lines| && |sc.lines[i]| >= 1
    ensures i in sc.deleted ==> r.cmds == st.cmds && r.cache == st.cache && r.startPoint == st.startPoint
    ensures i !in sc.deleted ==> r.startPoint == 0
  {
    var pts := sc.lines[i];
    if i in sc.deleted then
      st.(nextLine := i + 1, nextPoint := 0)
    else
      var drawn := st.startPoint < |pts|;
      var quads := if sc.perfect then [] else QuadsRange(pts, st.startPoint, |pts|);
      var point := if drawn then |pts| else st.nextPoint;
      var path := PerfectPath(sc, i, st.cache, render);
      var need := sc.perfect && drawn;
      var finished := AllDrawingFinished(sc, i);
      LinePass(st.cmds + quads + (if need then [Fill(path)] else []),
               if need then st.cache[i := path] else st.cache,
               if finished then i + 1 else i,
               if finished then 0 else point,
               0)
  }

  /** The loop over the line strokes from line i on. */
  function LinesFrom(sc: Scene, i: nat, st: LinePass, render: Renderer): LinePass
    requires WellFormed(sc.lines)
    decreases |sc.lines| - i
  {
    if |sc.lines| <= i then st
    else LinesFrom(sc, i + 1, LineStep(sc, i, st, render), render)
  }

  /** In perfect-freehand mode a drawn line gives one fill, from the cache unless it must be rebuilt. */
  lemma PerfectLineStep(sc: Scene, i: nat, st: LinePass, render: Renderer)
    requires i < |sc.lines| && |sc.lines[i]| >= 1
    requires sc.perfect && i !in sc.deleted && st.startPoint < |sc.lines[i]|
    ensures var r := LineStep(sc, i, st, render);
            i in r.cache && r.cmds == st.cmds + [Fill(r.cache[i])] &&
            (i in st.cache && !IsLastPathAndCurrentlyDrawn(sc, i) ==> r.cache == st.cache) &&
            (i !in st.cache || IsLastPathAndCurrentlyDrawn(sc, i) ==>
               r.cache[i] == render(sc.lines[i], !IsLastPathAndCurrentlyDrawn(sc, i)))
  {
    var r := LineStep(sc, i, st, render);
    var path := PerfectPath(sc, i, st.cache, render);
    assert r.cmds == st.cmds + [] + [Fill(path)];
    assert r.cache == st.cache[i := path];
  }

  /** A line redrawn in perfect-freehand mode with nothing new to draw emits nothing. */
  lemma PerfectLineUpToDate(sc: Scene, i: nat, st: LinePass, render: Renderer)
    requires i < |sc.lines| && |sc.lines[i]| >= 1
    requires sc.perfect && st.startPoint >= |sc.lines[i]|
    ensures LineStep(sc, i, st, render).cmds == st.cmds
    ensures LineStep(sc, i, st, render).cache == st.cache
  {
    var r := LineStep(sc, i, st, render);
    if i !in sc.deleted {
      assert r.cmds == st.cmds + [] + [];
    }
  }

  // ---------------------------------------------------------------------
  // Plain-line mode: a resumed pass draws a suffix of the full redraw
  // ---------------------------------------------------------------------

  /** The segments of plain lines from line i on, the first of them from point s. */
  function AllQuads(sc: Scene, i: nat, s: nat): seq<DrawCommand>
    requires i <= |sc.lines|
    decreases |sc.lines| - i
  {
    if i == |sc.lines| then []
    else if i in sc.deleted then AllQuads(sc, i + 1, s)
    else QuadsRange(sc.lines[i], s, |sc.lines[i]|) + AllQuads(sc, i + 1, 0)
  }

  /** Outside perfect-freehand mode the walk emits exactly `AllQuads`. */
  lemma {:induction false} LinesFromQuads(sc: Scene, i: nat, st: LinePass, render: Renderer)
    requires WellFormed(sc.lines) && i <= |sc.lines| && !sc.perfect
    ensures LinesFrom(sc, i, st, render).cmds == st.cmds + AllQuads(sc, i, st.startPoint)
    decreases |sc.lines| - i
  {
    if i < |sc.lines| {
      var st' := LineStep(sc, i, st, render);
      LinesFromQuads(sc, i + 1, st', render);
      LinesFromStep(sc, i, st, render);
      if i !in sc.deleted {
        var q := QuadsRange(sc.lines[i], st.startPoint, |sc.lines[i]|);
        assert st'.cmds == st.cmds + q + [];
        assert AllQuads(sc, i, st.startPoint) == q + AllQuads(sc, i + 1, 0);
        assert st.cmds + q + AllQuads(sc, i + 1, 0) == st.cmds + (q + AllQuads(sc, i + 1, 0));
      }
    } else {
      LinesFromEnd(sc, i, st, render);
    }
  }

  predicate IsSuffix<T(==)>(a: seq<T>, b: seq<T>)
  {
    |a| <= |b| && b[|b| - |a|..] == a
  }

  lemma SuffixOfConcat<T>(p: seq<T>, a: seq<T>)
    ensures IsSuffix(a, p + a)
  {
    assert (p + a)[|p|..] == a;
  }

  lemma SuffixTransitive<T>(a: seq<T>, b: seq<T>, c: seq<T>)
    requires IsSuffix(a, b) && IsSuffix(b, c)
    ensures IsSuffix(a, c)
  {
    assert c[|c| - |a|..] == c[|c| - |b|..][|b| - |a|..];
  }

  /** Starting the walk at line i from point 0 draws a suffix of what starting at line 0 draws. */
  lemma {:induction false} LaterLineIsSuffix(sc: Scene, i: nat)
    requires i <= |sc.lines|
    ensures IsSuffix(AllQuads(sc, i, 0), AllQuads(sc, 0, 0))
    decreases i
  {
    if i == 0 {
      SuffixOfConcat([], AllQuads(sc, 0, 0));
      assert [] + AllQuads(sc, 0, 0) == AllQuads(sc, 0, 0);
    } else {
      LaterLineIsSuffix(sc, i - 1);
      if i - 1 in sc.deleted {
        assert AllQuads(sc, i - 1, 0) == AllQuads(sc, i, 0);
      } else {
        SuffixOfConcat(QuadsRange(sc.lines[i - 1], 0, |sc.lines[i - 1]|), AllQuads(sc, i, 0));
        SuffixTransitive(AllQuads(sc, i, 0), AllQuads(sc, i - 1, 0), AllQuads(sc, 0, 0));
      }
    }
  }

  /**
   * A pass resumed at line i, point s, draws a suffix of the segments a
   * full redraw draws (a deleted resume line is resumed from its start).
   */
  lemma ResumedPassIsSuffix(sc: Scene, i: nat, s: nat)
    requires i <= |sc.lines| && (i < |sc.lines| && i in sc.deleted ==> s == 0)
    ensures IsSuffix(AllQuads(sc, i, s), AllQuads(sc, 0, 0))
  {
    LaterLineIsSuffix(sc, i);
    if i < |sc.lines| && i !in sc.deleted {
      var pts := sc.lines[i];
      if s <= |pts| {
        QuadsRangeSplit(pts, 0, s, |pts|);
        assert AllQuads(sc, i, 0) == QuadsRange(pts, 0, s) + AllQuads(sc, i, s);
        SuffixOfConcat(QuadsRange(pts, 0, s), AllQuads(sc, i, s));
      } else {
        assert AllQuads(sc, i, s) == AllQuads(sc, i + 1, 0);
        SuffixOfConcat(QuadsRange(pts, 0, |pts|), AllQuads(sc, i + 1, 0));
      }
      SuffixTransitive(AllQuads(sc, i, s), AllQuads(sc, i, 0), AllQuads(sc, 0, 0));
    }
  }

  /** Deleted lines add nothing: every segment drawn belongs to a line that is not deleted. */
  lemma {:induction false} DeletedLinesAreSkipped(sc: Scene, i: nat, s: nat, c: DrawCommand)
    requires i <= |sc.lines| && c in AllQuads(sc, i, s)
    ensures exists l, j :: i <= l < |sc.lines| && l !in sc.deleted && 0 <= j < |sc.lines[l]| && c == SegmentAt(sc.lines[l], j)
    decreases |sc.lines| - i
  {
    if i in sc.deleted {
      DeletedLinesAreSkipped(sc, i + 1, s, c);
    } else {
      var q := QuadsRange(sc.lines[i], s, |sc.lines[i]|);
      QuadsRangeMeaning(sc.lines[i], s, |sc.lines[i]|);
      if c in q {
        var k :| 0 <= k < |q| && q[k] == c;
        assert c == SegmentAt(sc.lines[i], s + k);
      } else {
        DeletedLinesAreSkipped(sc, i + 1, 0, c);
      }
    }
  }

  // ---------------------------------------------------------------------
  // Cursors
  // ---------------------------------------------------------------------

  /**
   * Where a saved cursor may point: at a line with at most its length in
   * points drawn, or just past the last line with nothing drawn of it;
   * a cursor on a deleted line has nothing drawn of it.
   */
  predicate CursorOk(lines: seq<seq<LinePoint>>, deleted: set<nat>, nextLine: nat, nextPoint: nat)
  {
    nextLine <= |lines| &&
    (nextLine < |lines| ==> nextPoint <= |lines[nextLine]| && (nextLine in deleted ==> nextPoint == 0)) &&
    (nextLine == |lines| ==> nextPoint == 0)
  }

  /** A new line keeps a valid cursor valid. */
  lemma CursorOkAfterNewLine(lines: seq<seq<LinePoint>>, deleted: set<nat>, nextLine: nat, nextPoint: nat, pts: seq<LinePoint>)
    requires CursorOk(lines, deleted, nextLine, nextPoint) && |pts| >= 1
    ensures CursorOk(lines + [pts], deleted, nextLine, nextPoint)
  {
    if nextLine < |lines| {
      assert (lines + [pts])[nextLine] == lines[nextLine];
    }
  }

  /** A point appended to the last line keeps a valid cursor valid. */
  lemma CursorOkAfterNewPoint(lines: seq<seq<LinePoint>>, deleted: set<nat>, nextLine: nat, nextPoint: nat, p: LinePoint)
    requires CursorOk(lines, deleted, nextLine, nextPoint) && |lines| >= 1
    ensures CursorOk(lines[|lines| - 1 := lines[|lines| - 1] + [p]], deleted, nextLine, nextPoint)
  {
  }

  /** What the walk needs before line i (or, past the end, of the cursor it carries). */
  predicate Resumable(sc: Scene, i: nat, st: LinePass)
    requires i <= |sc.lines|
  {
    if i < |sc.lines| then
      st.startPoint <= |sc.lines[i]| && (i in sc.deleted ==> st.startPoint == 0) &&
      (st.startPoint == |sc.lines[i]| ==> st.nextPoint == |sc.lines[i]|)
    else CursorOk(sc.lines, sc.deleted, st.nextLine, st.nextPoint)
  }

  lemma StepResumable(sc: Scene, i: nat, st: LinePass, render: Renderer)
    requires WellFormed(sc.lines) && i < |sc.lines| && Resumable(sc, i, st)
    ensures Resumable(sc, i + 1, LineStep(sc, i, st, render))
  {
  }

  /** The walk leaves a cursor that a later pass can resume from. */
  lemma {:induction false} LinesFromCursor(sc: Scene, i: nat, st: LinePass, render: Renderer)
    requires WellFormed(sc.lines) && i <= |sc.lines| && Resumable(sc, i, st)
    ensures var r := LinesFrom(sc, i, st, render);
            CursorOk(sc.lines, sc.deleted, r.nextLine, r.nextPoint)
    decreases |sc.lines| - i
  {
    if i < |sc.lines| {
      var st' := LineStep(sc, i, st, render);
      StepResumable(sc, i, st, render);
      LinesFromCursor(sc, i + 1, st', render);
      LinesFromStep(sc, i, st, render);
    } else {
      LinesFromEnd(sc, i, st, render);
    }
  }

  /** Past the last line the walk leaves its state as it is. */
  lemma LinesFromEnd(sc: Scene, i: nat, st: LinePass, render: Renderer)
    requires WellFormed(sc.lines) && i >= |sc.lines|
    ensures LinesFrom(sc, i, st, render) == st
  {
  }

  /** Before the last line the walk takes one step and goes on. */
  lemma LinesFromStep(sc: Scene, i: nat, st: LinePass, render: Renderer)
    requires WellFormed(sc.lines) && i < |sc.lines|
    ensures LinesFrom(sc, i, st, render) == LinesFrom(sc, i + 1, LineStep(sc, i, st, render), render)
  {
  }

  /** The three saved cursors of the pass. */
  datatype Cursors = Cursors(nextLine: nat, nextPoint: nat, nextStroke: nat)

  /**
   * The clean-up after a full redraw as written: `nextPoint` is reset when
   * there are no calligraphy strokes (the comment says "out of lines"),
   * `nextLine` only on a full clear.
   */
  function FinishFullRedrawAsWritten(c: Cursors, lineCount: nat, strokeCount: nat, fullClear: bool): (r: Cursors)
    ensures strokeCount != 0 && !fullClear ==> r == c
  {
    var c1 := c.(nextPoint := if strokeCount == 0 then 0 else c.nextPoint,
                 nextStroke := if strokeCount == 0 then 0 else c.nextStroke);
    if fullClear then c1.(nextLine := 0, nextStroke := 0) else c1
  }

  /**
   * The clean-up as intended: out of lines (or after a full clear) the
   * line cursor starts again at the first point of the first line;
   * out of calligraphy strokes the stroke cursor starts again at 0.
   */
  function FinishFullRedraw(c: Cursors, lineCount: nat, strokeCount: nat, fullClear: bool): (r: Cursors)
    ensures lineCount == 0 || fullClear ==> r.nextLine == 0 && r.nextPoint == 0
    ensures strokeCount == 0 || fullClear ==> r.nextStroke == 0
    ensures lineCount != 0 && !fullClear ==> r.nextLine == c.nextLine && r.nextPoint == c.nextPoint
    ensures strokeCount != 0 && !fullClear ==> r.nextStroke == c.nextStroke
  {
    var restartLines := lineCount == 0 || fullClear;
    Cursors(if restartLines then 0 else c.nextLine,
            if restartLines then 0 else c.nextPoint,
            if strokeCount == 0 || fullClear then 0 else c.nextStroke)
  }

  /** After the intended clean-up the cursor is one a later pass can resume from. */
  lemma FinishFullRedrawRestoresCursor(sc: Scene, c: Cursors, strokeCount: nat, fullClear: bool)
    requires WellFormed(sc.lines)
    requires |sc.lines| > 0 ==> CursorOk(sc.lines, sc.deleted, c.nextLine, c.nextPoint)
    ensures var r := FinishFullRedraw(c, |sc.lines|, strokeCount, fullClear);
            CursorOk(sc.lines, sc.deleted, r.nextLine, r.nextPoint) && (c.nextStroke <= strokeCount ==> r.nextStroke <= strokeCount)
  {
  }

  // ---------------------------------------------------------------------
  // Calligraphy strokes
  // ---------------------------------------------------------------------

  /** The loop over the calligraphy strokes k .. n-1: each one not deleted is drawn. */
  function StrokeCommands(strokes: seq<Stroke>, deleted: set<nat>, k: nat, n: nat): seq<DrawCommand>
    requires n <= |strokes|
    decreases n
  {
    if n <= k then []
    else StrokeCommands(strokes, deleted, k, n - 1) + (if n - 1 in deleted then [] else [DrawStroke(strokes[n - 1], WEIGHT)])
  }

  /** Exactly the calligraphy strokes k .. n-1 that are not deleted are drawn, and nothing else. */
  lemma {:induction false} StrokeCommandsMeaning(strokes: seq<Stroke>, deleted: set<nat>, k: nat, n: nat)
    requires n <= |strokes|
    ensures var r := StrokeCommands(strokes, deleted, k, n);
            (forall c :: c in r ==> exists m :: k <= m < n && m !in deleted && c == DrawStroke(strokes[m], WEIGHT)) &&
            (forall m :: k <= m < n && m !in deleted ==> DrawStroke(strokes[m], WEIGHT) in r)
    decreases n
  {
    if n > k {
      StrokeCommandsMeaning(strokes, deleted, k, n - 1);
    }
  }

  // ---------------------------------------------------------------------
  // The loops of the pass
  // ---------------------------------------------------------------------

  /**
   * One iteration of the loop over the line strokes, with the engine's
   * cursors and the three most recent points held in locals.
   */
  method DrawLine(sc: Scene, i: nat, st: LinePass, render: Renderer) returns (r: LinePass)
    requires WellFormed(sc.lines) && i < |sc.lines|
    ensures r == LineStep(sc, i, st, render)
  {
    var pts := sc.lines[i];
    var cmds, cache, nextLine, nextPoint, startPoint := st.cmds, st.cache, i, st.nextPoint, st.startPoint;
    if i in sc.deleted {
      nextLine := nextLine + 1;
      nextPoint := 0;
      return LinePass(cmds, cache, nextLine, nextPoint, startPoint);
    }
    var needPerfectDraw;
    cmds, nextPoint, needPerfectDraw := DrawPoints(pts, startPoint, sc.perfect, cmds, nextPoint);
    if needPerfectDraw {
      var current := IsLastPathAndCurrentlyDrawn(sc, i);
      var path := if i !in cache || current then render(pts, !current) else cache[i];
      cache := cache[i := path];
      cmds := cmds + [Fill(path)];
    }
    if AllDrawingFinished(sc, i) {
      nextLine := nextLine + 1;
      nextPoint := 0;
    }
    r := LinePass(cmds, cache, nextLine, nextPoint, 0);
  }

  /**
   * The loop over the points of one line from `startPoint` on, with the
   * three most recent points shifted through p1, p2, p3: a quadratic
   * segment per point, or in perfect-freehand mode only the note that the
   * outline must be drawn. A start past the last point draws nothing:
   * the loop does not run, so the reads of p2 and p3 past the end of the
   * line (`undefined` in the source) are never used.
   */
  method DrawPoints(pts: seq<LinePoint>, startPoint: nat, perfect: bool, cmds0: seq<DrawCommand>, nextPoint0: nat)
    returns (cmds: seq<DrawCommand>, nextPoint: nat, needPerfectDraw: bool)
    requires |pts| >= 1
    ensures cmds == cmds0 + (if perfect then [] else QuadsRange(pts, startPoint, |pts|))
    ensures needPerfectDraw == (perfect && startPoint < |pts|)
    ensures nextPoint == (if startPoint < |pts| then |pts| else nextPoint0)
  {
    cmds, nextPoint, needPerfectDraw := cmds0, nextPoint0, false;
    if |pts| <= startPoint {
      return;
    }
    var p1: LinePoint;
    var p2 := pts[if startPoint > 1 then startPoint - 2 else 0];
    var p3 := pts[if startPoint > 0 then startPoint - 1 else 0];
    var j := startPoint;
    while j < |pts|
      invariant startPoint <= j <= |pts|
      invariant p2 == pts[if j > 1 then j - 2 else 0] && p3 == pts[if j > 0 then j - 1 else 0]
      invariant perfect ==> cmds == cmds0
      invariant !perfect ==> cmds == cmds0 + QuadsRange(pts, startPoint, j)
      invariant needPerfectDraw == (perfect && j > startPoint)
      invariant nextPoint == (if j > startPoint then j else nextPoint0)
    {
      nextPoint := j + 1;
      p1 := p2;
      p2 := p3;
      p3 := pts[j];
      if !perfect {
        assert Segment(p1, p2, p3) == SegmentAt(pts, j);
        assert cmds0 + QuadsRange(pts, startPoint, j + 1) == cmds + [SegmentAt(pts, j)] by {
          assert QuadsRange(pts, startPoint, j + 1) == QuadsRange(pts, startPoint, j) + [SegmentAt(pts, j)];
        }
        cmds := cmds + [Segment(p1, p2, p3)];
      } else {
        needPerfectDraw := true;
      }
      j := j + 1;
    }
  }

  /** The loop over the line strokes from line i on. */
  method DrawLines(sc: Scene, i: nat, st: LinePass, render: Renderer) returns (r: LinePass)
    requires WellFormed(sc.lines)
    ensures r == LinesFrom(sc, i, st, render)
  {
    r := st;
    var k := i;
    while k < |sc.lines|
      invariant i <= k
      invariant LinesFrom(sc, k, r, render) == LinesFrom(sc, i, st, render)
      decreases |sc.lines| - k
    {
      LinesFromStep(sc, k, r, render);
      r := DrawLine(sc, k, r, render);
      k := k + 1;
    }
    LinesFromEnd(sc, k, r, render);
  }

  /**
   * The loop over the calligraphy strokes from `start` on; `nextStroke` ends
   * one past the last stroke visited, or keeps `nextStroke0` when none is.
   */
  method DrawStrokes(strokes: seq<Stroke>, deleted: set<nat>, start: nat, nextStroke0: nat)
    returns (cmds: seq<DrawCommand>, nextStroke: nat)
    ensures cmds == StrokeCommands(strokes, deleted, start, |strokes|)
    ensures nextStroke == if start < |strokes| then |strokes| else nextStroke0
  {
    cmds := [];
    nextStroke := nextStroke0;
    var k := start;
    while k < |strokes|
      invariant start <= k <= |strokes| || (k == start && start > |strokes|)
      invariant cmds == StrokeCommands(strokes, deleted, start, if k < |strokes| then k else |strokes|)
      invariant nextStroke == if k > start then k else nextStroke0
    {
      nextStroke := k + 1;
      if k !in deleted {
        cmds := cmds + [DrawStroke(strokes[k], WEIGHT)];
      }
      k := k + 1;
    }
  }

  // ---------------------------------------------------------------------
  // One call of the pass
  // ---------------------------------------------------------------------

  /** What one call of the pass produces: the commands, the cache and the cursors it saves. */
  datatype Frame = Frame(cmds: seq<DrawCommand>, cache: map<nat, Path>, cursors: Cursors)

  /**
   * The two loops of `draw_upto_latest_point_async`: the line strokes from
   * the saved line and point, then the calligraphy strokes from the saved
   * stroke (from the start of both on a full redraw), and the cursors the
   * loops leave. A saved cursor past the end is no error: the loop it
   * starts does not run.
   */
  function Loops(sc: Scene, strokes: seq<Stroke>, strokesDeleted: set<nat>, c: Cursors, cache: map<nat, Path>,
                 full: bool, render: Renderer): Frame
    requires WellFormed(sc.lines)
  {
    var fromLine := if full then 0 else c.nextLine;
    var fromPoint := if full then 0 else c.nextPoint;
    var fromStroke := if full then 0 else c.nextStroke;
    var lines := LinesFrom(sc, fromLine, LinePass([], cache, c.nextLine, c.nextPoint, fromPoint), render);
    Frame(lines.cmds + StrokeCommands(strokes, strokesDeleted, fromStroke, |strokes|), lines.cache,
          Cursors(lines.nextLine, lines.nextPoint, if fromStroke < |strokes| then |strokes| else c.nextStroke))
  }

  /**
   * One call of `draw_upto_latest_point_async` as written: the two loops,
   * then after a full redraw the clean-up `FinishFullRedrawAsWritten`.
   */
  function Pass(sc: Scene, strokes: seq<Stroke>, strokesDeleted: set<nat>, c: Cursors, cache: map<nat, Path>,
                full: bool, fullClear: bool, render: Renderer): Frame
    requires WellFormed(sc.lines)
  {
    var f := Loops(sc, strokes, strokesDeleted, c, cache, full, render);
    if full then f.(cursors := FinishFullRedrawAsWritten(f.cursors, |sc.lines|, |strokes|, fullClear)) else f
  }

  /** The pass as intended: the same loops, then the corrected clean-up `FinishFullRedraw`. */
  function IntendedPass(sc: Scene, strokes: seq<Stroke>, strokesDeleted: set<nat>, c: Cursors, cache: map<nat, Path>,
                        full: bool, fullClear: bool, render: Renderer): Frame
    requires WellFormed(sc.lines)
  {
    var f := Loops(sc, strokes, strokesDeleted, c, cache, full, render);
    if full then f.(cursors := FinishFullRedraw(f.cursors, |sc.lines|, |strokes|, fullClear)) else f
  }

  /** The loops leave a valid line cursor whenever they start from one, or from the first of some lines. */
  lemma LoopsKeepCursors(sc: Scene, strokes: seq<Stroke>, strokesDeleted: set<nat>, c: Cursors, cache: map<nat, Path>,
                         full: bool, render: Renderer)
    requires WellFormed(sc.lines)
    requires !full ==> CursorOk(sc.lines, sc.deleted, c.nextLine, c.nextPoint) && c.nextStroke <= |strokes|
    requires full ==> |sc.lines| > 0
    ensures var r := Loops(sc, strokes, strokesDeleted, c, cache, full, render).cursors;
            CursorOk(sc.lines, sc.deleted, r.nextLine, r.nextPoint) && (|strokes| > 0 ==> r.nextStroke <= |strokes|)
  {
    var fromLine := if full then 0 else c.nextLine;
    LinesFromCursor(sc, fromLine, LinePass([], cache, c.nextLine, c.nextPoint, if full then 0 else c.nextPoint), render);
  }

  /**
   * The stroke cursor the source keeps: after any pass it is at most the
   * number of calligraphy strokes, when it was before an incremental one.
   */
  lemma PassKeepsStrokeCursor(sc: Scene, strokes: seq<Stroke>, strokesDeleted: set<nat>, c: Cursors, cache: map<nat, Path>,
                              full: bool, fullClear: bool, render: Renderer)
    requires WellFormed(sc.lines)
    requires !full ==> c.nextStroke <= |strokes|
    ensures Pass(sc, strokes, strokesDeleted, c, cache, full, fullClear, render).cursors.nextStroke <= |strokes|
  {
  }

  /**
   * The pass as written leaves cursors the next pass can resume from, except
   * after a full redraw over no lines, or a full clear while calligraphy
   * strokes are stored: those keep a line cursor from before the redraw.
   */
  lemma PassKeepsCursorsWithLines(sc: Scene, strokes: seq<Stroke>, strokesDeleted: set<nat>, c: Cursors, cache: map<nat, Path>,
                                  full: bool, fullClear: bool, render: Renderer)
    requires WellFormed(sc.lines)
    requires !full ==> CursorOk(sc.lines, sc.deleted, c.nextLine, c.nextPoint) && c.nextStroke <= |strokes|
    requires full ==> if fullClear then |strokes| == 0 else |sc.lines| > 0
    ensures var r := Pass(sc, strokes, strokesDeleted, c, cache, full, fullClear, render).cursors;
            CursorOk(sc.lines, sc.deleted, r.nextLine, r.nextPoint) && r.nextStroke <= |strokes|
  {
    var f := Loops(sc, strokes, strokesDeleted, c, cache, full, render);
    if !full || |sc.lines| > 0 {
      LoopsKeepCursors(sc, strokes, strokesDeleted, c, cache, full, render);
    }
    if full {
      var r := FinishFullRedrawAsWritten(f.cursors, |sc.lines|, |strokes|, fullClear);
      assert r.nextPoint == 0 || r == f.cursors.(nextStroke := r.nextStroke);
    }
  }

  /** The intended pass always leaves cursors that the next pass can resume from. */
  lemma PassKeepsCursors(sc: Scene, strokes: seq<Stroke>, strokesDeleted: set<nat>, c: Cursors, cache: map<nat, Path>,
                         full: bool, fullClear: bool, render: Renderer)
    requires WellFormed(sc.lines)
    requires !full ==> CursorOk(sc.lines, sc.deleted, c.nextLine, c.nextPoint) && c.nextStroke <= |strokes|
    ensures var r := IntendedPass(sc, strokes, strokesDeleted, c, cache, full, fullClear, render).cursors;
            CursorOk(sc.lines, sc.deleted, r.nextLine, r.nextPoint) && r.nextStroke <= |strokes|
  {
    var f := Loops(sc, strokes, strokesDeleted, c, cache, full, render);
    if !full || |sc.lines| > 0 {
      LoopsKeepCursors(sc, strokes, strokesDeleted, c, cache, full, render);
    }
    if full {
      FinishFullRedrawRestoresCursor(sc, f.cursors, |strokes|, fullClear);
    }
  }

  /**
   * The source's clean-up: after an undo removed the only line while a
   * calligraphy stroke remains (cursors 1, 0, 1), the full redraw keeps the
   * line cursor past the end. Once a new line is drawn, the next pass draws
   * nothing of it, though a full redraw would.
   */
  lemma StaleLineCursorAfterFullRedraw(s: Stroke, p: LinePoint, cache: map<nat, Path>, render: Renderer)
    ensures var f := Pass(Scene([], {}, false, false), [s], {}, Cursors(1, 0, 1), cache, true, false, render);
            f.cursors == Cursors(1, 0, 1) && !CursorOk([], {}, f.cursors.nextLine, f.cursors.nextPoint)
    ensures var after := Scene([[p]], {}, false, true);
            Pass(after, [s], {}, Cursors(1, 0, 1), cache, false, false, render).cmds == [] &&
            Pass(after, [s], {}, Cursors(1, 0, 1), cache, true, false, render).cmds == [SegmentAt([p], 0), DrawStroke(s, WEIGHT)]
  {
    var after := Scene([[p]], {}, false, true);
    var st := LinePass([], cache, 1, 0, 0);
    LinesFromStep(after, 0, st, render);
    LinesFromEnd(after, 1, LineStep(after, 0, st, render), render);
    assert QuadsRange([p], 0, 1) == [SegmentAt([p], 0)];
  }

  /** In the same situation the intended clean-up restarts the line cursor, and the next pass draws the new line. */
  lemma FreshLineDrawnAfterFullRedraw(s: Stroke, p: LinePoint, cache: map<nat, Path>, render: Renderer)
    ensures var f := IntendedPass(Scene([], {}, false, false), [s], {}, Cursors(1, 0, 1), cache, true, false, render);
            f.cursors == Cursors(0, 0, 1) &&
            IntendedPass(Scene([[p]], {}, false, true), [s], {}, f.cursors, cache, false, false, render).cmds == [SegmentAt([p], 0)]
  {
    var after := Scene([[p]], {}, false, true);
    var st := LinePass([], cache, 0, 0, 0);
    LinesFromStep(after, 0, st, render);
    LinesFromEnd(after, 1, LineStep(after, 0, st, render), render);
    assert QuadsRange([p], 0, 1) == [SegmentAt([p], 0)];
  }

  /** The pass as the engine runs it, its two loops in turn. */
  method DrawFrame(sc: Scene, strokes: seq<Stroke>, strokesDeleted: set<nat>, c: Cursors, cache: map<nat, Path>,
                   full: bool, fullClear: bool, render: Renderer) returns (r: Frame)
    requires WellFormed(sc.lines)
    ensures r == Pass(sc, strokes, strokesDeleted, c, cache, full, fullClear, render)
  {
    var startLine: nat, startPoint: nat, startStroke: nat := c.nextLine, c.nextPoint, c.nextStroke;
    if full {
      startLine, startPoint, startStroke := 0, 0, 0;
    }
    var lines := DrawLines(sc, startLine, LinePass([], cache, c.nextLine, c.nextPoint, startPoint), render);
    var strokeCmds, nextStroke := DrawStrokes(strokes, strokesDeleted, startStroke, c.nextStroke);
    var cursors := Cursors(lines.nextLine, lines.nextPoint, nextStroke);
    if full {
      cursors := FinishFullRedrawAsWritten(cursors, |sc.lines|, |strokes|, fullClear);
    }
    r := Frame(lines.cmds + strokeCmds, lines.cache, cursors);
  }
}
