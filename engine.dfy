/**
 * The blackboard engine: its stroke history, the three drawing modes,
 * the handlers of pointer events that capture lines, calligraphy strokes and
 * stroke-delete gestures, undo and clearing, and the per-frame pass.
 *
 * The engine's globals are the fields of `Blackboard`; each of its
 * functions is a method. The sparse `*_deleted` arrays are the sets of
 * indices whose flag is set, and `perfect_cache` is a map whose missing keys
 * are the empty (or nulled) slots. Buttons, canvases and the guide line on
 * the secondary canvas are not modelled. `getDist` is the parameter `dist`;
 * the corner test and the interior control points of the curve fitting are
 * the parameters `isCorner` and `interior`.
 */
module Engine {
  import opened Geometry
  import opened Intersect
  import opened Bezier
  import opened CurveFitting
  import opened Drawing

  /** The entries of the shared history: 'L', 'C' and 'D'. */
  datatype Marker = LineMarker | CalligraphyMarker | DeleteMarker

  /** One entry of a stroke-delete record, `["L", i]` or `["C", i]`. */
  datatype DeletedRef = DeletedLine(line: nat) | DeletedStroke(stroke: nat)

  /** What the handlers read of a pointer event. */
  datatype PointerEvent = PointerEvent(isPrimary: bool, pointerType: string, offsetX: real, offsetY: real, pressure: real)

  /** A `pointerType` starting with 'p' is a pen. */
  predicate IsPen(e: PointerEvent)
  {
    |e.pointerType| > 0 && e.pointerType[0] == 'p'
  }

  /** The least distance between consecutive points of a guide path. */
  const MIN_MOUSE_DIST: real := 5.0

  // ---------------------------------------------------------------------
  // Values the handlers build
  // ---------------------------------------------------------------------

  /**
   * The point a line handler stores: a pen point keeps its pressure and is
   * widened by it, any other point gets pressure 2 and the plain width.
   */
  function PointOf(e: PointerEvent, lineWidth: real): (p: LinePoint)
  {
    if IsPen(e) then LinePoint(e.offsetX, e.offsetY, e.pressure, 1.0 + e.pressure * lineWidth * 2.0)
    else LinePoint(e.offsetX, e.offsetY, 2.0, lineWidth)
  }

  /**
   * A stroke started by a mouse or touch event is drawn with simulated pressure,
   * one started by a pen (pressure at most 1) with its real pressure.
   */
  lemma SimulatedPressureIffNotPen(e: PointerEvent, lineWidth: real, rest: seq<LinePoint>, complete: bool)
    requires 0.0 <= e.pressure <= 1.0
    ensures FreeDrawOptionsOf([PointOf(e, lineWidth)] + rest, complete, lineWidth).simulatePressure <==> !IsPen(e)
    ensures Position(PointOf(e, lineWidth)) == Vec2(e.offsetX, e.offsetY)
  {
  }

  /**
   * The guide path after a move to `mouse`: the first point is always kept,
   * a later one only at distance at least `MIN_MOUSE_DIST` from the last kept.
   */
  function GuidePathAfterMove(path: seq<Vec2>, mouse: Vec2, dist: Metric): (r: seq<Vec2>)
    ensures r == path + [mouse] || r == path
    ensures r == path + [mouse] <==> path == [] || dist(mouse, path[|path| - 1]) >= MIN_MOUSE_DIST
  {
    if path != [] then
      if dist(mouse, path[|path| - 1]) >= MIN_MOUSE_DIST then path + [mouse] else path
    else path + [mouse]
  }

  /** Consecutive guide-path points are at least `MIN_MOUSE_DIST` apart. */
  predicate Spaced(path: seq<Vec2>, dist: Metric)
  {
    forall i :: 0 <= i < |path| - 1 ==> dist(path[i + 1], path[i]) >= MIN_MOUSE_DIST
  }

  /** Moves keep the guide path spaced, so it never repeats a point. */
  lemma GuidePathStaysSpaced(path: seq<Vec2>, mouse: Vec2, dist: Metric)
    requires Spaced(path, dist)
    ensures Spaced(GuidePathAfterMove(path, mouse, dist), dist)
    ensures IsMetric(dist) ==> NoRepeats(GuidePathAfterMove(path, mouse, dist))
  {
    var r := GuidePathAfterMove(path, mouse, dist);
    if IsMetric(dist) {
      forall i | 0 <= i < |r| - 1
        ensures r[i] != r[i + 1]
      {
        assert dist(r[i + 1], r[i]) >= MIN_MOUSE_DIST;
      }
    }
  }

  /** Moves keep a guide path without repeated points free of them. */
  lemma GuidePathNoRepeats(path: seq<Vec2>, mouse: Vec2, dist: Metric)
    requires IsMetric(dist) && NoRepeats(path)
    ensures NoRepeats(GuidePathAfterMove(path, mouse, dist))
  {
    var r := GuidePathAfterMove(path, mouse, dist);
    if r == path + [mouse] && path != [] {
      assert dist(mouse, path[|path| - 1]) >= MIN_MOUSE_DIST;
      assert r[|path| - 1] != r[|path|];
    }
  }

  /** The `["L", i]` records of the first n lines the path crosses. */
  function LineHits(lines: seq<seq<LinePoint>>, path: seq<Vec2>, n: nat): seq<DeletedRef>
    requires n <= |lines|
  {
    if n == 0 then []
    else LineHits(lines, path, n - 1) + (if DoLinesIntersect(Positions(lines[n - 1]), path) then [DeletedLine(n - 1)] else [])
  }

  /** The records name exactly the lines the path crosses, each once and in index order. */
  lemma {:induction false} LineHitsMeaning(lines: seq<seq<LinePoint>>, path: seq<Vec2>, n: nat)
    requires n <= |lines|
    ensures var r := LineHits(lines, path, n);
            (forall i: nat :: DeletedLine(i) in r <==> i < n && DoLinesIntersect(Positions(lines[i]), path)) &&
            (forall d :: d in r ==> d.DeletedLine? && d.line < n) &&
            (forall a, b :: 0 <= a < b < |r| ==> r[a].line < r[b].line)
  {
    if n > 0 {
      LineHitsMeaning(lines, path, n - 1);
    }
  }

  /** The `["C", i]` records of the first n calligraphy strokes the path crosses. */
  function StrokeHits(strokePoints: seq<seq<Vec2>>, path: seq<Vec2>, n: nat): seq<DeletedRef>
    requires n <= |strokePoints|
  {
    if n == 0 then []
    else StrokeHits(strokePoints, path, n - 1) + (if DoLinesIntersect(strokePoints[n - 1], path) then [DeletedStroke(n - 1)] else [])
  }

  /** The records name exactly the calligraphy strokes the path crosses, each once and in index order. */
  lemma {:induction false} StrokeHitsMeaning(strokePoints: seq<seq<Vec2>>, path: seq<Vec2>, n: nat)
    requires n <= |strokePoints|
    ensures var r := StrokeHits(strokePoints, path, n);
            (forall i: nat :: DeletedStroke(i) in r <==> i < n && DoLinesIntersect(strokePoints[i], path)) &&
            (forall d :: d in r ==> d.DeletedStroke? && d.stroke < n) &&
            (forall a, b :: 0 <= a < b < |r| ==> r[a].stroke < r[b].stroke)
  {
    if n > 0 {
      StrokeHitsMeaning(strokePoints, path, n - 1);
    }
  }

  /** The line indices a stroke-delete record names. */
  function LinesOf(refs: seq<DeletedRef>): (r: set<nat>)
    ensures forall i :: i in r <==> DeletedLine(i) in refs
  {
    if refs == [] then {}
    else
      var init := refs[..|refs| - 1];
      assert refs == init + [refs[|refs| - 1]];
      LinesOf(init) + (if refs[|refs| - 1].DeletedLine? then {refs[|refs| - 1].line} else {})
  }

  /** The calligraphy-stroke indices a stroke-delete record names. */
  function StrokesOf(refs: seq<DeletedRef>): (r: set<nat>)
    ensures forall i :: i in r <==> DeletedStroke(i) in refs
  {
    if refs == [] then {}
    else
      var init := refs[..|refs| - 1];
      assert refs == init + [refs[|refs| - 1]];
      StrokesOf(init) + (if refs[|refs| - 1].DeletedStroke? then {refs[|refs| - 1].stroke} else {})
  }

  lemma LinesOfPush(refs: seq<DeletedRef>, d: DeletedRef)
    ensures LinesOf(refs + [d]) == LinesOf(refs) + (if d.DeletedLine? then {d.line} else {})
  {
    assert (refs + [d])[..|refs|] == refs;
  }

  lemma StrokesOfPush(refs: seq<DeletedRef>, d: DeletedRef)
    ensures StrokesOf(refs + [d]) == StrokesOf(refs) + (if d.DeletedStroke? then {d.stroke} else {})
  {
    assert (refs + [d])[..|refs|] == refs;
  }

  /**
   * Undoing a deletion clears the flag of every stroke it recorded, so it
   * gives back the flags from before the deletion exactly when none of
   * those strokes was already hidden by an earlier deletion.
   */
  lemma UndoDeletionRestoresIff(before: set<nat>, hits: set<nat>)
    ensures (before + hits) - hits == before <==> hits !! before
  {
    if (before + hits) - hits == before {
      forall i | i in hits
        ensures i !in before
      {
        assert i !in (before + hits) - hits;
      }
    }
  }

  /** The number of markers of one kind in the history. */
  function Count(history: seq<Marker>, m: Marker): nat
  {
    multiset(history)[m]
  }

  /** JavaScript's `pop` on a list that may be empty. */
  function Pop<T>(s: seq<T>): (r: seq<T>)
    ensures s == [] ==> r == []
    ensures s != [] ==> r + [s[|s| - 1]] == s
  {
    if s == [] then [] else s[..|s| - 1]
  }

  // ---------------------------------------------------------------------
  // The loops over the stored strokes
  // ---------------------------------------------------------------------

  /** The first loop of `pointerUpStrokeDelete`: flag every line the path crosses. */
  method MarkLines(lines: seq<seq<LinePoint>>, deleted: set<nat>, path: seq<Vec2>)
    returns (marked: seq<DeletedRef>, deletedAfter: set<nat>)
    ensures marked == LineHits(lines, path, |lines|)
    ensures deletedAfter == deleted + LinesOf(marked)
  {
    marked := [];
    deletedAfter := deleted;
    var i := 0;
    while i < |lines|
      invariant 0 <= i <= |lines|
      invariant marked == LineHits(lines, path, i)
      invariant deletedAfter == deleted + LinesOf(marked)
    {
      if DoLinesIntersect(Positions(lines[i]), path) {
        LinesOfPush(marked, DeletedLine(i));
        deletedAfter := deletedAfter + {i};
        marked := marked + [DeletedLine(i)];
      }
      i := i + 1;
    }
  }

  /** The second loop of `pointerUpStrokeDelete`: flag every calligraphy stroke the path crosses. */
  method MarkStrokes(strokePoints: seq<seq<Vec2>>, deleted: set<nat>, path: seq<Vec2>)
    returns (marked: seq<DeletedRef>, deletedAfter: set<nat>)
    ensures marked == StrokeHits(strokePoints, path, |strokePoints|)
    ensures deletedAfter == deleted + StrokesOf(marked)
  {
    marked := [];
    deletedAfter := deleted;
    var i := 0;
    while i < |strokePoints|
      invariant 0 <= i <= |strokePoints|
      invariant marked == StrokeHits(strokePoints, path, i)
      invariant deletedAfter == deleted + StrokesOf(marked)
    {
      if DoLinesIntersect(strokePoints[i], path) {
        StrokesOfPush(marked, DeletedStroke(i));
        deletedAfter := deletedAfter + {i};
        marked := marked + [DeletedStroke(i)];
      }
      i := i + 1;
    }
  }

  /** The loop of `ts_undo` over a stroke-delete record: clear the flag of every stroke it names. */
  method Unmark(marked: seq<DeletedRef>, linesDeleted: set<nat>, strokesDeleted: set<nat>)
    returns (linesAfter: set<nat>, strokesAfter: set<nat>)
    ensures linesAfter == linesDeleted - LinesOf(marked)
    ensures strokesAfter == strokesDeleted - StrokesOf(marked)
  {
    linesAfter, strokesAfter := linesDeleted, strokesDeleted;
    var k := 0;
    while k < |marked|
      invariant 0 <= k <= |marked|
      invariant linesAfter == linesDeleted - LinesOf(marked[..k])
      invariant strokesAfter == strokesDeleted - StrokesOf(marked[..k])
    {
      assert marked[..k + 1] == marked[..k] + [marked[k]];
      LinesOfPush(marked[..k], marked[k]);
      StrokesOfPush(marked[..k], marked[k]);
      match marked[k] {
        case DeletedStroke(i) => strokesAfter := strokesAfter - {i};
        case DeletedLine(i) => linesAfter := linesAfter - {i};
      }
      k := k + 1;
    }
    assert marked[..k] == marked;
  }

  // ---------------------------------------------------------------------
  // Modes
  // ---------------------------------------------------------------------

  datatype Modes = Modes(calligraphy: bool, perfectFreehand: bool, strokeDelete: bool)

  datatype Mode = CalligraphyMode | PerfectFreehandMode | StrokeDeleteMode

  predicate AtMostOneMode(m: Modes)
  {
    (m.calligraphy ==> !m.perfectFreehand && !m.strokeDelete) && (m.perfectFreehand ==> !m.strokeDelete)
  }

  function IsOn(m: Modes, which: Mode): bool
  {
    match which
    case CalligraphyMode => m.calligraphy
    case PerfectFreehandMode => m.perfectFreehand
    case StrokeDeleteMode => m.strokeDelete
  }

  /** Only the chosen mode, set to `on`. */
  function Only(which: Mode, on: bool): Modes
  {
    match which
    case CalligraphyMode => Modes(on, false, false)
    case PerfectFreehandMode => Modes(false, on, false)
    case StrokeDeleteMode => Modes(false, false, on)
  }

  /** The modes after `switch_*`: the chosen flag negated, every other flag off. */
  function Toggle(m: Modes, which: Mode): (r: Modes)
    ensures AtMostOneMode(r)
    ensures IsOn(r, which) == !IsOn(m, which)
    ensures forall other :: other != which ==> !IsOn(r, other)
  {
    Only(which, !IsOn(m, which))
  }

  /** Toggling a mode twice gives it back its old value and turns every other mode off. */
  lemma ToggleTwice(m: Modes, which: Mode)
    ensures Toggle(Toggle(m, which), which) == Only(which, IsOn(m, which))
    ensures !IsOn(m, which) ==> Toggle(Toggle(m, which), which) == Modes(false, false, false)
  {
  }

  // ---------------------------------------------------------------------
  // The stored drawing
  // ---------------------------------------------------------------------

  /**
   * What the engine keeps of the drawing: the line strokes, the calligraphy
   * strokes with their captured points, the two sets of deleted flags, the
   * stroke-delete records, the shared history and the perfect-freehand cache.
   */
  datatype Store = Store(lines: seq<seq<LinePoint>>, calligraphyPoints: seq<seq<Vec2>>, strokes: seq<Stroke>,
                         linesDeleted: set<nat>, strokesDeleted: set<nat>, deleteList: seq<seq<DeletedRef>>,
                         history: seq<Marker>, cache: map<nat, Path>)

  const EmptyStore: Store := Store([], [], [], {}, {}, [], [], map[])

  /** One line per 'L' marker, one record per 'D' marker, the two calligraphy lists in step, no empty line. */
  predicate StoreOk(s: Store)
  {
    Count(s.history, LineMarker) == |s.lines| &&
    Count(s.history, DeleteMarker) == |s.deleteList| &&
    |s.strokes| == |s.calligraphyPoints| &&
    WellFormed(s.lines)
  }

  /** What `pointerDownLine` stores: a new one-point line and its marker. */
  function AddLine(s: Store, p: LinePoint): (r: Store)
    ensures StoreOk(s) ==> StoreOk(r)
  {
    s.(lines := s.lines + [[p]], history := s.history + [LineMarker])
  }

  /** What `pointerMoveLine` and `pointerUpLine` store: one more point on the last line. */
  function ExtendLast(s: Store, p: LinePoint): (r: Store)
    requires |s.lines| > 0
    ensures StoreOk(s) ==> StoreOk(r)
  {
    s.(lines := s.lines[|s.lines| - 1 := s.lines[|s.lines| - 1] + [p]])
  }

  /** What `pointerDownCaligraphy` stores: the marker of a calligraphy stroke. */
  function AddCalligraphyMarker(s: Store): (r: Store)
    ensures StoreOk(s) ==> StoreOk(r)
  {
    s.(history := s.history + [CalligraphyMarker])
  }

  /** What `pointerUpCaligraphy` stores: the captured points and the stroke fitted to them. */
  function AddStroke(s: Store, points: seq<Vec2>, stroke: Stroke): (r: Store)
    ensures StoreOk(s) ==> StoreOk(r)
  {
    s.(calligraphyPoints := s.calligraphyPoints + [points], strokes := s.strokes + [stroke])
  }

  /** The record of one stroke-delete gesture: the lines, then the calligraphy strokes the path crosses. */
  function Hits(s: Store, path: seq<Vec2>): seq<DeletedRef>
  {
    LineHits(s.lines, path, |s.lines|) + StrokeHits(s.calligraphyPoints, path, |s.calligraphyPoints|)
  }

  /** What `pointerUpStrokeDelete` stores: the flags of everything the path crosses, and the record if there is one. */
  function Delete(s: Store, path: seq<Vec2>): (r: Store)
    ensures StoreOk(s) ==> StoreOk(r)
  {
    var marked := Hits(s, path);
    var flagged := s.(linesDeleted := s.linesDeleted + LinesOf(marked), strokesDeleted := s.strokesDeleted + StrokesOf(marked));
    if marked == [] then flagged
    else flagged.(deleteList := s.deleteList + [marked], history := s.history + [DeleteMarker])
  }

  /**
   * What `ts_undo` does to the store before it redraws or clears: pop the
   * newest marker and reverse its entry. A calligraphy marker pops the
   * newest stroke, whichever gesture stored it.
   */
  function Undo(s: Store): (r: Store)
    ensures r.history == Pop(s.history)
  {
    if s.history == [] then s
    else
      var rest := s.history[..|s.history| - 1];
      var top := s.history[|s.history| - 1];
      assert s.history == rest + [top];
      match top
      case CalligraphyMarker =>
        s.(history := rest, strokes := Pop(s.strokes), calligraphyPoints := Pop(s.calligraphyPoints))
      case LineMarker =>
        s.(history := rest, lines := Pop(s.lines), cache := if |s.lines| > 0 then s.cache - {|s.lines| - 1} else s.cache)
      case DeleteMarker =>
        if s.deleteList == [] then s.(history := rest)
        else
          var marked := s.deleteList[|s.deleteList| - 1];
          s.(history := rest, deleteList := Pop(s.deleteList),
             linesDeleted := s.linesDeleted - LinesOf(marked), strokesDeleted := s.strokesDeleted - StrokesOf(marked))
  }

  /** Undo keeps one line per 'L' marker and one record per 'D' marker. */
  lemma UndoKeepsStoreOk(s: Store)
    requires StoreOk(s)
    ensures StoreOk(Undo(s))
  {
    if s.history != [] {
      var rest, top := s.history[..|s.history| - 1], s.history[|s.history| - 1];
      CountPop(s.history);
      var r := Undo(s);
      match top
      case CalligraphyMarker =>
        assert r.lines == s.lines && r.deleteList == s.deleteList;
      case LineMarker =>
        assert r.lines == Pop(s.lines) && r.deleteList == s.deleteList;
      case DeleteMarker =>
        assert r.lines == s.lines && r.deleteList == Pop(s.deleteList);
    }
  }

  /** Popping the newest marker lowers its count by one and leaves the others. */
  lemma CountPop(h: seq<Marker>)
    requires h != []
    ensures forall m :: Count(Pop(h), m) == Count(h, m) - (if m == h[|h| - 1] then 1 else 0)
  {
    var rest, top := h[..|h| - 1], h[|h| - 1];
    assert h == rest + [top];
    assert multiset(h) == multiset(rest) + multiset{top};
  }

  /** Undo right after a pointer-down of a line removes the new line, its marker and its cache slot. */
  lemma UndoAddLine(s: Store, p: LinePoint)
    ensures Undo(AddLine(s, p)) == s.(cache := s.cache - {|s.lines|})
  {
    assert Pop(s.lines + [[p]]) == s.lines;
  }

  /**
   * While the newest marker is the line's own, the points a line gesture
   * adds do not change what undo gives back: undo removes the whole line.
   */
  lemma UndoIgnoresExtend(s: Store, p: LinePoint)
    requires |s.lines| > 0 && s.history != [] && s.history[|s.history| - 1] == LineMarker
    ensures Undo(ExtendLast(s, p)) == Undo(s)
  {
    var n := |s.lines| - 1;
    assert Pop(s.lines[n := s.lines[n] + [p]]) == s.lines[..n];
  }

  /** Undo after a calligraphy gesture removes its stroke and its marker. */
  lemma UndoCalligraphyGesture(s: Store, points: seq<Vec2>, stroke: Stroke)
    ensures Undo(AddStroke(AddCalligraphyMarker(s), points, stroke)) == s
  {
  }

  /**
   * A calligraphy click that captured no path leaves a marker without a
   * stroke; undoing it removes the newest stroke of an earlier gesture.
   */
  lemma UndoStrokelessMarker(s: Store)
    requires s.strokes != []
    ensures Undo(AddCalligraphyMarker(s)).strokes == s.strokes[..|s.strokes| - 1]
    ensures Undo(AddCalligraphyMarker(s)).history == s.history
  {
  }

  /**
   * Undo after a stroke-delete gesture that hid something gives back the
   * store from before exactly when none of the strokes it crossed was
   * already hidden.
   */
  lemma UndoDeleteGesture(s: Store, path: seq<Vec2>)
    requires Hits(s, path) != []
    ensures Undo(Delete(s, path)) == s <==>
      LinesOf(Hits(s, path)) !! s.linesDeleted && StrokesOf(Hits(s, path)) !! s.strokesDeleted
  {
    var marked := Hits(s, path);
    UndoDeletionRestoresIff(s.linesDeleted, LinesOf(marked));
    UndoDeletionRestoresIff(s.strokesDeleted, StrokesOf(marked));
    var d := Delete(s, path);
    assert d.history == s.history + [DeleteMarker] && d.deleteList == s.deleteList + [marked];
    var u := Undo(d);
    assert u.history == s.history && u.deleteList == s.deleteList;
    assert u.linesDeleted == (s.linesDeleted + LinesOf(marked)) - LinesOf(marked);
    assert u.strokesDeleted == (s.strokesDeleted + StrokesOf(marked)) - StrokesOf(marked);
    assert u == s.(linesDeleted := u.linesDeleted, strokesDeleted := u.strokesDeleted);
  }

  /**
   * The undo step of `ts_undo`, statement by statement: pop the newest
   * marker and reverse its entry, clearing the flags of a stroke-delete
   * record one reference at a time.
   */
  method UndoLast(s: Store) returns (r: Store)
    requires s.history != []
    ensures r == Undo(s)
  {
    var lineType := s.history[|s.history| - 1];
    r := s.(history := s.history[..|s.history| - 1]);
    match lineType {
      case CalligraphyMarker =>
        r := r.(strokes := Pop(s.strokes), calligraphyPoints := Pop(s.calligraphyPoints));
      case LineMarker =>
        if |s.lines| > 0 {
          var index: nat := |s.lines| - 1;
          r := r.(lines := s.lines[..index], cache := s.cache - {index});
        }
      case DeleteMarker =>
        if s.deleteList != [] {
          var marked := s.deleteList[|s.deleteList| - 1];
          var linesAfter, strokesAfter := Unmark(marked, s.linesDeleted, s.strokesDeleted);
          r := r.(deleteList := s.deleteList[..|s.deleteList| - 1], linesDeleted := linesAfter, strokesDeleted := strokesAfter);
        }
    }
  }

  /**
   * The commit of `pointerUpStrokeDelete`: flag every line the path
   * crosses, then every calligraphy stroke, and record the hits under a 'D'
   * marker when there are any.
   */
  method DeleteHits(s: Store, path: seq<Vec2>) returns (r: Store)
    ensures r == Delete(s, path)
  {
    var markedLines, linesAfter := MarkLines(s.lines, s.linesDeleted, path);
    var markedStrokes, strokesAfter := MarkStrokes(s.calligraphyPoints, s.strokesDeleted, path);
    var marked := markedLines + markedStrokes;
    LineHitsMeaning(s.lines, path, |s.lines|);
    StrokeHitsMeaning(s.calligraphyPoints, path, |s.calligraphyPoints|);
    assert LinesOf(marked) == LinesOf(markedLines);
    assert StrokesOf(marked) == StrokesOf(markedStrokes);
    r := s.(linesDeleted := linesAfter, strokesDeleted := strokesAfter);
    if marked != [] {
      r := r.(history := s.history + [DeleteMarker], deleteList := s.deleteList + [marked]);
    }
  }

  // ---------------------------------------------------------------------
  // The engine
  // ---------------------------------------------------------------------

  class Blackboard {
    var calligraphy: bool
    var perfectFreehand: bool
    var strokeDelete: bool
    var lineWidth: real
    var isPointerDown: bool
    var drawingWithPressurePenOnly: bool

    /**
     * The drawing: `arrays_of_points`, `arrays_of_calligraphy_points`,
     * `strokes`, the two `*_deleted` flag lists, `stroke_delete_list`,
     * `line_type_history` and `perfect_cache`, held together as one value.
     */
    var drawing: Store

    var pleaseRedrawEverything: bool
    var fullClear: bool
    var nextLine: nat
    var nextPoint: nat
    var nextStroke: nat

    /** The guide path of a calligraphy or stroke-delete gesture. */
    var currentPath: seq<Vec2>

    function ModesOf(): Modes
      reads this
    {
      Modes(calligraphy, perfectFreehand, strokeDelete)
    }

    function CursorsOf(): Cursors
      reads this
    {
      Cursors(nextLine, nextPoint, nextStroke)
    }

    /**
     * What every handler keeps: a consistent store, at most one mode, a
     * guide path without repeated points, a line to extend whenever a line
     * gesture is under way, and a stroke cursor within the calligraphy
     * strokes unless a full redraw is pending. The saved line cursor is not
     * bounded: the source's full redraw can leave it past the last line
     * (`Drawing.StaleLineCursorAfterFullRedraw`, `StaleLineCursorScenario`).
     */
    predicate Valid()
      reads this
    {
      StoreOk(drawing) &&
      AtMostOneMode(ModesOf()) &&
      NoRepeats(currentPath) &&
      (isPointerDown && !calligraphy && !strokeDelete ==> |drawing.lines| > 0) &&
      (!pleaseRedrawEverything ==> nextStroke <= |drawing.strokes|)
    }

    /** The state the page starts in; both configurable modes default to off. */
    constructor (lineWidth: real)
      ensures Valid() && drawing == EmptyStore
      ensures ModesOf() == Modes(false, false, false) && this.lineWidth == lineWidth
      ensures !isPointerDown && !drawingWithPressurePenOnly
      ensures !pleaseRedrawEverything && !fullClear && CursorsOf() == Cursors(0, 0, 0)
      ensures currentPath == []
    {
      calligraphy, perfectFreehand, strokeDelete := false, false, false;
      this.lineWidth := lineWidth;
      isPointerDown, drawingWithPressurePenOnly := false, false;
      drawing := EmptyStore;
      pleaseRedrawEverything, fullClear := false, false;
      nextLine, nextPoint, nextStroke := 0, 0, 0;
      currentPath := [];
    }

    // -------------------------------------------------------------------
    // Drawing state and modes
    // -------------------------------------------------------------------

    /** `stop_drawing`. */
    method StopDrawing()
      modifies this
      ensures !isPointerDown && !drawingWithPressurePenOnly
      ensures drawing == old(drawing) && ModesOf() == old(ModesOf()) && lineWidth == old(lineWidth)
      ensures pleaseRedrawEverything == old(pleaseRedrawEverything) && fullClear == old(fullClear)
      ensures CursorsOf() == old(CursorsOf()) && currentPath == old(currentPath)
    {
      isPointerDown := false;
      drawingWithPressurePenOnly := false;
    }

    /** `start_drawing`. */
    method StartDrawing()
      modifies this
      ensures isPointerDown && drawingWithPressurePenOnly == old(drawingWithPressurePenOnly)
      ensures drawing == old(drawing) && ModesOf() == old(ModesOf()) && lineWidth == old(lineWidth)
      ensures pleaseRedrawEverything == old(pleaseRedrawEverything) && fullClear == old(fullClear)
      ensures CursorsOf() == old(CursorsOf()) && currentPath == old(currentPath)
    {
      isPointerDown := true;
    }

    /** `ts_redraw`: ask the next pass to draw everything again. */
    method TsRedraw()
      modifies this
      ensures pleaseRedrawEverything && fullClear == old(fullClear)
      ensures drawing == old(drawing) && ModesOf() == old(ModesOf()) && lineWidth == old(lineWidth)
      ensures CursorsOf() == old(CursorsOf()) && currentPath == old(currentPath)
      ensures isPointerDown == old(isPointerDown) && drawingWithPressurePenOnly == old(drawingWithPressurePenOnly)
    {
      pleaseRedrawEverything := true;
    }

    /** `ts_clear`: a full redraw that also restarts the cursors. */
    method TsClear()
      modifies this
      ensures pleaseRedrawEverything && fullClear
      ensures drawing == old(drawing) && ModesOf() == old(ModesOf()) && lineWidth == old(lineWidth)
      ensures CursorsOf() == old(CursorsOf()) && currentPath == old(currentPath)
      ensures isPointerDown == old(isPointerDown) && drawingWithPressurePenOnly == old(drawingWithPressurePenOnly)
    {
      pleaseRedrawEverything := true;
      fullClear := true;
    }

    /** `reset_drawing_modes`: every mode off, and a full redraw. */
    method ResetDrawingModes()
      modifies this
      ensures ModesOf() == Modes(false, false, false) && lineWidth == old(lineWidth)
      ensures pleaseRedrawEverything && fullClear == old(fullClear)
      ensures drawing == old(drawing) && CursorsOf() == old(CursorsOf()) && currentPath == old(currentPath)
      ensures isPointerDown == old(isPointerDown) && drawingWithPressurePenOnly == old(drawingWithPressurePenOnly)
    {
      calligraphy := false;
      perfectFreehand := false;
      strokeDelete := false;
      TsRedraw();
    }

    /** The three `switch_*` functions: stop drawing, then turn the chosen mode alone on or off. */
    method SwitchMode(which: Mode)
      requires Valid()
      modifies this
      ensures Valid()
      ensures ModesOf() == Toggle(old(ModesOf()), which) && lineWidth == old(lineWidth)
      ensures !isPointerDown && !drawingWithPressurePenOnly && pleaseRedrawEverything && fullClear == old(fullClear)
      ensures drawing == old(drawing) && CursorsOf() == old(CursorsOf()) && currentPath == old(currentPath)
    {
      StopDrawing();
      match which
      case PerfectFreehandMode =>
        var temp := !perfectFreehand;
        ResetDrawingModes();
        perfectFreehand := temp;
      case CalligraphyMode =>
        var temp := !calligraphy;
        ResetDrawingModes();
        calligraphy := temp;
      case StrokeDeleteMode =>
        var temp := !strokeDelete;
        ResetDrawingModes();
        strokeDelete := temp;
    }

    /** `switch_perfect_freehand`. */
    method SwitchPerfectFreehand()
      requires Valid()
      modifies this
      ensures Valid()
      ensures ModesOf() == Modes(false, !old(perfectFreehand), false) && lineWidth == old(lineWidth)
      ensures !isPointerDown && !drawingWithPressurePenOnly && pleaseRedrawEverything && fullClear == old(fullClear)
      ensures drawing == old(drawing) && CursorsOf() == old(CursorsOf()) && currentPath == old(currentPath)
    {
      SwitchMode(PerfectFreehandMode);
    }

    /** `switch_calligraphy_mode`. */
    method SwitchCalligraphyMode()
      requires Valid()
      modifies this
      ensures Valid()
      ensures ModesOf() == Modes(!old(calligraphy), false, false) && lineWidth == old(lineWidth)
      ensures !isPointerDown && !drawingWithPressurePenOnly && pleaseRedrawEverything && fullClear == old(fullClear)
      ensures drawing == old(drawing) && CursorsOf() == old(CursorsOf()) && currentPath == old(currentPath)
    {
      SwitchMode(CalligraphyMode);
    }

    /** `switch_stroke_delete_mode`. */
    method SwitchStrokeDeleteMode()
      requires Valid()
      modifies this
      ensures Valid()
      ensures ModesOf() == Modes(false, false, !old(strokeDelete)) && lineWidth == old(lineWidth)
      ensures !isPointerDown && !drawingWithPressurePenOnly && pleaseRedrawEverything && fullClear == old(fullClear)
      ensures drawing == old(drawing) && CursorsOf() == old(CursorsOf()) && currentPath == old(currentPath)
    {
      SwitchMode(StrokeDeleteMode);
    }

    // -------------------------------------------------------------------
    // Undo and clearing
    // -------------------------------------------------------------------

    /** `clear_canvas`: stop drawing, drop every stroke, record and marker, and clear the canvas. */
    method ClearCanvas()
      requires AtMostOneMode(ModesOf()) && NoRepeats(currentPath)
      modifies this
      ensures Valid() && drawing == EmptyStore
      ensures !isPointerDown && !drawingWithPressurePenOnly && pleaseRedrawEverything && fullClear
      ensures ModesOf() == old(ModesOf()) && lineWidth == old(lineWidth)
      ensures CursorsOf() == old(CursorsOf()) && currentPath == old(currentPath)
    {
      StopDrawing();
      drawing := EmptyStore;
      TsClear();
    }

    /** The undo step of `ts_undo`: reverse the newest history entry. */
    method UndoNewest()
      requires StoreOk(drawing)
      modifies this
      ensures StoreOk(drawing) && drawing == Undo(old(drawing))
      ensures ModesOf() == old(ModesOf()) && lineWidth == old(lineWidth)
      ensures pleaseRedrawEverything == old(pleaseRedrawEverything) && fullClear == old(fullClear)
      ensures CursorsOf() == old(CursorsOf()) && currentPath == old(currentPath)
      ensures isPointerDown == old(isPointerDown) && drawingWithPressurePenOnly == old(drawingWithPressurePenOnly)
    {
      UndoKeepsStoreOk(drawing);
      if drawing.history != [] {
        drawing := UndoLast(drawing);
      }
    }

    /**
     * `ts_undo`: stop drawing and reverse the newest history entry; an
     * empty history afterwards clears everything, otherwise everything is
     * redrawn.
     */
    method TsUndo()
      requires Valid()
      modifies this
      ensures Valid()
      ensures drawing == (if Undo(old(drawing)).history == [] then EmptyStore else Undo(old(drawing)))
      ensures !isPointerDown && !drawingWithPressurePenOnly && pleaseRedrawEverything
      ensures fullClear == (old(fullClear) || drawing.history == [])
      ensures ModesOf() == old(ModesOf()) && lineWidth == old(lineWidth)
      ensures CursorsOf() == old(CursorsOf()) && currentPath == old(currentPath)
    {
      StopDrawing();
      UndoNewest();
      if drawing.history == [] {
        ClearCanvas();
      } else {
        TsRedraw();
      }
    }

    // -------------------------------------------------------------------
    // Line capture
    // -------------------------------------------------------------------

    /** The line handlers act on this event: primary, neither calligraphy nor delete mode, and not a non-pen contact under the pen lock. */
    predicate LineGuard(e: PointerEvent)
      reads this
    {
      e.isPrimary && !calligraphy && !strokeDelete && (IsPen(e) || !drawingWithPressurePenOnly)
    }

    /** `pointerDownLine`: start a new one-point line and mark it in the history. */
    method PointerDownLine(e: PointerEvent)
      requires Valid()
      modifies this
      ensures Valid()
      ensures var starts := old(LineGuard(e)) && !old(isPointerDown);
              drawing == (if starts then AddLine(old(drawing), PointOf(e, lineWidth)) else old(drawing)) &&
              isPointerDown == (old(isPointerDown) || starts)
      ensures drawingWithPressurePenOnly == (old(drawingWithPressurePenOnly) || (e.isPrimary && !calligraphy && !strokeDelete && IsPen(e)))
      ensures ModesOf() == old(ModesOf()) && lineWidth == old(lineWidth)
      ensures pleaseRedrawEverything == old(pleaseRedrawEverything) && fullClear == old(fullClear)
      ensures CursorsOf() == old(CursorsOf()) && currentPath == old(currentPath)
    {
      if !e.isPrimary || calligraphy || strokeDelete { return; }
      if IsPen(e) {
        drawingWithPressurePenOnly := true;
      } else if drawingWithPressurePenOnly {
        return;
      }
      if !isPointerDown {
        var p := PointOf(e, lineWidth);
        drawing := AddLine(drawing, p);
        StartDrawing();
      }
    }

    /** Store one more point from `e` on the line being drawn. */
    method ExtendLine(e: PointerEvent)
      requires Valid() && |drawing.lines| > 0
      modifies this
      ensures Valid()
      ensures drawing == ExtendLast(old(drawing), PointOf(e, lineWidth))
      ensures ModesOf() == old(ModesOf()) && lineWidth == old(lineWidth)
      ensures pleaseRedrawEverything == old(pleaseRedrawEverything) && fullClear == old(fullClear)
      ensures CursorsOf() == old(CursorsOf()) && currentPath == old(currentPath)
      ensures isPointerDown == old(isPointerDown) && drawingWithPressurePenOnly == old(drawingWithPressurePenOnly)
    {
      var p := PointOf(e, lineWidth);
      drawing := ExtendLast(drawing, p);
    }

    /** `pointerMoveLine`: extend the line being drawn. */
    method PointerMoveLine(e: PointerEvent)
      requires Valid()
      modifies this
      ensures Valid()
      ensures drawing == (if old(LineGuard(e)) && old(isPointerDown) then ExtendLast(old(drawing), PointOf(e, lineWidth)) else old(drawing))
      ensures ModesOf() == old(ModesOf()) && lineWidth == old(lineWidth)
      ensures pleaseRedrawEverything == old(pleaseRedrawEverything) && fullClear == old(fullClear)
      ensures CursorsOf() == old(CursorsOf()) && currentPath == old(currentPath)
      ensures isPointerDown == old(isPointerDown) && drawingWithPressurePenOnly == old(drawingWithPressurePenOnly)
    {
      if !e.isPrimary || calligraphy || strokeDelete { return; }
      if !IsPen(e) && drawingWithPressurePenOnly { return; }
      if isPointerDown {
        ExtendLine(e);
      }
    }

    /**
     * `pointerUpLine`: store the last point, stop drawing, and in
     * perfect-freehand mode redraw everything so the finished outline replaces
     * the one drawn while the stroke was under way.
     */
    method PointerUpLine(e: PointerEvent)
      requires Valid()
      modifies this
      ensures Valid()
      ensures drawing == (if old(LineGuard(e)) && old(isPointerDown) then ExtendLast(old(drawing), PointOf(e, lineWidth)) else old(drawing))
      ensures old(LineGuard(e)) ==>
        !isPointerDown && !drawingWithPressurePenOnly && pleaseRedrawEverything == (old(pleaseRedrawEverything) || perfectFreehand)
      ensures !old(LineGuard(e)) ==>
        pleaseRedrawEverything == old(pleaseRedrawEverything) &&
        isPointerDown == old(isPointerDown) && drawingWithPressurePenOnly == old(drawingWithPressurePenOnly)
      ensures ModesOf() == old(ModesOf()) && lineWidth == old(lineWidth) && fullClear == old(fullClear)
      ensures CursorsOf() == old(CursorsOf()) && currentPath == old(currentPath)
    {
      if !e.isPrimary || calligraphy || strokeDelete { return; }
      if !IsPen(e) && drawingWithPressurePenOnly { return; }
      if isPointerDown {
        ExtendLine(e);
      }
      StopDrawing();
      if perfectFreehand {
        TsRedraw();
      }
    }

    // -------------------------------------------------------------------
    // Calligraphy capture
    // -------------------------------------------------------------------

    /** `pointerDownCaligraphy`: mark a calligraphy stroke in the history and start drawing. */
    method PointerDownCaligraphy(e: PointerEvent)
      requires Valid()
      modifies this
      ensures Valid()
      ensures var acts := e.isPrimary && old(calligraphy);
              drawing == (if acts then AddCalligraphyMarker(old(drawing)) else old(drawing)) &&
              isPointerDown == (old(isPointerDown) || acts)
      ensures ModesOf() == old(ModesOf()) && lineWidth == old(lineWidth)
      ensures pleaseRedrawEverything == old(pleaseRedrawEverything) && fullClear == old(fullClear)
      ensures CursorsOf() == old(CursorsOf()) && currentPath == old(currentPath)
      ensures drawingWithPressurePenOnly == old(drawingWithPressurePenOnly)
    {
      if !e.isPrimary || !calligraphy { return; }
      drawing := AddCalligraphyMarker(drawing);
      StartDrawing();
    }

    /** The guide-path update shared by calligraphy and stroke-delete moves. */
    method MoveGuidePath(e: PointerEvent, dist: Metric)
      requires Valid() && IsMetric(dist)
      modifies this
      ensures Valid()
      ensures currentPath == (if isPointerDown then GuidePathAfterMove(old(currentPath), Vec2(e.offsetX, e.offsetY), dist) else old(currentPath))
      ensures drawing == old(drawing) && ModesOf() == old(ModesOf()) && lineWidth == old(lineWidth)
      ensures pleaseRedrawEverything == old(pleaseRedrawEverything) && fullClear == old(fullClear) && CursorsOf() == old(CursorsOf())
      ensures isPointerDown == old(isPointerDown) && drawingWithPressurePenOnly == old(drawingWithPressurePenOnly)
    {
      if isPointerDown {
        var mousePos := Vec2(e.offsetX, e.offsetY);
        GuidePathNoRepeats(currentPath, mousePos, dist);
        if |currentPath| != 0 {
          if dist(mousePos, currentPath[|currentPath| - 1]) >= MIN_MOUSE_DIST {
            currentPath := currentPath + [mousePos];
          }
        } else {
          currentPath := currentPath + [mousePos];
        }
      }
    }

    /** `pointerMoveCaligraphy`: extend the guide path. */
    method PointerMoveCaligraphy(e: PointerEvent, dist: Metric)
      requires Valid() && IsMetric(dist)
      modifies this
      ensures Valid()
      ensures currentPath == (if e.isPrimary && calligraphy && isPointerDown
                              then GuidePathAfterMove(old(currentPath), Vec2(e.offsetX, e.offsetY), dist)
                              else old(currentPath))
      ensures drawing == old(drawing) && ModesOf() == old(ModesOf()) && lineWidth == old(lineWidth)
      ensures pleaseRedrawEverything == old(pleaseRedrawEverything) && fullClear == old(fullClear) && CursorsOf() == old(CursorsOf())
      ensures isPointerDown == old(isPointerDown) && drawingWithPressurePenOnly == old(drawingWithPressurePenOnly)
    {
      if !e.isPrimary || !calligraphy { return; }
      MoveGuidePath(e, dist);
    }

    /** Fit a stroke to the captured guide path, store both, and empty the path. */
    method CommitStroke(dist: Metric, isCorner: (Vec2, Vec2, Vec2) -> bool, interior: (seq<Vec2>, seq<real>) -> (Vec2, Vec2))
      requires StoreOk(drawing) && IsMetric(dist) && NoRepeats(currentPath) && currentPath != []
      modifies this
      ensures StoreOk(drawing) && currentPath == []
      ensures drawing.strokes != [] && drawing == AddStroke(old(drawing), old(currentPath), drawing.strokes[|drawing.strokes| - 1])
      ensures FitsCorners(drawing.strokes[|drawing.strokes| - 1].segments, old(currentPath), isCorner)
      ensures ModesOf() == old(ModesOf()) && lineWidth == old(lineWidth)
      ensures pleaseRedrawEverything == old(pleaseRedrawEverything) && fullClear == old(fullClear) && CursorsOf() == old(CursorsOf())
      ensures isPointerDown == old(isPointerDown) && drawingWithPressurePenOnly == old(drawingWithPressurePenOnly)
    {
      var points := currentPath;
      var curves := FitStroke(points, dist, isCorner, interior);
      drawing := AddStroke(drawing, points, Stroke(curves));
      currentPath := [];
    }

    /**
     * `pointerUpCaligraphy`: stop drawing; if a guide path was captured,
     * fit a stroke to it, store both, and empty the path.
     */
    method PointerUpCaligraphy(e: PointerEvent, dist: Metric, isCorner: (Vec2, Vec2, Vec2) -> bool,
                               interior: (seq<Vec2>, seq<real>) -> (Vec2, Vec2))
      requires Valid() && IsMetric(dist)
      modifies this
      ensures Valid()
      ensures !isPointerDown && !drawingWithPressurePenOnly
      ensures var commits := e.isPrimary && old(calligraphy) && old(currentPath) != [];
              (commits ==>
                 drawing.strokes != [] && drawing == AddStroke(old(drawing), old(currentPath), drawing.strokes[|drawing.strokes| - 1]) &&
                 FitsCorners(drawing.strokes[|drawing.strokes| - 1].segments, old(currentPath), isCorner) && currentPath == []) &&
              (!commits ==> drawing == old(drawing) && currentPath == old(currentPath))
      ensures ModesOf() == old(ModesOf()) && lineWidth == old(lineWidth)
      ensures pleaseRedrawEverything == old(pleaseRedrawEverything) && fullClear == old(fullClear) && CursorsOf() == old(CursorsOf())
    {
      StopDrawing();
      if !e.isPrimary || !calligraphy || |currentPath| == 0 { return; }
      CommitStroke(dist, isCorner, interior);
    }

    // -------------------------------------------------------------------
    // Stroke delete
    // -------------------------------------------------------------------

    /** `pointerDownStrokeDelete`: start a delete gesture. */
    method PointerDownStrokeDelete(e: PointerEvent)
      requires Valid()
      modifies this
      ensures Valid()
      ensures isPointerDown == (old(isPointerDown) || (e.isPrimary && strokeDelete))
      ensures drawing == old(drawing) && ModesOf() == old(ModesOf()) && lineWidth == old(lineWidth)
      ensures pleaseRedrawEverything == old(pleaseRedrawEverything) && fullClear == old(fullClear)
      ensures CursorsOf() == old(CursorsOf()) && currentPath == old(currentPath)
      ensures drawingWithPressurePenOnly == old(drawingWithPressurePenOnly)
    {
      if !e.isPrimary || !strokeDelete { return; }
      StartDrawing();
    }

    /** `pointerMoveStrokeDelete`: extend the guide path. */
    method PointerMoveStrokeDelete(e: PointerEvent, dist: Metric)
      requires Valid() && IsMetric(dist)
      modifies this
      ensures Valid()
      ensures currentPath == (if e.isPrimary && strokeDelete && isPointerDown
                              then GuidePathAfterMove(old(currentPath), Vec2(e.offsetX, e.offsetY), dist)
                              else old(currentPath))
      ensures drawing == old(drawing) && ModesOf() == old(ModesOf()) && lineWidth == old(lineWidth)
      ensures pleaseRedrawEverything == old(pleaseRedrawEverything) && fullClear == old(fullClear) && CursorsOf() == old(CursorsOf())
      ensures isPointerDown == old(isPointerDown) && drawingWithPressurePenOnly == old(drawingWithPressurePenOnly)
    {
      if !e.isPrimary || !strokeDelete { return; }
      MoveGuidePath(e, dist);
    }

    /**
     * `pointerUpStrokeDelete`: stop drawing; if a guide path was captured,
     * hide every line and then every calligraphy stroke it crosses (hidden
     * ones included), record the hits under a 'D' marker if there are any,
     * empty the path, and redraw everything.
     */
    method PointerUpStrokeDelete(e: PointerEvent)
      requires Valid()
      modifies this
      ensures Valid()
      ensures !isPointerDown && !drawingWithPressurePenOnly
      ensures var commits := e.isPrimary && old(strokeDelete) && old(currentPath) != [];
              (commits ==> drawing == Delete(old(drawing), old(currentPath)) && currentPath == [] && pleaseRedrawEverything) &&
              (!commits ==> drawing == old(drawing) && currentPath == old(currentPath) &&
                            pleaseRedrawEverything == old(pleaseRedrawEverything))
      ensures ModesOf() == old(ModesOf()) && lineWidth == old(lineWidth)
      ensures fullClear == old(fullClear) && CursorsOf() == old(CursorsOf())
    {
      StopDrawing();
      if !e.isPrimary || !strokeDelete || |currentPath| == 0 { return; }
      drawing := DeleteHits(drawing, currentPath);
      currentPath := [];
      TsRedraw();
    }

    // -------------------------------------------------------------------
    // Events, in the order the handlers are registered
    // -------------------------------------------------------------------

    /** A `pointerdown` on the canvas: the line, calligraphy and stroke-delete handlers in turn. */
    method PointerDown(e: PointerEvent)
      requires Valid()
      modifies this
      ensures Valid()
      ensures old(calligraphy) ==>
        drawing == (if e.isPrimary then AddCalligraphyMarker(old(drawing)) else old(drawing)) &&
        isPointerDown == (old(isPointerDown) || e.isPrimary)
      ensures old(strokeDelete) ==>
        drawing == old(drawing) && isPointerDown == (old(isPointerDown) || e.isPrimary)
      ensures !old(calligraphy) && !old(strokeDelete) ==>
        var starts := old(LineGuard(e)) && !old(isPointerDown);
        drawing == (if starts then AddLine(old(drawing), PointOf(e, lineWidth)) else old(drawing)) &&
        isPointerDown == (old(isPointerDown) || starts)
      ensures drawingWithPressurePenOnly == (old(drawingWithPressurePenOnly) || (e.isPrimary && !calligraphy && !strokeDelete && IsPen(e)))
      ensures ModesOf() == old(ModesOf()) && lineWidth == old(lineWidth)
      ensures pleaseRedrawEverything == old(pleaseRedrawEverything) && fullClear == old(fullClear)
      ensures CursorsOf() == old(CursorsOf()) && currentPath == old(currentPath)
    {
      PointerDownLine(e);
      PointerDownCaligraphy(e);
      PointerDownStrokeDelete(e);
    }

    /** A `pointermove` on the canvas: the three move handlers in turn. */
    method PointerMove(e: PointerEvent, dist: Metric)
      requires Valid() && IsMetric(dist)
      modifies this
      ensures Valid()
      ensures drawing == (if old(LineGuard(e)) && old(isPointerDown) then ExtendLast(old(drawing), PointOf(e, lineWidth)) else old(drawing))
      ensures currentPath == (if e.isPrimary && (calligraphy || strokeDelete) && isPointerDown
                              then GuidePathAfterMove(old(currentPath), Vec2(e.offsetX, e.offsetY), dist)
                              else old(currentPath))
      ensures ModesOf() == old(ModesOf()) && lineWidth == old(lineWidth)
      ensures pleaseRedrawEverything == old(pleaseRedrawEverything) && fullClear == old(fullClear) && CursorsOf() == old(CursorsOf())
      ensures isPointerDown == old(isPointerDown) && drawingWithPressurePenOnly == old(drawingWithPressurePenOnly)
    {
      PointerMoveLine(e);
      PointerMoveCaligraphy(e, dist);
      PointerMoveStrokeDelete(e, dist);
    }

    /**
     * A `pointerup` anywhere in the window: the three up handlers in turn.
     * Whatever the event, drawing has stopped afterwards.
     */
    method PointerUp(e: PointerEvent, dist: Metric, isCorner: (Vec2, Vec2, Vec2) -> bool,
                     interior: (seq<Vec2>, seq<real>) -> (Vec2, Vec2))
      requires Valid() && IsMetric(dist)
      modifies this
      ensures Valid()
      ensures !isPointerDown && !drawingWithPressurePenOnly
      ensures old(calligraphy) ==>
        var commits := e.isPrimary && old(currentPath) != [];
        (commits ==>
           drawing.strokes != [] && drawing == AddStroke(old(drawing), old(currentPath), drawing.strokes[|drawing.strokes| - 1]) &&
           FitsCorners(drawing.strokes[|drawing.strokes| - 1].segments, old(currentPath), isCorner) && currentPath == []) &&
        (!commits ==> drawing == old(drawing) && currentPath == old(currentPath))
      ensures old(strokeDelete) ==>
        var commits := e.isPrimary && old(currentPath) != [];
        (commits ==> drawing == Delete(old(drawing), old(currentPath)) && currentPath == [] && pleaseRedrawEverything) &&
        (!commits ==> drawing == old(drawing) && currentPath == old(currentPath))
      ensures !old(strokeDelete) ==>
        pleaseRedrawEverything == (old(pleaseRedrawEverything) || (old(LineGuard(e)) && perfectFreehand))
      ensures old(strokeDelete) && !(e.isPrimary && old(currentPath) != []) ==>
        pleaseRedrawEverything == old(pleaseRedrawEverything)
      ensures !old(calligraphy) && !old(strokeDelete) ==>
        drawing == (if old(LineGuard(e)) && old(isPointerDown) then ExtendLast(old(drawing), PointOf(e, lineWidth)) else old(drawing)) &&
        currentPath == old(currentPath)
      ensures ModesOf() == old(ModesOf()) && lineWidth == old(lineWidth)
      ensures fullClear == old(fullClear) && CursorsOf() == old(CursorsOf())
    {
      PointerUpLine(e);
      PointerUpCaligraphy(e, dist, isCorner, interior);
      PointerUpStrokeDelete(e);
    }

    // -------------------------------------------------------------------
    // The per-frame pass
    // -------------------------------------------------------------------

    /** What the pass reads of the engine. */
    function SceneOf(): Scene
      reads this
    {
      Scene(drawing.lines, drawing.linesDeleted, perfectFreehand, isPointerDown)
    }

    /** Keep the cache a pass built and the cursors it leaves. */
    method SaveFrame(f: Frame)
      requires StoreOk(drawing) && f.cursors.nextStroke <= |drawing.strokes|
      modifies this
      ensures StoreOk(drawing) && drawing == old(drawing).(cache := f.cache) && CursorsOf() == f.cursors
      ensures nextStroke <= |drawing.strokes|
      ensures pleaseRedrawEverything == old(pleaseRedrawEverything) && fullClear == old(fullClear)
      ensures ModesOf() == old(ModesOf()) && lineWidth == old(lineWidth) && currentPath == old(currentPath)
      ensures isPointerDown == old(isPointerDown) && drawingWithPressurePenOnly == old(drawingWithPressurePenOnly)
    {
      drawing := drawing.(cache := f.cache);
      nextLine, nextPoint, nextStroke := f.cursors.nextLine, f.cursors.nextPoint, f.cursors.nextStroke;
    }

    /**
     * `draw_upto_latest_point_async`, as each animation frame calls it: one
     * pass over the drawing from the saved cursors, saving the cache and
     * where to resume; a pending full redraw is done and cleared.
     */
    method DrawUptoLatestPoint(outline: Outline, dist: Metric) returns (cmds: seq<DrawCommand>)
      requires Valid() && IsMetric(dist)
      modifies this
      ensures Valid()
      ensures var f := Pass(old(SceneOf()), old(drawing.strokes), old(drawing.strokesDeleted), old(CursorsOf()), old(drawing.cache),
                            old(pleaseRedrawEverything), old(fullClear), FreeDraw(old(lineWidth), outline, dist));
              cmds == f.cmds && drawing == old(drawing).(cache := f.cache) && CursorsOf() == f.cursors
      ensures !pleaseRedrawEverything && fullClear == (old(fullClear) && !old(pleaseRedrawEverything))
      ensures ModesOf() == old(ModesOf()) && lineWidth == old(lineWidth) && currentPath == old(currentPath)
      ensures isPointerDown == old(isPointerDown) && drawingWithPressurePenOnly == old(drawingWithPressurePenOnly)
    {
      var sc := SceneOf();
      var render := FreeDraw(lineWidth, outline, dist);
      var f := DrawFrame(sc, drawing.strokes, drawing.strokesDeleted, CursorsOf(), drawing.cache,
                         pleaseRedrawEverything, fullClear, render);
      PassKeepsStrokeCursor(sc, drawing.strokes, drawing.strokesDeleted, CursorsOf(), drawing.cache,
                            pleaseRedrawEverything, fullClear, render);
      cmds := f.cmds;
      SaveFrame(f);
      if pleaseRedrawEverything {
        pleaseRedrawEverything := false;
        fullClear := false;
      }
    }
  }

  /**
   * An undo during a calligraphy gesture removes its marker before the
   * stroke exists; the later pointer-up stores a stroke that no marker
   * accounts for, so the strokes outnumber the 'C' markers.
   */
  method UndoDuringCalligraphyGesture(dist: Metric, isCorner: (Vec2, Vec2, Vec2) -> bool,
                                      interior: (seq<Vec2>, seq<real>) -> (Vec2, Vec2)) returns (b: Blackboard)
    requires IsMetric(dist)
    ensures b.Valid()
    ensures |b.drawing.strokes| == 1 && Count(b.drawing.history, CalligraphyMarker) == 0
  {
    b := new Blackboard(4.0);
    b.SwitchCalligraphyMode();
    var e := PointerEvent(true, "mouse", 10.0, 10.0, 0.5);
    b.PointerDown(e);
    b.PointerMove(e, dist);
    b.TsUndo();
    b.PointerUp(e, dist, isCorner, interior);
  }

  /** A page with one calligraphy stroke and no line, switched back to line mode. */
  method OneStrokeInLineMode(dist: Metric, isCorner: (Vec2, Vec2, Vec2) -> bool,
                             interior: (seq<Vec2>, seq<real>) -> (Vec2, Vec2)) returns (b: Blackboard)
    requires IsMetric(dist)
    ensures fresh(b) && b.Valid()
    ensures |b.drawing.strokes| == 1 && b.drawing.lines == [] && b.drawing.history == [CalligraphyMarker]
    ensures b.drawing.linesDeleted == {} && b.drawing.strokesDeleted == {}
    ensures b.ModesOf() == Modes(false, false, false) && b.pleaseRedrawEverything && !b.fullClear
    ensures b.CursorsOf() == Cursors(0, 0, 0) && !b.isPointerDown && !b.drawingWithPressurePenOnly
  {
    b := new Blackboard(4.0);
    var e := PointerEvent(true, "mouse", 10.0, 10.0, 0.5);
    b.SwitchCalligraphyMode();
    b.PointerDown(e);
    b.PointerMove(e, dist);
    b.PointerUp(e, dist, isCorner, interior);
    b.SwitchCalligraphyMode();
  }

  /** In that state the pending full redraw draws the stroke and moves the stroke cursor past it. */
  method RedrawOneStroke(b: Blackboard, dist: Metric, outline: Outline)
    requires IsMetric(dist) && b.Valid()
    requires |b.drawing.strokes| == 1 && b.drawing.lines == [] && b.drawing.history == [CalligraphyMarker]
    requires b.drawing.linesDeleted == {} && b.drawing.strokesDeleted == {}
    requires b.ModesOf() == Modes(false, false, false) && b.pleaseRedrawEverything && !b.fullClear
    requires b.CursorsOf() == Cursors(0, 0, 0) && !b.isPointerDown && !b.drawingWithPressurePenOnly
    modifies b
    ensures b.Valid()
    ensures |b.drawing.strokes| == 1 && b.drawing.lines == [] && b.drawing.history == [CalligraphyMarker]
    ensures b.drawing.linesDeleted == {} && b.drawing.strokesDeleted == {}
    ensures b.ModesOf() == Modes(false, false, false) && !b.pleaseRedrawEverything && !b.fullClear
    ensures b.CursorsOf() == Cursors(0, 0, 1) && !b.isPointerDown && !b.drawingWithPressurePenOnly
  {
    LinesFromEnd(b.SceneOf(), 0, LinePass([], b.drawing.cache, 0, 0, 0), FreeDraw(b.lineWidth, outline, dist));
    var cmds := b.DrawUptoLatestPoint(outline, dist);
  }

  /** Then a line drawn with one click: its marker and its line are stored, nothing else changes. */
  method ClickLine(b: Blackboard, dist: Metric, isCorner: (Vec2, Vec2, Vec2) -> bool,
                   interior: (seq<Vec2>, seq<real>) -> (Vec2, Vec2))
    requires IsMetric(dist) && b.Valid()
    requires |b.drawing.strokes| == 1 && b.drawing.lines == [] && b.drawing.history == [CalligraphyMarker]
    requires b.drawing.linesDeleted == {} && b.drawing.strokesDeleted == {}
    requires b.ModesOf() == Modes(false, false, false) && !b.pleaseRedrawEverything && !b.fullClear
    requires b.CursorsOf() == Cursors(0, 0, 1) && !b.isPointerDown && !b.drawingWithPressurePenOnly
    modifies b
    ensures b.Valid()
    ensures |b.drawing.strokes| == 1 && |b.drawing.lines| == 1 && b.drawing.history == [CalligraphyMarker, LineMarker]
    ensures b.drawing.linesDeleted == {} && b.drawing.strokesDeleted == {}
    ensures b.ModesOf() == Modes(false, false, false) && !b.pleaseRedrawEverything && !b.fullClear
    ensures b.CursorsOf() == Cursors(0, 0, 1) && !b.isPointerDown && !b.drawingWithPressurePenOnly
  {
    var e := PointerEvent(true, "mouse", 10.0, 10.0, 0.5);
    b.PointerDown(e);
    b.PointerUp(e, dist, isCorner, interior);
  }

  /** Then the pass draws the finished line and moves the line cursor past it: the cursors are 1, 0, 1. */
  method FinishOneLine(b: Blackboard, dist: Metric, outline: Outline)
    requires IsMetric(dist) && b.Valid()
    requires |b.drawing.strokes| == 1 && |b.drawing.lines| == 1 && b.drawing.history == [CalligraphyMarker, LineMarker]
    requires b.drawing.linesDeleted == {} && b.drawing.strokesDeleted == {}
    requires b.ModesOf() == Modes(false, false, false) && !b.pleaseRedrawEverything && !b.fullClear
    requires b.CursorsOf() == Cursors(0, 0, 1) && !b.isPointerDown && !b.drawingWithPressurePenOnly
    modifies b
    ensures b.Valid()
    ensures |b.drawing.strokes| == 1 && |b.drawing.lines| == 1 && b.drawing.history == [CalligraphyMarker, LineMarker]
    ensures b.drawing.linesDeleted == {} && b.drawing.strokesDeleted == {}
    ensures b.ModesOf() == Modes(false, false, false) && !b.pleaseRedrawEverything && !b.fullClear
    ensures b.CursorsOf() == Cursors(1, 0, 1) && !b.isPointerDown && !b.drawingWithPressurePenOnly
  {
    var sc := b.SceneOf();
    var render := FreeDraw(b.lineWidth, outline, dist);
    var st := LinePass([], b.drawing.cache, 0, 0, 0);
    LinesFromStep(sc, 0, st, render);
    LinesFromEnd(sc, 1, LineStep(sc, 0, st, render), render);
    var cmds := b.DrawUptoLatestPoint(outline, dist);
  }

  /**
   * Then an undo removes the line and the full redraw it requests keeps
   * the line cursor at 1, past the end; a line drawn next with one click
   * gets nothing from the pass that follows.
   */
  method UndoLineAndDrawAnother(b: Blackboard, dist: Metric, isCorner: (Vec2, Vec2, Vec2) -> bool,
                                interior: (seq<Vec2>, seq<real>) -> (Vec2, Vec2), outline: Outline)
    returns (cmds: seq<DrawCommand>)
    requires IsMetric(dist) && b.Valid()
    requires |b.drawing.strokes| == 1 && |b.drawing.lines| == 1 && b.drawing.history == [CalligraphyMarker, LineMarker]
    requires b.drawing.linesDeleted == {} && b.drawing.strokesDeleted == {}
    requires b.ModesOf() == Modes(false, false, false) && !b.pleaseRedrawEverything && !b.fullClear
    requires b.CursorsOf() == Cursors(1, 0, 1) && !b.isPointerDown && !b.drawingWithPressurePenOnly
    modifies b
    ensures b.Valid() && |b.drawing.lines| == 1 && b.drawing.linesDeleted == {} && !b.perfectFreehand
    ensures b.nextLine == 1 && cmds == []
  {
    var e := PointerEvent(true, "mouse", 10.0, 10.0, 0.5);
    var render := FreeDraw(b.lineWidth, outline, dist);
    b.TsUndo();
    assert b.drawing.lines == [] && |b.drawing.strokes| == 1 && !b.fullClear;
    LinesFromEnd(b.SceneOf(), 0, LinePass([], b.drawing.cache, 1, 0, 0), render);
    cmds := b.DrawUptoLatestPoint(outline, dist);
    assert b.CursorsOf() == Cursors(1, 0, 1) && b.drawing.lines == [] && !b.pleaseRedrawEverything;
    b.PointerDown(e);
    b.PointerUp(e, dist, isCorner, interior);
    assert |b.drawing.lines| == 1 && !b.pleaseRedrawEverything;
    LinesFromEnd(b.SceneOf(), 1, LinePass([], b.drawing.cache, 1, 0, 0), render);
    cmds := b.DrawUptoLatestPoint(outline, dist);
  }

  /**
   * The stale line cursor, reached through the handlers: a calligraphy
   * stroke, a switch to line mode, a line drawn and finished by a pass,
   * then an undo of the line. The full redraw after the undo leaves the
   * line cursor past the last line with no redraw pending, and the pass
   * after a new line is drawn draws nothing of it.
   */
  method StaleLineCursorScenario(dist: Metric, isCorner: (Vec2, Vec2, Vec2) -> bool,
                                 interior: (seq<Vec2>, seq<real>) -> (Vec2, Vec2), outline: Outline)
    returns (b: Blackboard, cmds: seq<DrawCommand>)
    requires IsMetric(dist)
    ensures b.Valid() && |b.drawing.lines| == 1 && b.drawing.linesDeleted == {} && !b.perfectFreehand
    ensures b.nextLine == 1 && cmds == []
  {
    b := OneStrokeInLineMode(dist, isCorner, interior);
    RedrawOneStroke(b, dist, outline);
    ClickLine(b, dist, isCorner, interior);
    FinishOneLine(b, dist, outline);
    cmds := UndoLineAndDrawAnother(b, dist, isCorner, interior, outline);
  }
}
