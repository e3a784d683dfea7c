/**
 * PerfectFreehand's point preprocessing `getStrokePoints` and its radius
 * rule `getStrokeRadius`.
 *
 * Input points are number arrays `[x, y, pressure, ...]`; the model keeps
 * x and y and the remaining entries (`rest`), whose first entry, when
 * present, is the pressure. A missing entry compares false, which is
 * what `Pressure` states. The distance `Math.hypot` is the abstract
 * metric `dist`; `uni(sub(prev, point))` divides by the length of that
 * difference, which is the same hypotenuse as `dist(point, prev)`.
 */
module Freehand {
  import opened Geometry
  import opened Wrappers

  /** An input point `[x, y, ...rest]`. */
  datatype InputPoint = InputPoint(x: real, y: real, rest: seq<real>)

  /** One entry of the result of `getStrokePoints`. */
  datatype StrokePoint = StrokePoint(point: Vec2, pressure: real, vector: Vec2, distance: real, runningLength: real)

  /** The options `getStrokePoints` reads; an absent option takes its default. */
  datatype StrokeOptions = StrokeOptions(streamline: Option<real>, size: Option<real>, last: Option<bool>)

  function XY(p: InputPoint): Vec2 { Vec2(p.x, p.y) }

  /** `p[2] >= 0 ? p[2] : dflt`, where a missing `p[2]` compares false. */
  function Pressure(p: InputPoint, dflt: real): (r: real)
    ensures dflt >= 0.0 ==> r >= 0.0
  {
    if |p.rest| > 0 && p.rest[0] >= 0.0 then p.rest[0] else dflt
  }

  /** The values `getStrokePoints` runs with once the defaults are applied. */
  datatype Config = Config(t: real, size: real, isComplete: bool)

  function ConfigOf(options: StrokeOptions): (c: Config)
    ensures options.streamline == None ==> c.t == 0.575
    ensures options.size == None ==> c.size == 16.0
    ensures options.last == None ==> !c.isComplete
    ensures options.streamline == Some(1.0) ==> c.t == 0.15
    ensures options.streamline == Some(0.0) ==> c.t == 1.0
  {
    var streamline := if options.streamline.Some? then options.streamline.value else 0.5;
    var size := if options.size.Some? then options.size.value else 16.0;
    var last := if options.last.Some? then options.last.value else false;
    Config(0.15 + (1.0 - streamline) * 0.85, size, last)
  }

  /** The interpolated padding point `lrp(p0, p1, i/4)`, which carries only x and y. */
  function PadPoint(p0: InputPoint, p1: InputPoint, i: nat): InputPoint
  {
    var v := Lrp(XY(p0), XY(p1), i as real / 4.0);
    InputPoint(v.x, v.y, [])
  }

  /**
   * The padded input: two points become the first plus four points
   * interpolated at i/4; one point gets a second at +[1, 1] with the same
   * extra entries; other inputs are kept.
   */
  function Pad(points: seq<InputPoint>): seq<InputPoint>
  {
    if |points| == 2 then
      [points[0], PadPoint(points[0], points[1], 1), PadPoint(points[0], points[1], 2),
       PadPoint(points[0], points[1], 3), PadPoint(points[0], points[1], 4)]
    else if |points| == 1 then
      [points[0], InputPoint(points[0].x + 1.0, points[0].y + 1.0, points[0].rest)]
    else points
  }

  lemma PadShape(points: seq<InputPoint>)
    ensures |points| == 0 ==> Pad(points) == []
    ensures |points| >= 1 ==> |Pad(points)| >= 2 && Pad(points)[0] == points[0]
    ensures |points| == 1 ==> Pad(points)[1] == InputPoint(points[0].x + 1.0, points[0].y + 1.0, points[0].rest)
    ensures |points| == 2 ==>
      && |Pad(points)| == 5 && XY(Pad(points)[4]) == XY(points[1])
      && (forall i :: 1 <= i < 5 ==> Pad(points)[i].rest == [] && XY(Pad(points)[i]) == Lrp(XY(points[0]), XY(points[1]), i as real / 4.0))
    ensures |points| >= 3 ==> Pad(points) == points
  {
    if |points| == 2 {
      LrpEnds(XY(points[0]), XY(points[1]));
      assert 4 as real / 4.0 == 1.0;
    }
  }

  /** The first stroke point: the first input's x and y, its pressure or 0.25. */
  function FirstPoint(p: InputPoint): StrokePoint
  {
    StrokePoint(XY(p), Pressure(p, 0.25), Vec2(1.0, 1.0), 0.0, 0.0)
  }

  /** The loop state of `getStrokePoints`. */
  datatype Scan = Scan(out: seq<StrokePoint>, prev: StrokePoint, runningLength: real, reached: bool)

  /** The candidate point at index `i`: the raw point at the end of a complete stroke, else interpolated. */
  function Candidate(pts: seq<InputPoint>, i: nat, prev: Vec2, cfg: Config): Vec2
    requires i < |pts|
  {
    if cfg.isComplete && i == |pts| - 1 then XY(pts[i]) else Lrp(prev, XY(pts[i]), cfg.t)
  }

  /** One iteration of the loop at index `i`. */
  function Step(pts: seq<InputPoint>, i: nat, s: Scan, cfg: Config, dist: (Vec2, Vec2) -> real): (r: Scan)
    requires 1 <= i < |pts|
    requires IsMetric(dist)
    ensures r.out == s.out || r.out == s.out + [r.prev]
  {
    var point := Candidate(pts, i, s.prev.point, cfg);
    if IsEqual(s.prev.point, point) then s
    else
      var distance := dist(point, s.prev.point);
      var runningLength := s.runningLength + distance;
      if i < |pts| - 1 && !s.reached && runningLength < cfg.size then s.(runningLength := runningLength)
      else
        var p := StrokePoint(point, Pressure(pts[i], 0.5), Div(Sub(s.prev.point, point), distance), distance, runningLength);
        Scan(s.out + [p], p, runningLength, s.reached || i < |pts| - 1)
  }

  /** The loop from index `i` on. */
  function ScanFrom(pts: seq<InputPoint>, i: nat, s: Scan, cfg: Config, dist: (Vec2, Vec2) -> real): (r: Scan)
    requires 1 <= i <= |pts|
    requires IsMetric(dist)
    ensures |s.out| <= |r.out|
    decreases |pts| - i
  {
    if i == |pts| then s else ScanFrom(pts, i + 1, Step(pts, i, s, cfg, dist), cfg, dist)
  }

  /** The state before the loop. */
  function InitialScan(p: InputPoint): Scan
  {
    Scan([FirstPoint(p)], FirstPoint(p), 0.0, false)
  }

  /** The first point takes the vector of the second, or [0, 0] when there is none. */
  function FixFirstVector(out: seq<StrokePoint>): seq<StrokePoint>
    requires |out| >= 1
  {
    out[0 := out[0].(vector := if |out| > 1 then out[1].vector else Vec2(0.0, 0.0))]
  }

  /** `getStrokePoints(points, options)`. */
  function StrokePoints(points: seq<InputPoint>, options: StrokeOptions, dist: (Vec2, Vec2) -> real): seq<StrokePoint>
    requires IsMetric(dist)
  {
    if points == [] then []
    else
      var pts := Pad(points);
      PadShape(points);
      FixFirstVector(ScanFrom(pts, 1, InitialScan(pts[0]), ConfigOf(options), dist).out)
  }

  /**
   * The padding at the start of `getStrokePoints`, which builds a new list
   * and leaves the input alone.
   */
  method PadPoints(points: seq<InputPoint>) returns (pts: seq<InputPoint>)
    ensures pts == Pad(points)
  {
    pts := points;
    if |pts| == 2 {
      var last := pts[1];
      pts := pts[..1];
      var i := 1;
      while i < 5
        invariant 1 <= i <= 5 && |pts| == i && pts[0] == points[0]
        invariant forall k :: 1 <= k < i ==> pts[k] == PadPoint(points[0], points[1], k)
      {
        pts := pts + [PadPoint(pts[0], last, i)];
        i := i + 1;
      }
    }
    if |pts| == 1 {
      pts := pts + [InputPoint(pts[0].x + 1.0, pts[0].y + 1.0, pts[0].rest)];
    }
  }

  /**
   * `getStrokePoints`: pad the input, then walk it, pushing a stroke point
   * for every candidate that differs from the previous point and, before
   * the last input point, only once the running length has reached `size`.
   */
  method GetStrokePoints(points: seq<InputPoint>, options: StrokeOptions, dist: (Vec2, Vec2) -> real)
    returns (strokePoints: seq<StrokePoint>)
    requires IsMetric(dist)
    ensures strokePoints == StrokePoints(points, options, dist)
  {
    if |points| == 0 {
      return [];
    }
    var cfg := ConfigOf(options);
    var pts := PadPoints(points);
    var first := FirstPoint(pts[0]);
    var out := [first];
    var reached := false;
    var runningLength := 0.0;
    var prev := first;
    var max := |pts| - 1;
    assert Scan(out, prev, runningLength, reached) == InitialScan(pts[0]);
    ghost var final := ScanFrom(pts, 1, Scan(out, prev, runningLength, reached), cfg, dist);
    var i := 1;
    while i < |pts|
      invariant 1 <= i <= |pts|
      invariant ScanFrom(pts, i, Scan(out, prev, runningLength, reached), cfg, dist) == final
    {
      ghost var before := Scan(out, prev, runningLength, reached);
      // The source skips to the next index with `continue`; here the
      // remaining steps are guarded instead.
      var point := Candidate(pts, i, prev.point, cfg);
      if !IsEqual(prev.point, point) {
        var distance := dist(point, prev.point);
        runningLength := runningLength + distance;
        var tooShort := false;
        if i < max && !reached {
          if runningLength < cfg.size {
            tooShort := true;
          } else {
            reached := true;
          }
        }
        if !tooShort {
          prev := StrokePoint(point, Pressure(pts[i], 0.5), Div(Sub(prev.point, point), distance), distance, runningLength);
          out := out + [prev];
        }
      }
      assert Step(pts, i, before, cfg, dist) == Scan(out, prev, runningLength, reached);
      i := i + 1;
    }
    strokePoints := FixFirstVector(out);
  }

  /** Every point after the first differs from its predecessor, lies `distance > 0` from it and points back to it. */
  ghost predicate Linked(out: seq<StrokePoint>, dist: (Vec2, Vec2) -> real)
  {
    forall k :: 1 <= k < |out| ==>
      && out[k].point != out[k - 1].point
      && out[k].distance == dist(out[k].point, out[k - 1].point) && out[k].distance > 0.0
      && out[k].vector == Div(Sub(out[k - 1].point, out[k].point), out[k].distance)
      && out[k].pressure >= 0.0
  }

  /** Running lengths add up from the second point on; the second point's also counts skipped candidates. */
  predicate Accumulated(out: seq<StrokePoint>)
  {
    && (forall k :: 2 <= k < |out| ==> out[k].runningLength == out[k - 1].runningLength + out[k].distance)
    && (|out| >= 2 ==> out[1].runningLength >= out[1].distance)
  }

  /** Every point but the first and the last has reached the minimum length. */
  predicate LongEnough(out: seq<StrokePoint>, size: real)
  {
    forall k :: 1 <= k < |out| - 1 ==> out[k].runningLength >= size
  }

  /** The loop's scalar state agrees with the output so far. */
  predicate Tracking(pts: seq<InputPoint>, i: nat, s: Scan, cfg: Config)
  {
    && 1 <= i <= |pts| && 1 <= |s.out| <= i
    && s.prev == s.out[|s.out| - 1] && s.out[0] == FirstPoint(pts[0])
    && s.runningLength >= 0.0
    && (|s.out| >= 2 ==> s.runningLength == s.prev.runningLength)
    && (s.reached ==> s.runningLength >= cfg.size)
    && (i < |pts| && |s.out| >= 2 ==> s.reached && s.prev.runningLength >= cfg.size)
  }

  /**
   * What holds of the loop state after index `i - 1`: the output starts
   * with the first point and ends with `prev`, its points are linked and
   * their running lengths accumulate, and every point pushed before the
   * last input index has reached `size`.
   */
  ghost predicate Inv(pts: seq<InputPoint>, i: nat, s: Scan, cfg: Config, dist: (Vec2, Vec2) -> real)
  {
    && Tracking(pts, i, s, cfg)
    && Linked(s.out, dist)
    && Accumulated(s.out)
    && LongEnough(s.out, cfg.size)
  }

  lemma InitialInv(pts: seq<InputPoint>, cfg: Config, dist: (Vec2, Vec2) -> real)
    requires |pts| >= 1
    ensures Inv(pts, 1, InitialScan(pts[0]), cfg, dist)
  {
  }

  /** Pushing a point that differs from the last, lies `distance` from it and points back to it keeps the output linked. */
  lemma LinkedPush(out: seq<StrokePoint>, dist: (Vec2, Vec2) -> real, p: StrokePoint)
    requires |out| >= 1 && Linked(out, dist)
    requires p.point != out[|out| - 1].point && p.distance == dist(p.point, out[|out| - 1].point) && p.distance > 0.0
    requires p.vector == Div(Sub(out[|out| - 1].point, p.point), p.distance) && p.pressure >= 0.0
    ensures Linked(out + [p], dist)
  {
    var out' := out + [p];
    assert forall k :: 0 <= k < |out| ==> out'[k] == out[k];
  }

  /** Pushing a point whose running length adds its distance keeps the lengths accumulated. */
  lemma AccumulatedPush(out: seq<StrokePoint>, p: StrokePoint, before: real)
    requires |out| >= 1 && Accumulated(out)
    requires before >= 0.0 && (|out| >= 2 ==> before == out[|out| - 1].runningLength)
    requires p.runningLength == before + p.distance
    ensures Accumulated(out + [p])
  {
    var out' := out + [p];
    assert forall k :: 0 <= k < |out| ==> out'[k] == out[k];
  }

  /** Pushing after a point that reached the minimum length keeps the output long enough. */
  lemma LongEnoughPush(out: seq<StrokePoint>, p: StrokePoint, size: real)
    requires LongEnough(out, size)
    requires |out| >= 2 ==> out[|out| - 1].runningLength >= size
    ensures LongEnough(out + [p], size)
  {
    var out' := out + [p];
    assert forall k :: 0 <= k < |out| ==> out'[k] == out[k];
  }

  lemma StepInv(pts: seq<InputPoint>, i: nat, s: Scan, cfg: Config, dist: (Vec2, Vec2) -> real)
    requires IsMetric(dist)
    requires i < |pts| && Inv(pts, i, s, cfg, dist)
    ensures Inv(pts, i + 1, Step(pts, i, s, cfg, dist), cfg, dist)
  {
    var point := Candidate(pts, i, s.prev.point, cfg);
    if !IsEqual(s.prev.point, point) {
      var distance := dist(point, s.prev.point);
      assert distance > 0.0;
      var runningLength := s.runningLength + distance;
      var s' := Step(pts, i, s, cfg, dist);
      if !(i < |pts| - 1 && !s.reached && runningLength < cfg.size) {
        assert s'.out == s.out + [s'.prev];
        LinkedPush(s.out, dist, s'.prev);
        AccumulatedPush(s.out, s'.prev, s.runningLength);
        LongEnoughPush(s.out, s'.prev, cfg.size);
      } else {
        assert s' == s.(runningLength := runningLength);
      }
    }
  }

  lemma {:induction false} ScanFromInv(pts: seq<InputPoint>, i: nat, s: Scan, cfg: Config, dist: (Vec2, Vec2) -> real)
    requires IsMetric(dist) && 1 <= i <= |pts|
    requires Inv(pts, i, s, cfg, dist)
    ensures Inv(pts, |pts|, ScanFrom(pts, i, s, cfg, dist), cfg, dist)
    decreases |pts| - i
  {
    if i < |pts| {
      var next := Step(pts, i, s, cfg, dist);
      StepInv(pts, i, s, cfg, dist);
      ScanFromInv(pts, i + 1, next, cfg, dist);
      assert ScanFrom(pts, i, s, cfg, dist) == ScanFrom(pts, i + 1, next, cfg, dist);
    } else {
      assert ScanFrom(pts, i, s, cfg, dist) == s;
    }
  }

  /** With `last: true`, from any index up to the last the loop ends at the raw last input point. */
  lemma {:induction false} ScanFromEndsAtLast(pts: seq<InputPoint>, i: nat, s: Scan, cfg: Config, dist: (Vec2, Vec2) -> real)
    requires IsMetric(dist) && cfg.isComplete
    requires 1 <= i < |pts|
    ensures ScanFrom(pts, i, s, cfg, dist).prev.point == XY(pts[|pts| - 1])
    decreases |pts| - i
  {
    if i < |pts| - 1 {
      ScanFromEndsAtLast(pts, i + 1, Step(pts, i, s, cfg, dist), cfg, dist);
    } else {
      assert ScanFrom(pts, i, s, cfg, dist) == Step(pts, i, s, cfg, dist);
    }
  }

  /** The empty input gives the empty result, and any other input a non-empty one. */
  lemma StrokePointsEmpty(points: seq<InputPoint>, options: StrokeOptions, dist: (Vec2, Vec2) -> real)
    requires IsMetric(dist)
    ensures StrokePoints(points, options, dist) == [] <==> points == []
  {
    if points != [] {
      var pts := Pad(points);
      PadShape(points);
      var cfg := ConfigOf(options);
      InitialInv(pts, cfg, dist);
      ScanFromInv(pts, 1, InitialScan(pts[0]), cfg, dist);
    }
  }

  /**
   * The shape of a non-empty result: never longer than the padded input;
   * the first point is the first input's x and y with distance and running
   * length 0, its pressure or 0.25, and the vector of the second point (or
   * [0, 0]). Every later point differs from its predecessor, lies
   * `distance > 0` from it, has the unit vector back to it and a
   * non-negative pressure; running lengths add up from the second point on,
   * the second point's includes skipped candidates, and every point but the
   * last has reached `size`.
   */
  lemma StrokePointsShape(points: seq<InputPoint>, options: StrokeOptions, dist: (Vec2, Vec2) -> real)
    requires IsMetric(dist) && points != []
    ensures var r := StrokePoints(points, options, dist); var size := ConfigOf(options).size;
      && 1 <= |r| <= |Pad(points)|
      && r[0].point == XY(points[0]) && r[0].distance == 0.0 && r[0].runningLength == 0.0
      && r[0].pressure == Pressure(points[0], 0.25)
      && r[0].vector == (if |r| > 1 then r[1].vector else Vec2(0.0, 0.0))
      && (forall k :: 1 <= k < |r| ==>
            && r[k].point != r[k - 1].point
            && r[k].distance == dist(r[k].point, r[k - 1].point) && r[k].distance > 0.0
            && r[k].vector == Div(Sub(r[k - 1].point, r[k].point), r[k].distance)
            && r[k].pressure >= 0.0)
      && (forall k :: 2 <= k < |r| ==> r[k].runningLength == r[k - 1].runningLength + r[k].distance)
      && (|r| >= 2 ==> r[1].runningLength >= r[1].distance)
      && (forall k :: 1 <= k < |r| - 1 ==> r[k].runningLength >= size)
  {
    var pts := Pad(points);
    PadShape(points);
    var cfg := ConfigOf(options);
    InitialInv(pts, cfg, dist);
    ScanFromInv(pts, 1, InitialScan(pts[0]), cfg, dist);
    var out := ScanFrom(pts, 1, InitialScan(pts[0]), cfg, dist).out;
    var r := FixFirstVector(out);
    assert forall k :: 1 <= k < |r| ==> r[k] == out[k];
  }

  /**
   * The loop state just before index `i`: the first stroke point alone
   * before index 1, then one `Step` per index.
   */
  function StateBefore(pts: seq<InputPoint>, i: nat, cfg: Config, dist: (Vec2, Vec2) -> real): Scan
    requires 1 <= i <= |pts|
    requires IsMetric(dist)
    decreases i
  {
    if i == 1 then InitialScan(pts[0]) else Step(pts, i - 1, StateBefore(pts, i - 1, cfg, dist), cfg, dist)
  }

  /**
   * The filter of the loop at index `i`: the candidate differs from the
   * previous point and, before the last index, the running length with it
   * has reached `size`.
   */
  predicate Passes(pts: seq<InputPoint>, i: nat, s: Scan, cfg: Config, dist: (Vec2, Vec2) -> real)
    requires i < |pts|
  {
    var point := Candidate(pts, i, s.prev.point, cfg);
    !IsEqual(s.prev.point, point) && (i == |pts| - 1 || s.runningLength + dist(point, s.prev.point) >= cfg.size)
  }

  /** A step pushes its candidate exactly when it passes the filter, and otherwise leaves the output alone. */
  lemma StepPushesIffPasses(pts: seq<InputPoint>, i: nat, s: Scan, cfg: Config, dist: (Vec2, Vec2) -> real)
    requires IsMetric(dist) && 1 <= i < |pts| && Tracking(pts, i, s, cfg)
    ensures var r := Step(pts, i, s, cfg, dist); var point := Candidate(pts, i, s.prev.point, cfg);
      if Passes(pts, i, s, cfg, dist)
      then r.out == s.out + [r.prev] && r.prev.point == point
        && r.prev.runningLength == s.runningLength + dist(point, s.prev.point)
      else r.out == s.out && r.prev == s.prev
  {
  }

  /** Every iteration keeps the loop's scalar state in step with its output. */
  lemma StepTracking(pts: seq<InputPoint>, i: nat, s: Scan, cfg: Config, dist: (Vec2, Vec2) -> real)
    requires IsMetric(dist) && i < |pts| && Tracking(pts, i, s, cfg)
    ensures Tracking(pts, i + 1, Step(pts, i, s, cfg, dist), cfg)
  {
  }

  lemma {:induction false} StateBeforeTracking(pts: seq<InputPoint>, i: nat, cfg: Config, dist: (Vec2, Vec2) -> real)
    requires IsMetric(dist) && 1 <= i <= |pts|
    ensures Tracking(pts, i, StateBefore(pts, i, cfg, dist), cfg)
    decreases i
  {
    if i > 1 {
      var before := StateBefore(pts, i - 1, cfg, dist);
      StateBeforeTracking(pts, i - 1, cfg, dist);
      StepTracking(pts, i - 1, before, cfg, dist);
    }
  }

  /** Running the rest of the loop from the state before `i` gives the whole loop. */
  lemma {:induction false} ScanFromStateBefore(pts: seq<InputPoint>, i: nat, cfg: Config, dist: (Vec2, Vec2) -> real)
    requires IsMetric(dist) && 1 <= i <= |pts|
    ensures ScanFrom(pts, i, StateBefore(pts, i, cfg, dist), cfg, dist) == ScanFrom(pts, 1, InitialScan(pts[0]), cfg, dist)
    decreases i
  {
    if i > 1 {
      ScanFromStateBefore(pts, i - 1, cfg, dist);
      assert ScanFrom(pts, i - 1, StateBefore(pts, i - 1, cfg, dist), cfg, dist)
          == ScanFrom(pts, i, StateBefore(pts, i, cfg, dist), cfg, dist);
    }
  }

  /** The rest of the loop keeps the points pushed so far. */
  lemma {:induction false} ScanFromExtends(pts: seq<InputPoint>, i: nat, s: Scan, cfg: Config, dist: (Vec2, Vec2) -> real)
    requires IsMetric(dist) && 1 <= i <= |pts|
    ensures s.out <= ScanFrom(pts, i, s, cfg, dist).out
    decreases |pts| - i
  {
    if i < |pts| {
      var next := Step(pts, i, s, cfg, dist);
      ScanFromExtends(pts, i + 1, next, cfg, dist);
      assert s.out <= next.out;
    }
  }

  /** The whole loop ends in the state before the (missing) index past the end. */
  lemma ScanIsLastState(pts: seq<InputPoint>, cfg: Config, dist: (Vec2, Vec2) -> real)
    requires IsMetric(dist) && 1 <= |pts|
    ensures ScanFrom(pts, 1, InitialScan(pts[0]), cfg, dist) == StateBefore(pts, |pts|, cfg, dist)
  {
    ScanFromStateBefore(pts, |pts|, cfg, dist);
  }

  /**
   * Index `i` of the loop adds a point exactly when its candidate passes
   * the filter, and the final output keeps it at position `|s.out|`.
   */
  lemma ScanPushesPassing(pts: seq<InputPoint>, cfg: Config, dist: (Vec2, Vec2) -> real, i: nat)
    requires IsMetric(dist) && 1 <= i < |pts|
    ensures var s := StateBefore(pts, i, cfg, dist); var point := Candidate(pts, i, s.prev.point, cfg);
      var out := StateBefore(pts, |pts|, cfg, dist).out;
      && 1 <= |s.out| <= |out| && out[|s.out| - 1] == s.prev
      && |StateBefore(pts, i + 1, cfg, dist).out| == |s.out| + (if Passes(pts, i, s, cfg, dist) then 1 else 0)
      && (Passes(pts, i, s, cfg, dist) ==>
            |s.out| < |out| && out[|s.out|].point == point
            && out[|s.out|].runningLength == s.runningLength + dist(point, s.prev.point))
  {
    var s := StateBefore(pts, i, cfg, dist);
    var s' := StateBefore(pts, i + 1, cfg, dist);
    StateBeforeTracking(pts, i, cfg, dist);
    StepPushesIffPasses(pts, i, s, cfg, dist);
    assert s' == Step(pts, i, s, cfg, dist);
    StateBeforePrefix(pts, cfg, dist, i + 1);
  }

  /** The state before any index holds a prefix of the final output. */
  lemma StateBeforePrefix(pts: seq<InputPoint>, cfg: Config, dist: (Vec2, Vec2) -> real, i: nat)
    requires IsMetric(dist) && 1 <= i <= |pts|
    ensures StateBefore(pts, i, cfg, dist).out <= StateBefore(pts, |pts|, cfg, dist).out
  {
    ScanFromStateBefore(pts, i, cfg, dist);
    ScanFromExtends(pts, i, StateBefore(pts, i, cfg, dist), cfg, dist);
    ScanIsLastState(pts, cfg, dist);
  }

  /**
   * Both directions of the skipping rule, at every index `i` of the padded
   * input: with `s` the loop state before `i`, the result holds the points
   * pushed so far, `s.prev` is the last of them, and index `i` adds a point
   * exactly when its candidate passes the filter; that point is then the
   * candidate, at position `|s.out|` of the result, with the running length
   * grown by its distance.
   */
  lemma StrokePointsPushesPassing(points: seq<InputPoint>, options: StrokeOptions, dist: (Vec2, Vec2) -> real, i: nat)
    requires IsMetric(dist) && points != [] && 1 <= i < |Pad(points)|
    ensures var pts := Pad(points); var cfg := ConfigOf(options);
      var s := StateBefore(pts, i, cfg, dist); var point := Candidate(pts, i, s.prev.point, cfg);
      var r := StrokePoints(points, options, dist);
      && 1 <= |s.out| <= |r| && r[|s.out| - 1].point == s.prev.point
      && |StateBefore(pts, i + 1, cfg, dist).out| == |s.out| + (if Passes(pts, i, s, cfg, dist) then 1 else 0)
      && (Passes(pts, i, s, cfg, dist) ==>
            |s.out| < |r| && r[|s.out|].point == point
            && r[|s.out|].runningLength == s.runningLength + dist(point, s.prev.point))
  {
    var pts := Pad(points);
    PadShape(points);
    var cfg := ConfigOf(options);
    ScanIsLastState(pts, cfg, dist);
    ScanPushesPassing(pts, cfg, dist, i);
    var out := StateBefore(pts, |pts|, cfg, dist).out;
    var r := FixFirstVector(out);
    assert forall k :: 0 <= k < |r| ==> r[k].point == out[k].point && r[k].runningLength == out[k].runningLength;
  }

  /**
   * The last candidate is exempt from the minimum length, for either value
   * of `last`: the result ends with the candidate of the last padded index
   * taken from the point before it, unless that candidate coincides with
   * the final point and was skipped.
   */
  lemma StrokeEndsWithLastCandidate(points: seq<InputPoint>, options: StrokeOptions, dist: (Vec2, Vec2) -> real)
    requires IsMetric(dist) && points != []
    ensures var pts := Pad(points); var cfg := ConfigOf(options); var r := StrokePoints(points, options, dist);
      && |r| >= 1
      && (Candidate(pts, |pts| - 1, r[|r| - 1].point, cfg) == r[|r| - 1].point
          || (|r| >= 2 && r[|r| - 1].point == Candidate(pts, |pts| - 1, r[|r| - 2].point, cfg)))
  {
    var pts := Pad(points);
    PadShape(points);
    var cfg := ConfigOf(options);
    var max := |pts| - 1;
    var s := StateBefore(pts, max, cfg, dist);
    StateBeforeTracking(pts, max, cfg, dist);
    StepPushesIffPasses(pts, max, s, cfg, dist);
    ScanIsLastState(pts, cfg, dist);
    var out := StateBefore(pts, |pts|, cfg, dist).out;
    var r := FixFirstVector(out);
    assert forall k :: 0 <= k < |r| ==> r[k].point == out[k].point;
  }

  /** The running length never decreases along the result. */
  lemma RunningLengthMonotone(points: seq<InputPoint>, options: StrokeOptions, dist: (Vec2, Vec2) -> real, j: nat, k: nat)
    requires IsMetric(dist) && points != []
    requires j <= k < |StrokePoints(points, options, dist)|
    ensures StrokePoints(points, options, dist)[j].runningLength <= StrokePoints(points, options, dist)[k].runningLength
    decreases k - j
  {
    var r := StrokePoints(points, options, dist);
    StrokePointsShape(points, options, dist);
    if j < k {
      RunningLengthMonotone(points, options, dist, j, k - 1);
      if k >= 2 {
        assert r[k].runningLength == r[k - 1].runningLength + r[k].distance;
      } else {
        assert r[1].runningLength >= r[1].distance > 0.0;
      }
    }
  }

  /** With `last: true` the final stroke point is the raw last (padded) input point. */
  lemma CompleteStrokeEndsAtLastPoint(points: seq<InputPoint>, options: StrokeOptions, dist: (Vec2, Vec2) -> real)
    requires IsMetric(dist) && points != []
    requires options.last == Some(true)
    ensures var r := StrokePoints(points, options, dist);
      |r| >= 1 && r[|r| - 1].point == XY(Pad(points)[|Pad(points)| - 1])
  {
    var pts := Pad(points);
    PadShape(points);
    var cfg := ConfigOf(options);
    InitialInv(pts, cfg, dist);
    ScanFromInv(pts, 1, InitialScan(pts[0]), cfg, dist);
    ScanFromEndsAtLast(pts, 1, InitialScan(pts[0]), cfg, dist);
  }

  /** `getStrokeRadius(size, thinning, pressure, easing)`. */
  function GetStrokeRadius(size: real, thinning: real, pressure: real, easing: real -> real): (r: real)
    ensures thinning == 0.0 || pressure == 0.5 ==> r == size * easing(0.5)
    ensures thinning == 1.0 ==> r == size * easing(pressure)
  {
    var eased := 0.5 - thinning * (0.5 - pressure);
    assert thinning == 0.0 || pressure == 0.5 ==> eased == 0.5;
    assert thinning == 1.0 ==> eased == pressure;
    size * easing(eased)
  }
}
