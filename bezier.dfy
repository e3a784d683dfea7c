/**
 * Caligrapher's bezier.js section: the recursive de Casteljau evaluation
 * `bezierPos`, the `Bezier` function class (`getStart`, `getEnd`,
 * `getPoint`) and the interpolation helpers `linInterpolate` and
 * `linFunction` used to build the segment thickness profiles.
 */
module Bezier {
  import opened Geometry
  import opened Wrappers

  /**
   * `bezierPos(ps, t)`: `t` times the curve of the last `n-1` control points
   * plus `1-t` times the curve of the first `n-1`. The source recurses
   * without end on an empty list, so at least one control point is required.
   */
  function BezierPos(ps: seq<Vec2>, t: real): Vec2
    requires |ps| >= 1
    decreases |ps|
  {
    if |ps| == 1 then ps[0]
    else
      var later := BezierPos(ps[1..], t);
      var earlier := BezierPos(ps[..|ps| - 1], t);
      Vec2(t * later.x + (1.0 - t) * earlier.x, t * later.y + (1.0 - t) * earlier.y)
  }

  /** The curve starts at its first and ends at its last control point. */
  lemma {:induction false} BezierPosEnds(ps: seq<Vec2>)
    requires |ps| >= 1
    ensures BezierPos(ps, 0.0) == ps[0]
    ensures BezierPos(ps, 1.0) == ps[|ps| - 1]
    decreases |ps|
  {
    if |ps| > 1 {
      BezierPosEnds(ps[1..]);
      BezierPosEnds(ps[..|ps| - 1]);
    }
  }

  /** A curve whose control points all coincide is that single point. */
  lemma {:induction false} BezierPosConstant(ps: seq<Vec2>, c: Vec2, t: real)
    requires |ps| >= 1
    requires forall i :: 0 <= i < |ps| ==> ps[i] == c
    ensures BezierPos(ps, t) == c
    decreases |ps|
  {
    if |ps| > 1 {
      BezierPosConstant(ps[1..], c, t);
      BezierPosConstant(ps[..|ps| - 1], c, t);
      assert t * c.x + (1.0 - t) * c.x == c.x;
      assert t * c.y + (1.0 - t) * c.y == c.y;
    }
  }

  /** With two control points the curve is the straight interpolation. */
  lemma BezierPosLinear(p0: Vec2, p1: Vec2, t: real)
    ensures BezierPos([p0, p1], t) == Lrp(p0, p1, t)
  {
    assert [p0, p1][1..] == [p1];
    assert [p0, p1][..1] == [p0];
    assert t * p1.x + (1.0 - t) * p0.x == p0.x + (p1.x - p0.x) * t;
    assert t * p1.y + (1.0 - t) * p0.y == p0.y + (p1.y - p0.y) * t;
  }

  /** `new Bezier(controlPoints)`; `order` is one less than the number of control points. */
  datatype Curve = Curve(controlPoints: seq<Vec2>)
  {
    function Order(): int { |controlPoints| - 1 }

    /** `getStart`. */
    function GetStart(): Vec2
      requires |controlPoints| >= 1
    {
      controlPoints[0]
    }

    /** `getEnd`: the control point at index `order`. */
    function GetEnd(): Vec2
      requires |controlPoints| >= 1
    {
      controlPoints[Order()]
    }

    /** `getPoint(t)`. */
    function GetPoint(t: real): Vec2
      requires |controlPoints| >= 1
    {
      BezierPos(controlPoints, t)
    }
  }

  /** The curve passes through `getStart` at 0 and `getEnd` at 1. */
  lemma CurveEnds(c: Curve)
    requires |c.controlPoints| >= 1
    ensures c.GetPoint(0.0) == c.GetStart()
    ensures c.GetPoint(1.0) == c.GetEnd()
  {
    BezierPosEnds(c.controlPoints);
  }

  /** `linInterpolate(y0, y1, mu)`: `y0*(1-mu) + y1*mu`. */
  function LinInterpolate(y0: real, y1: real, mu: real): real
  {
    y0 * (1.0 - mu) + y1 * mu
  }

  lemma LinInterpolateEnds(y0: real, y1: real)
    ensures LinInterpolate(y0, y1, 0.0) == y0
    ensures LinInterpolate(y0, y1, 1.0) == y1
  {
  }

  /** For `mu` in [0, 1] the interpolated value lies between the two ends. */
  lemma LinInterpolateBetween(y0: real, y1: real, mu: real)
    requires 0.0 <= mu <= 1.0
    ensures y0 <= y1 ==> y0 <= LinInterpolate(y0, y1, mu) <= y1
    ensures y1 <= y0 ==> y1 <= LinInterpolate(y0, y1, mu) <= y0
  {
    assert LinInterpolate(y0, y1, mu) == y0 + (y1 - y0) * mu;
    var d := y1 - y0;
    assert d * mu + d * (1.0 - mu) == d;
    if y0 <= y1 {
      MulNonNegative(d, mu);
      MulNonNegative(d, 1.0 - mu);
    } else {
      MulNonNegative(-d, mu);
      MulNonNegative(-d, 1.0 - mu);
    }
  }

  lemma MulNonNegative(a: real, b: real)
    requires 0.0 <= a && 0.0 <= b
    ensures 0.0 <= a * b
  {
  }

  /** A breakpoint `[t, value]` of a piecewise-linear profile. */
  type Breakpoint = (real, real)

  /**
   * The loop of the closure returned by `linFunction`, from breakpoint `i`:
   * the first piece `(p0[0], p1[0]]` containing `t` gives the value, and no
   * piece gives `undefined`.
   */
  function LinFrom(points: seq<Breakpoint>, t: real, i: nat): Option<real>
    requires 1 <= i
    decreases |points| - i
  {
    if i >= |points| then None
    else
      var p0, p1 := points[i - 1], points[i];
      if t <= p1.0 && t > p0.0 then Some(LinInterpolate(p0.1, p1.1, (t - p0.0) / (p1.0 - p0.0)))
      else LinFrom(points, t, i + 1)
  }

  /**
   * `linFunction(points)(t)`: at 0 the first value, otherwise the linear
   * interpolation on the first piece that contains `t`. The source reads
   * `points[0]` at 0, so the profile must have a breakpoint.
   */
  function LinFunction(points: seq<Breakpoint>, t: real): (r: Option<real>)
    requires |points| >= 1
    ensures t == 0.0 ==> r == Some(points[0].1)
  {
    if t == 0.0 then Some(points[0].1) else LinFrom(points, t, 1)
  }

  /** The breakpoints' positions strictly increase. */
  predicate Ascending(points: seq<Breakpoint>)
  {
    forall i, j :: 0 <= i < j < |points| ==> points[i].0 < points[j].0
  }

  lemma {:induction false} LinFromAtBreakpoint(points: seq<Breakpoint>, k: nat, i: nat)
    requires Ascending(points)
    requires 1 <= i <= k < |points|
    ensures LinFrom(points, points[k].0, i) == Some(points[k].1)
    decreases k - i
  {
    var t := points[k].0;
    if i < k {
      assert !(t <= points[i].0);
      LinFromAtBreakpoint(points, k, i + 1);
    } else {
      var p0, p1 := points[k - 1], points[k];
      assert p0.0 < p1.0;
      assert (t - p0.0) / (p1.0 - p0.0) == 1.0;
      assert LinInterpolate(p0.1, p1.1, 1.0) == p1.1;
    }
  }

  /**
   * On an ascending profile that starts at or after 0, every breakpoint
   * after the first is reproduced exactly: `linFunction(points)(p[0]) == p[1]`.
   * (The first breakpoint is reproduced only when it sits at 0, by the
   * `t == 0` branch; any other `t` at or before it is `undefined`.)
   */
  lemma LinFunctionAtBreakpoint(points: seq<Breakpoint>, k: nat)
    requires Ascending(points)
    requires 1 <= k < |points|
    requires 0.0 <= points[0].0
    ensures LinFunction(points, points[k].0) == Some(points[k].1)
  {
    assert points[0].0 < points[k].0;
    LinFromAtBreakpoint(points, k, 1);
  }

  lemma {:induction false} LinFromOutside(points: seq<Breakpoint>, t: real, i: nat)
    requires Ascending(points) && |points| >= 1
    requires 1 <= i
    requires t <= points[0].0 || t > points[|points| - 1].0
    ensures LinFrom(points, t, i) == None
    decreases |points| - i
  {
    if i < |points| {
      assert points[0].0 <= points[i - 1].0 && points[i].0 <= points[|points| - 1].0;
      LinFromOutside(points, t, i + 1);
    }
  }

  /**
   * Outside the profile's span (at or before its first breakpoint, other
   * than 0, or after its last) the closure returns `undefined`.
   */
  lemma LinFunctionOutside(points: seq<Breakpoint>, t: real)
    requires Ascending(points) && |points| >= 1
    requires t != 0.0
    requires t <= points[0].0 || t > points[|points| - 1].0
    ensures LinFunction(points, t) == None
  {
    LinFromOutside(points, t, 1);
  }
}
