/**
 * Two-component vector algebra shared by the drawing engine, the
 * perfect-freehand preprocessor and the calligraphy curve fitter.
 *
 * The source defines `add`, `sub` and `med` more than once (once per
 * helper library); the definitions agree over the reals, so they are
 * defined here once. Caligrapher's `scale` is the same operation as
 * PerfectFreehand's `mul` and is modelled by `Mul`.
 *
 * Distances in the source are square roots (`Math.hypot`, `getDist`).
 * The model does not compute them: every operation that needs a distance
 * receives it as a function `dist` that is a metric in the weak sense of
 * `IsMetric`.
 */
module Geometry {

  /** A point or vector `[x, y]`. */
  datatype Vec2 = Vec2(x: real, y: real)

  function Neg(a: Vec2): Vec2 { Vec2(-a.x, -a.y) }

  function Add(a: Vec2, b: Vec2): Vec2 { Vec2(a.x + b.x, a.y + b.y) }

  function Sub(a: Vec2, b: Vec2): Vec2 { Vec2(a.x - b.x, a.y - b.y) }

  /** Multiplication by a scalar (`mul`, and Caligrapher's `scale`). */
  function Mul(a: Vec2, n: real): Vec2 { Vec2(a.x * n, a.y * n) }

  /** Division by a scalar; a zero divisor (an IEEE infinity in the source) is excluded. */
  function Div(a: Vec2, n: real): Vec2
    requires n != 0.0
  {
    Vec2(a.x / n, a.y / n)
  }

  /** Perpendicular rotation. */
  function Per(a: Vec2): Vec2 { Vec2(a.y, -a.x) }

  /** Dot product. */
  function Dpr(a: Vec2, b: Vec2): real { a.x * b.x + a.y * b.y }

  /** Component-wise equality of the first two components. */
  predicate IsEqual(a: Vec2, b: Vec2) { a.x == b.x && a.y == b.y }

  /** Linear interpolation from `a` towards `b` by `t`. */
  function Lrp(a: Vec2, b: Vec2, t: real): Vec2 { Add(a, Mul(Sub(b, a), t)) }

  /** Projection of `a` in direction `b` by the scalar `c`. */
  function Prj(a: Vec2, b: Vec2, c: real): Vec2 { Add(a, Mul(b, c)) }

  /** Mean of two vectors, as PerfectFreehand writes it. */
  function Med(a: Vec2, b: Vec2): Vec2 { Mul(Add(a, b), 0.5) }

  /** Caligrapher's `midpoint(p1, p2, t)`: the weighted sum `(1-t)*p1 + t*p2`. */
  function Midpoint(p1: Vec2, p2: Vec2, t: real): Vec2 { Add(Mul(p1, 1.0 - t), Mul(p2, t)) }

  /**
   * What the model assumes of a distance function: it is never negative
   * and it is zero exactly between equal points.
   */
  ghost predicate IsMetric(dist: (Vec2, Vec2) -> real)
  {
    forall a, b :: dist(a, b) >= 0.0 && (dist(a, b) == 0.0 <==> a == b)
  }

  // ---------------------------------------------------------------------
  // Identities of the vector helpers
  // ---------------------------------------------------------------------

  lemma PerPerIsNeg(a: Vec2)
    ensures Per(Per(a)) == Neg(a)
  {
  }

  lemma PerIsOrthogonal(a: Vec2)
    ensures Dpr(a, Per(a)) == 0.0
  {
  }

  lemma LrpEnds(a: Vec2, b: Vec2)
    ensures Lrp(a, b, 0.0) == a
    ensures Lrp(a, b, 1.0) == b
  {
  }

  lemma MedIsHalfwayLrp(a: Vec2, b: Vec2)
    ensures Med(a, b) == Lrp(a, b, 0.5)
    ensures Med(a, b) == Med(b, a)
  {
  }

  lemma PrjIsAddMul(a: Vec2, b: Vec2, c: real)
    ensures Prj(a, b, c) == Add(a, Mul(b, c))
    ensures Prj(a, b, 0.0) == a
  {
  }

  lemma SubAddInverse(a: Vec2, b: Vec2)
    ensures Add(Sub(a, b), b) == a
    ensures Sub(Add(a, b), b) == a
  {
  }

  /** Caligrapher's weighted midpoint and PerfectFreehand's interpolation agree. */
  lemma MidpointIsLrp(p1: Vec2, p2: Vec2, t: real)
    ensures Midpoint(p1, p2, t) == Lrp(p1, p2, t)
    ensures Midpoint(p1, p2, 0.0) == p1 && Midpoint(p1, p2, 1.0) == p2
  {
  }

  lemma DivUndoesMul(a: Vec2, n: real)
    requires n != 0.0
    ensures Div(Mul(a, n), n) == a
  {
  }
}
