/**
 * The stroke-delete hit test `doLinesIntersect`: two polylines intersect
 * when some segment of the first crosses some segment of the second,
 * decided with the parametric test on `uA` and `uB`.
 *
 * In the source a zero denominator makes `uA` and `uB` infinite or NaN,
 * and every comparison with those is false; the model states that case
 * directly as "no hit".
 */
module Intersect {
  import opened Geometry

  /** The common denominator of the parametric test for segments (p1,p2) and (p3,p4). */
  function Denominator(p1: Vec2, p2: Vec2, p3: Vec2, p4: Vec2): real
  {
    (p4.y - p3.y) * (p2.x - p1.x) - (p4.x - p3.x) * (p2.y - p1.y)
  }

  function NumeratorA(p1: Vec2, p2: Vec2, p3: Vec2, p4: Vec2): real
  {
    (p4.x - p3.x) * (p1.y - p3.y) - (p4.y - p3.y) * (p1.x - p3.x)
  }

  function NumeratorB(p1: Vec2, p2: Vec2, p3: Vec2, p4: Vec2): real
  {
    (p2.x - p1.x) * (p1.y - p3.y) - (p2.y - p1.y) * (p1.x - p3.x)
  }

  predicate InUnit(u: real) { 0.0 <= u <= 1.0 }

  /** `lineLine`: segment (p1,p2) meets segment (p3,p4). */
  predicate LineLine(p1: Vec2, p2: Vec2, p3: Vec2, p4: Vec2)
  {
    var den := Denominator(p1, p2, p3, p4);
    den != 0.0
    && InUnit(NumeratorA(p1, p2, p3, p4) / den)
    && InUnit(NumeratorB(p1, p2, p3, p4) / den)
  }

  /** Segment `i` of `line1` meets segment `j` of `line2`. */
  predicate SegmentsMeet(line1: seq<Vec2>, line2: seq<Vec2>, i: nat, j: nat)
    requires i + 1 < |line1| && j + 1 < |line2|
  {
    LineLine(line1[i], line1[i + 1], line2[j], line2[j + 1])
  }

  /** The inner loop: some segment of `line2` from index `j` on meets segment `i` of `line1`. */
  predicate InnerFrom(line1: seq<Vec2>, line2: seq<Vec2>, i: nat, j: nat)
    requires i + 1 < |line1|
    decreases |line2| - j
  {
    if j + 1 >= |line2| then false
    else SegmentsMeet(line1, line2, i, j) || InnerFrom(line1, line2, i, j + 1)
  }

  /** The outer loop, from segment `i` of `line1` on. */
  predicate OuterFrom(line1: seq<Vec2>, line2: seq<Vec2>, i: nat)
    decreases |line1| - i
  {
    if i + 1 >= |line1| then false
    else InnerFrom(line1, line2, i, 0) || OuterFrom(line1, line2, i + 1)
  }

  /** `doLinesIntersect(line1, line2)`. */
  predicate DoLinesIntersect(line1: seq<Vec2>, line2: seq<Vec2>)
  {
    OuterFrom(line1, line2, 0)
  }

  /** Some pair of consecutive segments meets. */
  ghost predicate SomeSegmentsMeet(line1: seq<Vec2>, line2: seq<Vec2>)
  {
    exists i: nat, j: nat :: i + 1 < |line1| && j + 1 < |line2| && SegmentsMeet(line1, line2, i, j)
  }

  lemma {:induction false} InnerFromIff(line1: seq<Vec2>, line2: seq<Vec2>, i: nat, j: nat)
    requires i + 1 < |line1|
    ensures InnerFrom(line1, line2, i, j) <==>
      exists k: nat :: j <= k && k + 1 < |line2| && SegmentsMeet(line1, line2, i, k)
    decreases |line2| - j
  {
    if j + 1 < |line2| {
      InnerFromIff(line1, line2, i, j + 1);
      if InnerFrom(line1, line2, i, j + 1) {
        var k: nat :| j + 1 <= k && k + 1 < |line2| && SegmentsMeet(line1, line2, i, k);
        assert j <= k;
      }
    }
  }

  lemma {:induction false} OuterFromIff(line1: seq<Vec2>, line2: seq<Vec2>, i: nat)
    ensures OuterFrom(line1, line2, i) <==>
      exists a: nat, k: nat :: i <= a && a + 1 < |line1| && k + 1 < |line2| && SegmentsMeet(line1, line2, a, k)
    decreases |line1| - i
  {
    if i + 1 < |line1| {
      InnerFromIff(line1, line2, i, 0);
      OuterFromIff(line1, line2, i + 1);
      if OuterFrom(line1, line2, i + 1) {
        var a: nat, k: nat :| i + 1 <= a && a + 1 < |line1| && k + 1 < |line2| && SegmentsMeet(line1, line2, a, k);
        assert i <= a;
      }
      if InnerFrom(line1, line2, i, 0) {
        var k: nat :| 0 <= k && k + 1 < |line2| && SegmentsMeet(line1, line2, i, k);
        assert exists a: nat, k: nat :: i <= a && a + 1 < |line1| && k + 1 < |line2| && SegmentsMeet(line1, line2, a, k);
      }
      if exists a: nat, k: nat :: i <= a && a + 1 < |line1| && k + 1 < |line2| && SegmentsMeet(line1, line2, a, k) {
        var a: nat, k: nat :| i <= a && a + 1 < |line1| && k + 1 < |line2| && SegmentsMeet(line1, line2, a, k);
        if a == i {
          assert InnerFrom(line1, line2, i, 0);
        } else {
          assert OuterFrom(line1, line2, i + 1);
        }
      }
    }
  }

  /** The nested early-return loops decide exactly "some pair of segments meets". */
  lemma DoLinesIntersectIff(line1: seq<Vec2>, line2: seq<Vec2>)
    ensures DoLinesIntersect(line1, line2) <==> SomeSegmentsMeet(line1, line2)
  {
    OuterFromIff(line1, line2, 0);
  }

  /** Parallel and collinear segments (zero denominator) never count as a hit. */
  lemma ParallelNeverMeets(p1: Vec2, p2: Vec2, p3: Vec2, p4: Vec2)
    requires Denominator(p1, p2, p3, p4) == 0.0
    ensures !LineLine(p1, p2, p3, p4)
  {
  }

  /**
   * When the test succeeds, `uA` locates a point that lies on both
   * segments: the same point is reached from (p1,p2) with `uA` and from
   * (p3,p4) with `uB`.
   */
  lemma MeetingPointIsShared(p1: Vec2, p2: Vec2, p3: Vec2, p4: Vec2)
    requires LineLine(p1, p2, p3, p4)
    ensures var den := Denominator(p1, p2, p3, p4);
      Lrp(p1, p2, NumeratorA(p1, p2, p3, p4) / den) == Lrp(p3, p4, NumeratorB(p1, p2, p3, p4) / den)
  {
    var den := Denominator(p1, p2, p3, p4);
    var na, nb := NumeratorA(p1, p2, p3, p4), NumeratorB(p1, p2, p3, p4);
    var ua, ub := na / den, nb / den;
    assert ua * den == na && ub * den == nb;
    assert (p1.x + (p2.x - p1.x) * ua) * den == p1.x * den + (p2.x - p1.x) * na;
    assert (p3.x + (p4.x - p3.x) * ub) * den == p3.x * den + (p4.x - p3.x) * nb;
    assert p1.x * den + (p2.x - p1.x) * na == p3.x * den + (p4.x - p3.x) * nb;
    assert (p1.y + (p2.y - p1.y) * ua) * den == p1.y * den + (p2.y - p1.y) * na;
    assert (p3.y + (p4.y - p3.y) * ub) * den == p3.y * den + (p4.y - p3.y) * nb;
    assert p1.y * den + (p2.y - p1.y) * na == p3.y * den + (p4.y - p3.y) * nb;
  }

  /** Swapping the two segments negates the denominator and swaps `uA` and `uB`. */
  lemma LineLineSymmetric(p1: Vec2, p2: Vec2, p3: Vec2, p4: Vec2)
    ensures LineLine(p1, p2, p3, p4) <==> LineLine(p3, p4, p1, p2)
  {
    var den := Denominator(p1, p2, p3, p4);
    assert Denominator(p3, p4, p1, p2) == -den;
    assert NumeratorA(p3, p4, p1, p2) == -NumeratorB(p1, p2, p3, p4);
    assert NumeratorB(p3, p4, p1, p2) == -NumeratorA(p1, p2, p3, p4);
    if den != 0.0 {
      assert NumeratorA(p3, p4, p1, p2) / -den == NumeratorB(p1, p2, p3, p4) / den;
      assert NumeratorB(p3, p4, p1, p2) / -den == NumeratorA(p1, p2, p3, p4) / den;
    }
  }

  /** The hit test does not depend on which polyline is the eraser path. */
  lemma DoLinesIntersectSymmetric(line1: seq<Vec2>, line2: seq<Vec2>)
    ensures DoLinesIntersect(line1, line2) <==> DoLinesIntersect(line2, line1)
  {
    DoLinesIntersectIff(line1, line2);
    DoLinesIntersectIff(line2, line1);
    if SomeSegmentsMeet(line1, line2) {
      var i: nat, j: nat :| i + 1 < |line1| && j + 1 < |line2| && SegmentsMeet(line1, line2, i, j);
      LineLineSymmetric(line1[i], line1[i + 1], line2[j], line2[j + 1]);
      assert SegmentsMeet(line2, line1, j, i);
    }
    if SomeSegmentsMeet(line2, line1) {
      var j: nat, i: nat :| j + 1 < |line2| && i + 1 < |line1| && SegmentsMeet(line2, line1, j, i);
      LineLineSymmetric(line2[j], line2[j + 1], line1[i], line1[i + 1]);
      assert SegmentsMeet(line1, line2, i, j);
    }
  }

  /** A polyline with fewer than two points has no segment and never intersects. */
  lemma ShortLineNeverIntersects(line1: seq<Vec2>, line2: seq<Vec2>)
    requires |line1| < 2 || |line2| < 2
    ensures !DoLinesIntersect(line1, line2)
  {
    DoLinesIntersectIff(line1, line2);
  }

  /** For two single segments the hit test is exactly `lineLine`. */
  lemma SingleSegmentPolylines(a: Vec2, b: Vec2, c: Vec2, d: Vec2)
    ensures DoLinesIntersect([a, b], [c, d]) <==> LineLine(a, b, c, d)
  {
    var l1, l2 := [a, b], [c, d];
    assert !InnerFrom(l1, l2, 0, 1);
    assert !OuterFrom(l1, l2, 1);
    assert SegmentsMeet(l1, l2, 0, 0) == LineLine(a, b, c, d);
  }

  /** Two crossing diagonals meet at their centre. */
  lemma CrossingDiagonalsIntersect()
    ensures DoLinesIntersect([Vec2(0.0, 0.0), Vec2(10.0, 10.0)], [Vec2(0.0, 10.0), Vec2(10.0, 0.0)])
  {
    var a, b, c, d := Vec2(0.0, 0.0), Vec2(10.0, 10.0), Vec2(0.0, 10.0), Vec2(10.0, 0.0);
    assert Denominator(a, b, c, d) == -200.0;
    assert NumeratorA(a, b, c, d) == -100.0 && NumeratorB(a, b, c, d) == -100.0;
    SingleSegmentPolylines(a, b, c, d);
  }

  /** Collinear but disjoint segments do not count as intersecting. */
  lemma CollinearDisjointDoNotIntersect()
    ensures !DoLinesIntersect([Vec2(0.0, 0.0), Vec2(10.0, 10.0)], [Vec2(20.0, 20.0), Vec2(30.0, 30.0)])
  {
    var a, b, c, d := Vec2(0.0, 0.0), Vec2(10.0, 10.0), Vec2(20.0, 20.0), Vec2(30.0, 30.0);
    assert Denominator(a, b, c, d) == 0.0;
    SingleSegmentPolylines(a, b, c, d);
  }
}
