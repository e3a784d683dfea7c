/**
 * Caligrapher's curveFitting.js section: chord parameterisation by
 * cumulative length (`getLengths`, `normalizeList`, `parameterize`),
 * corner detection (`detectCorners`), splitting a chord at its corners
 * (`splitChord`), and fitting one cubic Bezier per piece (`leastSquaresFit`,
 * `fitStroke`).
 *
 * `getDist` is the parameter `dist`; the angle test of `detectCorners`
 * ("the smaller angle at this point is at most 135 degrees") is the
 * parameter `isCorner`; the two interior control points that
 * `leastSquaresFit` obtains by gaussian elimination are the parameter
 * `interior`.
 */
module CurveFitting {
  import opened Geometry
  import opened Bezier

  // ---------------------------------------------------------------------
  // Parameterisation
  // ---------------------------------------------------------------------

  /** The length of the polyline through the points of `s`, summed from the start. */
  function PathLength(s: seq<Vec2>, dist: (Vec2, Vec2) -> real): real
    decreases |s|
  {
    if |s| <= 1 then 0.0 else PathLength(s[..|s| - 1], dist) + dist(s[|s| - 1], s[|s| - 2])
  }

  /**
   * The list `getLengths` builds: entry `i` is the length of the polyline
   * through the first `i + 1` chord points. An empty chord still yields `[0]`.
   */
  function CumulativeLengths(chord: seq<Vec2>, dist: (Vec2, Vec2) -> real): (r: seq<real>)
    ensures |r| == if |chord| == 0 then 1 else |chord|
    ensures r[0] == 0.0
  {
    if |chord| == 0 then [0.0]
    else seq(|chord|, i requires 0 <= i < |chord| => PathLength(chord[..i + 1], dist))
  }

  /** Consecutive chord points differ (the capture keeps points at least `MIN_MOUSE_DIST` apart). */
  predicate NoRepeats(chord: seq<Vec2>)
  {
    forall i :: 0 <= i < |chord| - 1 ==> chord[i] != chord[i + 1]
  }

  /** Each entry adds the distance from the previous point. */
  lemma CumulativeLengthsStep(chord: seq<Vec2>, dist: (Vec2, Vec2) -> real, k: nat)
    requires 1 <= k < |chord|
    ensures var r := CumulativeLengths(chord, dist);
      r[k] == r[k - 1] + dist(chord[k], chord[k - 1])
  {
    var short := chord[..k + 1];
    assert short[..k] == chord[..k];
    assert PathLength(short, dist) == PathLength(chord[..k], dist) + dist(chord[k], chord[k - 1]);
  }

  /** With a non-negative distance the cumulative lengths are non-negative and never decrease. */
  lemma CumulativeLengthsMonotone(chord: seq<Vec2>, dist: (Vec2, Vec2) -> real)
    requires IsMetric(dist)
    ensures var r := CumulativeLengths(chord, dist);
      forall i, j :: 0 <= i <= j < |r| ==> 0.0 <= r[i] <= r[j]
  {
    var r := CumulativeLengths(chord, dist);
    forall j | 1 <= j < |r|
      ensures r[j - 1] <= r[j]
    {
      CumulativeLengthsStep(chord, dist, j);
      assert dist(chord[j], chord[j - 1]) >= 0.0;
    }
    forall i, j | 0 <= i <= j < |r|
      ensures 0.0 <= r[i] <= r[j]
    {
      MonotoneFromSteps(r, 0, i);
      MonotoneFromSteps(r, i, j);
    }
  }

  /** A list whose consecutive entries never decrease is non-decreasing. */
  lemma {:induction false} MonotoneFromSteps(r: seq<real>, i: nat, j: nat)
    requires forall k :: 1 <= k < |r| ==> r[k - 1] <= r[k]
    requires i <= j < |r|
    ensures r[i] <= r[j]
    decreases j - i
  {
    if i < j {
      MonotoneFromSteps(r, i, j - 1);
    }
  }

  /** With no repeated point the total length of a chord of two or more points is positive. */
  lemma CumulativeLengthsPositive(chord: seq<Vec2>, dist: (Vec2, Vec2) -> real)
    requires IsMetric(dist) && NoRepeats(chord)
    requires |chord| >= 2
    ensures CumulativeLengths(chord, dist)[|chord| - 1] > 0.0
  {
    var n := |chord|;
    var r := CumulativeLengths(chord, dist);
    CumulativeLengthsMonotone(chord, dist);
    CumulativeLengthsStep(chord, dist, n - 1);
    assert chord[n - 2] != chord[n - 1];
    assert dist(chord[n - 1], chord[n - 2]) > 0.0;
    assert 0.0 <= r[n - 2];
  }

  /** `getLengths(chord)`. */
  method GetLengths(chord: seq<Vec2>, dist: (Vec2, Vec2) -> real) returns (lens: seq<real>)
    ensures lens == CumulativeLengths(chord, dist)
  {
    ghost var full := CumulativeLengths(chord, dist);
    lens := [0.0];
    var i := 1;
    while i < |chord|
      invariant 1 <= i && (i <= |chord| || |chord| == 0)
      invariant i <= |full|
      invariant lens == full[..i]
    {
      CumulativeLengthsStep(chord, dist, i);
      lens := lens + [lens[i - 1] + dist(chord[i], chord[i - 1])];
      i := i + 1;
    }
    assert lens == full;
  }

  /**
   * The list after `normalizeList`: the first entry unchanged, every later
   * entry divided by the original last entry.
   */
  function Normalized(s: seq<real>): (r: seq<real>)
    requires |s| >= 2 ==> s[|s| - 1] != 0.0
    ensures |r| == |s|
  {
    seq(|s|, k requires 0 <= k < |s| => if k == 0 then s[0] else s[k] / s[|s| - 1])
  }

  /**
   * `normalizeList(lens)`, in place. The divisor is read afresh on every
   * iteration but only changes at the last one, so every entry is divided
   * by the original last entry.
   */
  method NormalizeList(lens: array<real>)
    requires lens.Length >= 2 ==> lens[lens.Length - 1] != 0.0
    modifies lens
    ensures lens[..] == Normalized(old(lens[..]))
  {
    var n := lens.Length;
    var i := 1;
    while i < n
      invariant 1 <= i && (i <= n || n == 0)
      invariant forall k :: 1 <= k < i && k < n ==> lens[k] == old(lens[k]) / old(lens[n - 1])
      invariant forall k :: (k == 0 || i <= k) && k < n ==> lens[k] == old(lens[k])
    {
      lens[i] := lens[i] / lens[n - 1];
      i := i + 1;
    }
  }

  /**
   * `parameterize(chord)`: cumulative lengths written into a fresh list and
   * then divided in place by the total. Its second loop is the loop of
   * `normalizeList`, so the model calls `NormalizeList`; the result is the
   * list the commented-out `normalizeList(getLengths(chord))` would produce.
   */
  method Parameterize(chord: seq<Vec2>, dist: (Vec2, Vec2) -> real) returns (ts: seq<real>)
    requires IsMetric(dist) && NoRepeats(chord)
    ensures |chord| >= 2 ==> CumulativeLengths(chord, dist)[|chord| - 1] != 0.0
    ensures ts == Normalized(CumulativeLengths(chord, dist))
  {
    var n := |chord|;
    ghost var full := CumulativeLengths(chord, dist);
    var lens := new real[if n == 0 then 1 else n];
    lens[0] := 0.0;
    var i := 1;
    while i < n
      invariant 1 <= i && (i <= n || n == 0)
      invariant forall k :: 0 <= k < i && k < lens.Length ==> lens[k] == full[k]
    {
      CumulativeLengthsStep(chord, dist, i);
      lens[i] := lens[i - 1] + dist(chord[i], chord[i - 1]);
      i := i + 1;
    }
    assert lens[..] == full;
    if n >= 2 {
      CumulativeLengthsPositive(chord, dist);
    }
    NormalizeList(lens);
    ts := lens[..];
  }

  /**
   * The parameter values of a chord without repeated points: one per point
   * (one for an empty chord), starting at 0, non-decreasing, within [0, 1],
   * and ending at 1 when the chord has two or more points.
   */
  lemma ParameterizationRange(chord: seq<Vec2>, dist: (Vec2, Vec2) -> real)
    requires IsMetric(dist) && NoRepeats(chord)
    ensures |chord| >= 2 ==> CumulativeLengths(chord, dist)[|chord| - 1] != 0.0
    ensures var ts := Normalized(CumulativeLengths(chord, dist));
      && |ts| == (if |chord| == 0 then 1 else |chord|)
      && ts[0] == 0.0
      && (forall i, j :: 0 <= i <= j < |ts| ==> ts[i] <= ts[j])
      && (forall i :: 0 <= i < |ts| ==> 0.0 <= ts[i] <= 1.0)
      && (|chord| >= 2 ==> ts[|ts| - 1] == 1.0)
  {
    var lens := CumulativeLengths(chord, dist);
    CumulativeLengthsMonotone(chord, dist);
    if |chord| >= 2 {
      CumulativeLengthsPositive(chord, dist);
      forall i | 0 <= i < |lens|
        ensures 0.0 <= Normalized(lens)[i] <= 1.0
      {
        NormalizedEntryInUnit(lens, i);
      }
      forall i, j | 0 <= i <= j < |lens|
        ensures Normalized(lens)[i] <= Normalized(lens)[j]
      {
        NormalizedPairOrdered(lens, i, j);
      }      DivSelf(lens[|lens| - 1]);
    }
  }

  lemma NormalizedEntryInUnit(lens: seq<real>, i: nat)
    requires |lens| >= 2 && lens[0] == 0.0 && lens[|lens| - 1] > 0.0
    requires forall a, b :: 0 <= a <= b < |lens| ==> 0.0 <= lens[a] <= lens[b]
    requires i < |lens|
    ensures 0.0 <= Normalized(lens)[i] <= 1.0
  {
    var total := lens[|lens| - 1];
    if i > 0 {
      assert 0.0 <= lens[i] <= total;
      DivMonotone(0.0, lens[i], total);
      DivMonotone(lens[i], total, total);
      DivSelf(total);
    }
  }

  lemma NormalizedPairOrdered(lens: seq<real>, i: nat, j: nat)
    requires |lens| >= 2 && lens[0] == 0.0 && lens[|lens| - 1] > 0.0
    requires forall a, b :: 0 <= a <= b < |lens| ==> 0.0 <= lens[a] <= lens[b]
    requires i <= j < |lens|
    ensures Normalized(lens)[i] <= Normalized(lens)[j]
  {
    var total := lens[|lens| - 1];
    assert 0.0 <= lens[i] <= lens[j];
    if i > 0 {
      DivMonotone(lens[i], lens[j], total);
    } else if j > 0 {
      DivMonotone(0.0, lens[j], total);
    }
  }

  lemma DivSelf(d: real)
    requires d != 0.0
    ensures d / d == 1.0 && 0.0 / d == 0.0
  {
  }

  lemma DivMonotone(a: real, b: real, d: real)
    requires a <= b && d > 0.0
    ensures a / d <= b / d
  {
  }

  // ---------------------------------------------------------------------
  // Corners and splitting
  // ---------------------------------------------------------------------

  /** Strictly ascending indices. */
  predicate StrictlyAscending(indices: seq<nat>)
  {
    forall a, b :: 0 <= a < b < |indices| ==> indices[a] < indices[b]
  }

  /** Indices of interior chord points: in [1, n-2], strictly ascending. */
  predicate InteriorIndices(chord: seq<Vec2>, indices: seq<nat>)
  {
    && StrictlyAscending(indices)
    && forall k :: 0 <= k < |indices| ==> 1 <= indices[k] && indices[k] + 1 < |chord|
  }

  /** The interior indices below n whose point passes the angle test, in increasing order. */
  function CornersBelow(chord: seq<Vec2>, isCorner: (Vec2, Vec2, Vec2) -> bool, n: nat): seq<nat>
    decreases n
  {
    if n <= 1 then []
    else CornersBelow(chord, isCorner, n - 1) +
         (if n < |chord| && isCorner(chord[n - 2], chord[n - 1], chord[n]) then [n - 1] else [])
  }

  /** The corners of a chord: every interior index whose point passes the angle test. */
  function CornerIndices(chord: seq<Vec2>, isCorner: (Vec2, Vec2, Vec2) -> bool): seq<nat>
  {
    CornersBelow(chord, isCorner, |chord|)
  }

  /** The indices below n are interior, ascending, below n, and exactly those that pass the test. */
  lemma {:induction false} CornersBelowMeaning(chord: seq<Vec2>, isCorner: (Vec2, Vec2, Vec2) -> bool, n: nat)
    ensures var r := CornersBelow(chord, isCorner, n);
            && InteriorIndices(chord, r)
            && (forall k :: 0 <= k < |r| ==> r[k] < n)
            && (forall i: nat :: i in r <==> 1 <= i < n && i + 1 < |chord| && isCorner(chord[i - 1], chord[i], chord[i + 1]))
    decreases n
  {
    if n > 1 {
      CornersBelowMeaning(chord, isCorner, n - 1);
    }
  }

  /** The corners of a chord are ascending interior indices, exactly those that pass the angle test. */
  lemma CornerIndicesMeaning(chord: seq<Vec2>, isCorner: (Vec2, Vec2, Vec2) -> bool)
    ensures InteriorIndices(chord, CornerIndices(chord, isCorner))
    ensures forall i: nat :: i in CornerIndices(chord, isCorner) <==>
              1 <= i && i + 1 < |chord| && isCorner(chord[i - 1], chord[i], chord[i + 1])
  {
    CornersBelowMeaning(chord, isCorner, |chord|);
  }

  /**
   * `detectCorners(chord)`: the interior indices whose point passes the
   * angle test, in increasing order.
   */
  method DetectCorners(chord: seq<Vec2>, isCorner: (Vec2, Vec2, Vec2) -> bool) returns (indices: seq<nat>)
    ensures indices == CornerIndices(chord, isCorner)
    ensures InteriorIndices(chord, indices)
    ensures forall i: nat :: i in indices <==> 1 <= i && i + 1 < |chord| && isCorner(chord[i - 1], chord[i], chord[i + 1])
  {
    indices := [];
    var i := 1;
    while i + 1 < |chord|
      invariant 1 <= i && (i == 1 || i < |chord|)
      invariant indices == CornersBelow(chord, isCorner, i)
    {
      if isCorner(chord[i - 1], chord[i], chord[i + 1]) {
        indices := indices + [i];
      }
      i := i + 1;
    }
    assert CornersBelow(chord, isCorner, |chord|) == indices;
    CornerIndicesMeaning(chord, isCorner);
  }

  function Min(a: int, b: int): int { if a <= b then a else b }

  /** JavaScript's `s.slice(start, end)` for non-negative arguments. */
  function Slice<T>(s: seq<T>, start: nat, end: nat): seq<T>
  {
    var a := Min(start, |s|);
    var b := Min(end, |s|);
    if b <= a then [] else s[a..b]
  }

  /** Where piece `k` of `splitChord` starts: 0, then the previous split index. */
  function PieceStart(indices: seq<nat>, k: nat): nat
    requires k <= |indices|
  {
    if k == 0 then 0 else indices[k - 1]
  }

  /** Drops the first element, if any. */
  function Tail<T>(s: seq<T>): seq<T>
  {
    if s == [] then [] else s[1..]
  }

  /** The pieces put back together, dropping the point each piece shares with the previous one. */
  function Rejoin(pieces: seq<seq<Vec2>>): seq<Vec2>
  {
    if pieces == [] then []
    else if |pieces| == 1 then pieces[0]
    else Rejoin(pieces[..|pieces| - 1]) + Tail(pieces[|pieces| - 1])
  }

  /** Piece `k` of `splitChord`: up to split index `k` inclusive; the last piece runs to the end. */
  function Piece(chord: seq<Vec2>, indices: seq<nat>, k: nat): seq<Vec2>
    requires k <= |indices|
  {
    if k < |indices| then Slice(chord, PieceStart(indices, k), indices[k] + 1)
    else Slice(chord, PieceStart(indices, k), |chord|)
  }

  /** The first `k` pieces, in order. */
  function PiecesUpTo(chord: seq<Vec2>, indices: seq<nat>, k: nat): (r: seq<seq<Vec2>>)
    requires k <= |indices| + 1
    ensures |r| == k
  {
    if k == 0 then [] else PiecesUpTo(chord, indices, k - 1) + [Piece(chord, indices, k - 1)]
  }

  /** The pieces `splitChord` returns. */
  function SplitPieces(chord: seq<Vec2>, indices: seq<nat>): seq<seq<Vec2>>
  {
    PiecesUpTo(chord, indices, |indices| + 1)
  }

  lemma {:induction false} PiecesUpToAt(chord: seq<Vec2>, indices: seq<nat>, k: nat, m: nat)
    requires m < k <= |indices| + 1
    ensures PiecesUpTo(chord, indices, k)[m] == Piece(chord, indices, m)
  {
    if m < k - 1 {
      PiecesUpToAt(chord, indices, k - 1, m);
    }
  }

  /**
   * `splitChord(chord, indices)`: one piece per index, running from the
   * previous index (or 0) to this one inclusive, then the rest from the
   * last index.
   */
  method SplitChord(chord: seq<Vec2>, indices: seq<nat>) returns (pieces: seq<seq<Vec2>>)
    ensures pieces == SplitPieces(chord, indices)
  {
    pieces := [];
    var ind: nat := 0;
    var k := 0;
    while k < |indices|
      invariant k <= |indices|
      invariant ind == PieceStart(indices, k)
      invariant pieces == PiecesUpTo(chord, indices, k)
    {
      pieces := pieces + [Slice(chord, ind, indices[k] + 1)];
      ind := indices[k];
      k := k + 1;
    }
    pieces := pieces + [Slice(chord, ind, |chord|)];
  }

  /** Split indices that `splitChord` handles without clamping: ascending and inside the chord. */
  predicate ValidSplit(chord: seq<Vec2>, indices: seq<nat>)
  {
    StrictlyAscending(indices) && forall k :: 0 <= k < |indices| ==> indices[k] < |chord|
  }

  lemma RejoinSnoc(pieces: seq<seq<Vec2>>, p: seq<Vec2>)
    requires |pieces| >= 1
    ensures Rejoin(pieces + [p]) == Rejoin(pieces) + Tail(p)
  {
    assert (pieces + [p])[..|pieces|] == pieces;
  }

  lemma JoinAt(chord: seq<Vec2>, a: nat, b: nat)
    requires a < b <= |chord|
    ensures chord[..a + 1] + Tail(chord[a..b]) == chord[..b]
  {
    assert Tail(chord[a..b]) == chord[a + 1..b];
  }

  /** Appending the piece `chord[a..b]` to pieces that rejoin to `chord[..a + 1]` rejoins to `chord[..b]`. */
  lemma RejoinExtend(prev: seq<seq<Vec2>>, chord: seq<Vec2>, a: nat, b: nat)
    requires |prev| >= 1 && a < b <= |chord|
    requires Rejoin(prev) == chord[..a + 1]
    ensures Rejoin(prev + [chord[a..b]]) == chord[..b]
  {
    RejoinSnoc(prev, chord[a..b]);
    JoinAt(chord, a, b);
  }

  /** Inside the bounds, `slice` is the plain subsequence. */
  lemma SliceInside<T>(s: seq<T>, a: nat, b: nat)
    requires a <= b <= |s|
    ensures Slice(s, a, b) == s[a..b]
  {
  }

  /** For a valid split, each piece before the last is the plain subsequence between its split points. */
  lemma PieceInside(chord: seq<Vec2>, indices: seq<nat>, k: nat)
    requires ValidSplit(chord, indices)
    requires k < |indices|
    ensures PieceStart(indices, k) <= indices[k]
    ensures Piece(chord, indices, k) == chord[PieceStart(indices, k)..indices[k] + 1]
  {
    if k > 0 {
      assert indices[k - 1] < indices[k];
    }
    SliceInside(chord, PieceStart(indices, k), indices[k] + 1);
  }

  lemma RejoinFirstPiece(chord: seq<Vec2>, indices: seq<nat>)
    requires ValidSplit(chord, indices) && |indices| >= 1
    ensures Rejoin(PiecesUpTo(chord, indices, 1)) == chord[..indices[0] + 1]
  {
    PieceInside(chord, indices, 0);
    assert PiecesUpTo(chord, indices, 1) == [Piece(chord, indices, 0)];
    assert chord[0..indices[0] + 1] == chord[..indices[0] + 1];
  }

  lemma RejoinPrefixStep(chord: seq<Vec2>, indices: seq<nat>, k: nat)
    requires ValidSplit(chord, indices)
    requires 2 <= k <= |indices|
    requires Rejoin(PiecesUpTo(chord, indices, k - 1)) == chord[..indices[k - 2] + 1]
    ensures Rejoin(PiecesUpTo(chord, indices, k)) == chord[..indices[k - 1] + 1]
  {
    PieceInside(chord, indices, k - 1);
    var prev := PiecesUpTo(chord, indices, k - 1);
    var a, b := indices[k - 2], indices[k - 1] + 1;
    assert Piece(chord, indices, k - 1) == chord[a..b];
    assert PiecesUpTo(chord, indices, k) == prev + [chord[a..b]];
    RejoinExtend(prev, chord, a, b);
  }

  /** The first `k` pieces rejoin to the chord up to split point `k - 1`. */
  lemma {:induction false} RejoinPrefix(chord: seq<Vec2>, indices: seq<nat>, k: nat)
    requires ValidSplit(chord, indices)
    requires 1 <= k <= |indices|
    ensures Rejoin(PiecesUpTo(chord, indices, k)) == chord[..indices[k - 1] + 1]
  {
    if k == 1 {
      RejoinFirstPiece(chord, indices);
    } else {
      RejoinPrefix(chord, indices, k - 1);
      RejoinPrefixStep(chord, indices, k);
    }
  }

  /**
   * For ascending split indices within the chord, dropping the point each
   * piece shares with the previous one and concatenating gives back the
   * chord.
   */
  lemma SplitRejoins(chord: seq<Vec2>, indices: seq<nat>)
    requires ValidSplit(chord, indices)
    ensures |SplitPieces(chord, indices)| == |indices| + 1
    ensures Rejoin(SplitPieces(chord, indices)) == chord
  {
    var n := |indices|;
    var ind := PieceStart(indices, n);
    SliceInside(chord, ind, |chord|);
    if n > 0 {
      RejoinPrefix(chord, indices, n);
      RejoinSnoc(PiecesUpTo(chord, indices, n), Piece(chord, indices, n));
      JoinAt(chord, ind, |chord|);
    } else {
      assert SplitPieces(chord, indices) == [Piece(chord, indices, 0)];
      assert chord[0..] == chord;
    }
  }

  /**
   * For interior split indices (as `detectCorners` produces), piece `k`
   * before the last has at least two points and runs from the previous
   * split point (or the first point) to split point `k`; the last piece
   * runs from the last split point (or the first point) to the last chord
   * point. So piece `k` ends where piece `k + 1` starts.
   */
  lemma SplitPiecesShareEnds(chord: seq<Vec2>, indices: seq<nat>, k: nat)
    requires InteriorIndices(chord, indices) && |chord| >= 1
    requires k <= |indices|
    ensures var p := SplitPieces(chord, indices)[k];
      && |p| >= 1 && p[0] == chord[PieceStart(indices, k)]
      && (k < |indices| ==> |p| >= 2 && p[|p| - 1] == chord[indices[k]])
      && (k == |indices| ==> p[|p| - 1] == chord[|chord| - 1])
  {
    PiecesUpToAt(chord, indices, |indices| + 1, k);
    assert k > 0 ==> indices[k - 1] < |chord| - 1;
    if k < |indices| {
      assert k > 0 ==> indices[k - 1] < indices[k];
    }
  }

  /** Every piece of a chord without repeated points has none either. */
  lemma SplitPiecesNoRepeats(chord: seq<Vec2>, indices: seq<nat>, k: nat)
    requires NoRepeats(chord)
    requires k <= |indices|
    ensures NoRepeats(SplitPieces(chord, indices)[k])
  {
    PiecesUpToAt(chord, indices, |indices| + 1, k);
    if k < |indices| {
      NoRepeatsSlice(chord, PieceStart(indices, k), indices[k] + 1);
    } else {
      NoRepeatsSlice(chord, PieceStart(indices, k), |chord|);
    }
  }

  /** A slice of a chord without repeated points has none either. */
  lemma NoRepeatsSlice(chord: seq<Vec2>, a: nat, b: nat)
    requires NoRepeats(chord)
    ensures NoRepeats(Slice(chord, a, b))
  {
    var s := Slice(chord, a, b);
    if s != [] {
      forall i | 0 <= i < |s| - 1
        ensures s[i] != s[i + 1]
      {
        assert s[i] == chord[a + i] && s[i + 1] == chord[a + i + 1];
      }
    }
  }

  // ---------------------------------------------------------------------
  // Fitting
  // ---------------------------------------------------------------------

  /**
   * `leastSquaresFit(chord, ts)`: a cubic from the first to the last chord
   * point. With fewer than four points the inner control points sit a
   * quarter and three quarters of the way along the straight line between
   * the ends; otherwise they are the least-squares solution `interior`.
   * The source reads `chord[0]`, so the chord must not be empty.
   */
  function LeastSquaresFit(chord: seq<Vec2>, ts: seq<real>,
                           interior: (seq<Vec2>, seq<real>) -> (Vec2, Vec2)): (c: Curve)
    requires |chord| >= 1
    ensures |c.controlPoints| == 4
    ensures c.GetStart() == chord[0] && c.GetEnd() == chord[|chord| - 1]
    ensures |chord| < 4 ==>
      c.controlPoints[1] == Lrp(chord[0], chord[|chord| - 1], 0.25)
      && c.controlPoints[2] == Lrp(chord[0], chord[|chord| - 1], 0.75)
  {
    var c1, c4 := chord[0], chord[|chord| - 1];
    if |chord| < 4 then
      MidpointIsLrp(c1, c4, 0.25);
      MidpointIsLrp(c1, c4, 0.75);
      Curve([c1, Midpoint(c1, c4, 0.25), Midpoint(c1, c4, 0.75), c4])
    else
      var inner := interior(chord, ts);
      Curve([c1, inner.0, inner.1, c4])
  }

  /** A cubic from the first to the last point of its piece. */
  predicate FitsPiece(c: Curve, piece: seq<Vec2>)
  {
    && |c.controlPoints| == 4 && |piece| >= 1
    && c.controlPoints[0] == piece[0] && c.controlPoints[3] == piece[|piece| - 1]
  }

  /**
   * The body of `fitStroke`'s loop: `leastSquaresFit(piece, parameterize(piece))`.
   * The result is a cubic from the first to the last point of the piece;
   * a piece of fewer than four points gets the straight-line cubic.
   */
  method FitPiece(piece: seq<Vec2>, dist: (Vec2, Vec2) -> real,
                  interior: (seq<Vec2>, seq<real>) -> (Vec2, Vec2)) returns (c: Curve)
    requires |piece| >= 1
    requires IsMetric(dist) && NoRepeats(piece)
    ensures FitsPiece(c, piece)
    ensures |piece| < 4 ==>
      c.controlPoints[1] == Lrp(piece[0], piece[|piece| - 1], 0.25)
      && c.controlPoints[2] == Lrp(piece[0], piece[|piece| - 1], 0.75)
  {
    var ts := Parameterize(piece, dist);
    c := LeastSquaresFit(piece, ts, interior);
  }

  /** Curves fitted to the pieces of a chord split at interior indices meet at those indices, in order. */
  lemma CornersAreJunctions(chord: seq<Vec2>, corners: seq<nat>, curves: seq<Curve>)
    requires |chord| >= 1 && InteriorIndices(chord, corners)
    requires |curves| == |corners| + 1
    requires forall m :: 0 <= m < |curves| ==> FitsPiece(curves[m], SplitPieces(chord, corners)[m])
    ensures forall k :: 0 <= k < |corners| ==> |curves[k].controlPoints| == 4 && curves[k].controlPoints[3] == chord[corners[k]]
  {
    forall k | 0 <= k < |corners|
      ensures |curves[k].controlPoints| == 4 && curves[k].controlPoints[3] == chord[corners[k]]
    {
      SplitPiecesShareEnds(chord, corners, k);
    }
  }

  /** One cubic fitted to each piece of a chord split at its corners, as `fitStroke` produces. */
  predicate FitsCorners(curves: seq<Curve>, chord: seq<Vec2>, isCorner: (Vec2, Vec2, Vec2) -> bool)
  {
    var pieces := SplitPieces(chord, CornerIndices(chord, isCorner));
    |curves| == |pieces| && forall m :: 0 <= m < |curves| ==> FitsPiece(curves[m], pieces[m])
  }

  /**
   * A stroke fitted piece by piece runs from the first to the last chord
   * point, one cubic per corner plus one, and its junctions are exactly
   * the corners, in order.
   */
  lemma FittedStrokeShape(chord: seq<Vec2>, isCorner: (Vec2, Vec2, Vec2) -> bool, curves: seq<Curve>)
    requires |chord| >= 1 && FitsCorners(curves, chord, isCorner)
    ensures var corners := CornerIndices(chord, isCorner);
            && InteriorIndices(chord, corners) && |curves| == |corners| + 1
            && (forall m :: 0 <= m < |curves| ==> |curves[m].controlPoints| == 4)
            && curves[0].controlPoints[0] == chord[0]
            && curves[|curves| - 1].controlPoints[3] == chord[|chord| - 1]
            && (forall k :: 0 <= k < |curves| - 1 ==> curves[k].controlPoints[3] == curves[k + 1].controlPoints[0])
            && (forall k :: 0 <= k < |corners| ==> curves[k].controlPoints[3] == chord[corners[k]])
  {
    var corners := CornerIndices(chord, isCorner);
    CornerIndicesMeaning(chord, isCorner);
    JunctionsAreCorners(chord, corners, isCorner, curves);
    CornersAreJunctions(chord, corners, curves);
  }

  /**
   * Curves fitted end to end to the pieces of a chord split at its corners
   * form a connected path whose junctions are corner points.
   */
  lemma JunctionsAreCorners(chord: seq<Vec2>, corners: seq<nat>, isCorner: (Vec2, Vec2, Vec2) -> bool,
                            curves: seq<Curve>)
    requires |chord| >= 1 && InteriorIndices(chord, corners)
    requires forall i: nat :: i in corners <==> 1 <= i && i + 1 < |chord| && isCorner(chord[i - 1], chord[i], chord[i + 1])
    requires |curves| == |corners| + 1
    requires forall m :: 0 <= m < |curves| ==> |curves[m].controlPoints| == 4
    requires forall m :: 0 <= m < |curves| ==> FitsPiece(curves[m], SplitPieces(chord, corners)[m])
    ensures curves[0].controlPoints[0] == chord[0]
    ensures curves[|curves| - 1].controlPoints[3] == chord[|chord| - 1]
    ensures forall k :: 0 <= k < |curves| - 1 ==> curves[k].controlPoints[3] == curves[k + 1].controlPoints[0]
    ensures forall k :: 0 <= k < |curves| - 1 ==>
      exists i :: 1 <= i < |chord| - 1 && curves[k].controlPoints[3] == chord[i] && isCorner(chord[i - 1], chord[i], chord[i + 1])
  {
    SplitPiecesShareEnds(chord, corners, 0);
    SplitPiecesShareEnds(chord, corners, |corners|);
    forall m | 0 <= m < |curves| - 1
      ensures curves[m].controlPoints[3] == curves[m + 1].controlPoints[0]
      ensures exists i :: 1 <= i < |chord| - 1 && curves[m].controlPoints[3] == chord[i] && isCorner(chord[i - 1], chord[i], chord[i + 1])
    {
      SplitPiecesShareEnds(chord, corners, m);
      SplitPiecesShareEnds(chord, corners, m + 1);
      var i := corners[m];
      assert i in corners;
      assert 1 <= i && i + 1 < |chord| && isCorner(chord[i - 1], chord[i], chord[i + 1]);
      assert curves[m].controlPoints[3] == chord[i];
    }
  }

  /**
   * `fitStroke(chord)`: split at the detected corners and fit one cubic per
   * piece. The curves form a connected path from the first to the last
   * chord point, and its junctions are exactly the corners, in order.
   */
  method FitStroke(chord: seq<Vec2>, dist: (Vec2, Vec2) -> real, isCorner: (Vec2, Vec2, Vec2) -> bool,
                   interior: (seq<Vec2>, seq<real>) -> (Vec2, Vec2)) returns (curves: seq<Curve>)
    requires |chord| >= 1
    requires IsMetric(dist) && NoRepeats(chord)
    ensures FitsCorners(curves, chord, isCorner)
    ensures |curves| >= 1
    ensures forall k :: 0 <= k < |curves| ==> |curves[k].controlPoints| == 4
    ensures curves[0].controlPoints[0] == chord[0]
    ensures curves[|curves| - 1].controlPoints[3] == chord[|chord| - 1]
    ensures forall k :: 0 <= k < |curves| - 1 ==> curves[k].controlPoints[3] == curves[k + 1].controlPoints[0]
    ensures forall k :: 0 <= k < |curves| - 1 ==>
      exists i :: 1 <= i < |chord| - 1 && curves[k].controlPoints[3] == chord[i] && isCorner(chord[i - 1], chord[i], chord[i + 1])
  {
    var corners := DetectCorners(chord, isCorner);
    var pieces := SplitChord(chord, corners);
    forall m | 0 <= m < |pieces|
      ensures |pieces[m]| >= 1 && NoRepeats(pieces[m])
    {
      SplitPiecesShareEnds(chord, corners, m);
      SplitPiecesNoRepeats(chord, corners, m);
    }
    curves := [];
    var k := 0;
    while k < |pieces|
      invariant k <= |pieces| && |curves| == k
      invariant forall m :: 0 <= m < k ==> FitsPiece(curves[m], pieces[m])
    {
      var curve := FitPiece(pieces[k], dist, interior);
      curves := curves + [curve];
      k := k + 1;
    }
    JunctionsAreCorners(chord, corners, isCorner, curves);
  }
}
