/**
 * `getSvgPathFromStroke`: the closed SVG path through the midpoints of an
 * outline polygon, built by a left fold over the outline's points.
 *
 * The model produces the token list that the source joins with spaces;
 * the textual number formatting (the regular expression that truncates
 * every number to two decimals) is not modelled.
 */
module SvgPath {
  import opened Geometry

  /** One token of the path: a command letter or a point. */
  datatype Token = Cmd(letter: char) | Pt(p: Vec2)

  /** The tokens that the fold's step pushes for the point at index `i`. */
  function StepTokens(arr: seq<Vec2>, i: nat): seq<Token>
    requires i < |arr|
  {
    if i == |arr| - 1 then [Pt(arr[i]), Pt(Med(arr[i], arr[0])), Cmd('L'), Pt(arr[0]), Cmd('Z')]
    else [Pt(arr[i]), Pt(Med(arr[i], arr[i + 1]))]
  }

  /** The fold from index `i` on, with the accumulator `acc`. */
  function FoldFrom(arr: seq<Vec2>, i: nat, acc: seq<Token>): seq<Token>
    requires i <= |arr|
    decreases |arr| - i
  {
    if i == |arr| then acc else FoldFrom(arr, i + 1, acc + StepTokens(arr, i))
  }

  /** `getSvgPathFromStroke(points)`, before the join. */
  function SvgPathFromStroke(points: seq<Vec2>): (r: seq<Token>)
    ensures points == [] <==> r == []
  {
    if points == [] then []
    else
      var r := FoldFrom(points, 0, [Cmd('M'), Pt(points[0]), Cmd('Q')]);
      FoldKeepsPrefix(points, 0, [Cmd('M'), Pt(points[0]), Cmd('Q')]);
      r
  }

  /** The fold only appends: its result starts with the accumulator. */
  lemma {:induction false} FoldKeepsPrefix(arr: seq<Vec2>, i: nat, acc: seq<Token>)
    requires i <= |arr|
    ensures |FoldFrom(arr, i, acc)| >= |acc|
    ensures FoldFrom(arr, i, acc)[..|acc|] == acc
    decreases |arr| - i
  {
    if i < |arr| {
      var acc' := acc + StepTokens(arr, i);
      FoldKeepsPrefix(arr, i + 1, acc');
      assert acc'[..|acc|] == acc;
      assert FoldFrom(arr, i, acc)[..|acc'|][..|acc|] == FoldFrom(arr, i, acc)[..|acc|];
    }
  }

  /**
   * Every intermediate accumulator has the expected contents: the prefix
   * "M p0 Q" followed by the point and midpoint of every earlier index.
   */
  ghost predicate PairsUpTo(arr: seq<Vec2>, i: nat, acc: seq<Token>)
    requires i < |arr|
  {
    && |acc| == 3 + 2 * i
    && acc[0] == Cmd('M') && acc[1] == Pt(arr[0]) && acc[2] == Cmd('Q')
    && forall k :: 0 <= k < i ==> acc[3 + 2 * k] == Pt(arr[k]) && acc[4 + 2 * k] == Pt(Med(arr[k], arr[k + 1]))
  }

  lemma {:induction false} FoldShape(arr: seq<Vec2>, i: nat, acc: seq<Token>)
    requires i < |arr|
    requires PairsUpTo(arr, i, acc)
    ensures var r := FoldFrom(arr, i, acc);
      && |r| == 2 * |arr| + 6
      && PairsUpTo(arr, |arr| - 1, r[..2 * |arr| + 1])
      && r[2 * |arr| + 1..] == [Pt(arr[|arr| - 1]), Pt(Med(arr[|arr| - 1], arr[0])), Cmd('L'), Pt(arr[0]), Cmd('Z')]
    decreases |arr| - i
  {
    var n := |arr|;
    var acc' := acc + StepTokens(arr, i);
    if i == n - 1 {
      assert FoldFrom(arr, i, acc) == FoldFrom(arr, n, acc') == acc';
      assert acc'[..2 * n + 1] == acc;
    } else {
      assert PairsUpTo(arr, i + 1, acc');
      FoldShape(arr, i + 1, acc');
    }
  }

  /**
   * The token layout of a non-empty path: `M p0 Q`, then `p_i med(p_i, p_{i+1})`
   * for every index below the last, then `p_last med(p_last, p0) L p0 Z`;
   * `2n + 6` tokens for `n` points.
   */
  lemma SvgPathLayout(points: seq<Vec2>)
    requires points != []
    ensures var r := SvgPathFromStroke(points); var n := |points|;
      && |r| == 2 * n + 6
      && r[0] == Cmd('M') && r[1] == Pt(points[0]) && r[2] == Cmd('Q')
      && (forall k :: 0 <= k < n - 1 ==> r[3 + 2 * k] == Pt(points[k]) && r[4 + 2 * k] == Pt(Med(points[k], points[k + 1])))
      && r[2 * n + 1] == Pt(points[n - 1]) && r[2 * n + 2] == Pt(Med(points[n - 1], points[0]))
      && r[2 * n + 3] == Cmd('L') && r[2 * n + 4] == Pt(points[0]) && r[2 * n + 5] == Cmd('Z')
  {
    var n := |points|;
    var init := [Cmd('M'), Pt(points[0]), Cmd('Q')];
    assert PairsUpTo(points, 0, init);
    FoldShape(points, 0, init);
    var r := FoldFrom(points, 0, init);
    var pre, tail := r[..2 * n + 1], r[2 * n + 1..];
    assert r[0] == pre[0] && r[1] == pre[1] && r[2] == pre[2];
    assert r[2 * n + 1] == tail[0] && r[2 * n + 2] == tail[1] && r[2 * n + 3] == tail[2];
    assert r[2 * n + 4] == tail[3] && r[2 * n + 5] == tail[4];
    forall k | 0 <= k < n - 1
      ensures r[3 + 2 * k] == Pt(points[k]) && r[4 + 2 * k] == Pt(Med(points[k], points[k + 1]))
    {
      assert r[3 + 2 * k] == pre[3 + 2 * k];
      assert r[4 + 2 * k] == pre[4 + 2 * k];
    }
  }

  /** A one-point outline is the degenerate closed path through that point. */
  lemma SinglePointPath(p: Vec2)
    ensures SvgPathFromStroke([p]) == [Cmd('M'), Pt(p), Cmd('Q'), Pt(p), Pt(p), Cmd('L'), Pt(p), Cmd('Z')]
  {
    assert Med(p, p) == p;
    var init := [Cmd('M'), Pt(p), Cmd('Q')];
    assert FoldFrom([p], 0, init) == FoldFrom([p], 1, init + StepTokens([p], 0));
  }
}
