/**
 * Caligrapher's first-match rule engine (`checkRules2`, `Rule`,
 * `checkCond`, `OPERATIONS`, `inRange`, `inRanges`) and the rule tables that
 * pick the corner shapes and segment profiles of a calligraphy stroke
 * (`RULE_CC_START`, `RULE_CC_END`, `RULE_CC_MID`, `RULE_BS`).
 *
 * Attributes are the numeric entries of the attribute object built by
 * `getSegmentAttributes` or `getCornerAttributes`; a name missing from the
 * object reads as `undefined`, and every comparison with `undefined` is
 * false.
 */
module StrokeRules {
  import opened Wrappers

  type Attrs = map<string, real>

  /** A half-open range `[lo, hi)`. */
  datatype Range = Range(lo: real, hi: real)

  /** The condition operators of `OPERATIONS`. */
  datatype Op =
    | TrueOp
    | InRange(ranges: seq<Range>)
    | GreaterThan(bound: real)
    | LessThan(bound: real)
    | Or(conds: seq<Cond>)
    | And(conds: seq<Cond>)

  /** `[attributeName, operator, ...arguments]`. */
  datatype Cond = Cond(key: string, op: Op)

  /** `new Rule(result, condition)`. */
  datatype Rule<R> = Rule(result: R, condition: Cond)

  /** `attrs[name]`. */
  function Lookup(attrs: Attrs, key: string): Option<real>
  {
    if key in attrs then Some(attrs[key]) else None
  }

  /** `inRange(num, range)`. */
  predicate InRangeOf(num: real, range: Range)
  {
    range.lo <= num < range.hi
  }

  /** The loop of `inRanges` from range `i` on, with its early return. */
  predicate InRangesFrom(num: real, ranges: seq<Range>, i: nat)
    decreases |ranges| - i
  {
    if i >= |ranges| then false
    else InRangeOf(num, ranges[i]) || InRangesFrom(num, ranges, i + 1)
  }

  /** `inRanges(num, ranges)`. */
  predicate InRanges(num: real, ranges: seq<Range>)
  {
    InRangesFrom(num, ranges, 0)
  }

  /**
   * `OPERATIONS[op](attrs, val, args)`. `IN_RANGE` is the same loop as
   * `inRanges`; `GREATER_THAN` and `LESS_THAN` compare with the one-element
   * argument list, which JavaScript coerces to its number.
   */
  predicate ApplyOp(attrs: Attrs, val: Option<real>, op: Op)
    decreases op, 0
  {
    match op
    case TrueOp => true
    case InRange(ranges) => val.Some? && InRanges(val.value, ranges)
    case GreaterThan(bound) => val.Some? && val.value >= bound
    case LessThan(bound) => val.Some? && val.value < bound
    case Or(conds) => AnyFrom(attrs, conds, 0)
    case And(conds) => AllFrom(attrs, conds, 0)
  }

  /** `checkCond(attrs, cond)`. */
  predicate CheckCond(attrs: Attrs, cond: Cond)
    decreases cond, 1
  {
    ApplyOp(attrs, Lookup(attrs, cond.key), cond.op)
  }

  /** The `OR` loop from sub-condition `i` on. */
  predicate AnyFrom(attrs: Attrs, conds: seq<Cond>, i: nat)
    decreases conds, |conds| - i
  {
    if i >= |conds| then false
    else CheckCond(attrs, conds[i]) || AnyFrom(attrs, conds, i + 1)
  }

  /** The `AND` loop from sub-condition `i` on. */
  predicate AllFrom(attrs: Attrs, conds: seq<Cond>, i: nat)
    decreases conds, |conds| - i
  {
    if i >= |conds| then true
    else CheckCond(attrs, conds[i]) && AllFrom(attrs, conds, i + 1)
  }

  /** The loop of `checkRules2` from rule `i` on: the first rule that holds wins. */
  function FirstMatchFrom<R>(attrs: Attrs, rules: seq<Rule<R>>, i: nat): Option<R>
    decreases |rules| - i
  {
    if i >= |rules| then None
    else if CheckCond(attrs, rules[i].condition) then Some(rules[i].result)
    else FirstMatchFrom(attrs, rules, i + 1)
  }

  /** `checkRules2(attrs, ruleset)`; `null` is `None`. */
  function CheckRules2<R>(attrs: Attrs, rules: seq<Rule<R>>): Option<R>
  {
    FirstMatchFrom(attrs, rules, 0)
  }

  // ---------------------------------------------------------------------
  // The engine's semantics
  // ---------------------------------------------------------------------

  lemma {:induction false} InRangesFromIff(num: real, ranges: seq<Range>, i: nat)
    ensures InRangesFrom(num, ranges, i) <==> exists k :: i <= k < |ranges| && InRangeOf(num, ranges[k])
    decreases |ranges| - i
  {
    if i < |ranges| {
      InRangesFromIff(num, ranges, i + 1);
    }
  }

  /** `IN_RANGE` holds exactly when the value lies in one of the half-open ranges. */
  lemma InRangeIff(attrs: Attrs, key: string, ranges: seq<Range>)
    ensures CheckCond(attrs, Cond(key, InRange(ranges))) <==>
      key in attrs && exists k :: 0 <= k < |ranges| && ranges[k].lo <= attrs[key] < ranges[k].hi
  {
    if key in attrs {
      InRangesFromIff(attrs[key], ranges, 0);
    }
  }

  /** `GREATER_THAN` is "at least", and a missing attribute never passes it. */
  lemma GreaterThanIsAtLeast(attrs: Attrs, key: string, bound: real)
    ensures CheckCond(attrs, Cond(key, GreaterThan(bound))) <==> key in attrs && attrs[key] >= bound
  {
  }

  lemma {:induction false} AnyFromIff(attrs: Attrs, conds: seq<Cond>, i: nat)
    ensures AnyFrom(attrs, conds, i) <==> exists k :: i <= k < |conds| && CheckCond(attrs, conds[k])
    decreases |conds| - i
  {
    if i < |conds| {
      AnyFromIff(attrs, conds, i + 1);
    }
  }

  lemma {:induction false} AllFromIff(attrs: Attrs, conds: seq<Cond>, i: nat)
    ensures AllFrom(attrs, conds, i) <==> forall k :: i <= k < |conds| ==> CheckCond(attrs, conds[k])
    decreases |conds| - i
  {
    if i < |conds| {
      AllFromIff(attrs, conds, i + 1);
    }
  }

  /** `OR` is any-of and `AND` is all-of over the sub-conditions; the attribute name is ignored. */
  lemma OrAndSemantics(attrs: Attrs, key: string, conds: seq<Cond>)
    ensures CheckCond(attrs, Cond(key, Or(conds))) <==> exists k :: 0 <= k < |conds| && CheckCond(attrs, conds[k])
    ensures CheckCond(attrs, Cond(key, And(conds))) <==> forall k :: 0 <= k < |conds| ==> CheckCond(attrs, conds[k])
  {
    AnyFromIff(attrs, conds, 0);
    AllFromIff(attrs, conds, 0);
  }

  /** `IN_RANGE` with a single range. */
  lemma InRangeOne(attrs: Attrs, key: string, lo: real, hi: real)
    ensures CheckCond(attrs, Cond(key, InRange([Range(lo, hi)]))) <==> key in attrs && lo <= attrs[key] < hi
  {
    InRangeIff(attrs, key, [Range(lo, hi)]);
  }

  /** `AND` of two sub-conditions. */
  lemma AndOfTwo(attrs: Attrs, key: string, c0: Cond, c1: Cond)
    ensures CheckCond(attrs, Cond(key, And([c0, c1]))) <==> CheckCond(attrs, c0) && CheckCond(attrs, c1)
  {
    OrAndSemantics(attrs, key, [c0, c1]);
    assert [c0, c1][0] == c0 && [c0, c1][1] == c1;
  }

  lemma {:induction false} FirstMatchFromSpec<R>(attrs: Attrs, rules: seq<Rule<R>>, i: nat)
    ensures FirstMatchFrom(attrs, rules, i).None? <==>
      forall k :: i <= k < |rules| ==> !CheckCond(attrs, rules[k].condition)
    ensures FirstMatchFrom(attrs, rules, i).Some? ==>
      exists k :: i <= k < |rules| && CheckCond(attrs, rules[k].condition)
        && FirstMatchFrom(attrs, rules, i).value == rules[k].result
        && forall m :: i <= m < k ==> !CheckCond(attrs, rules[m].condition)
    decreases |rules| - i
  {
    if i < |rules| && !CheckCond(attrs, rules[i].condition) {
      FirstMatchFromSpec(attrs, rules, i + 1);
      var r := FirstMatchFrom(attrs, rules, i);
      if r.Some? {
        var k :| i + 1 <= k < |rules| && CheckCond(attrs, rules[k].condition)
          && r.value == rules[k].result
          && forall m :: i + 1 <= m < k ==> !CheckCond(attrs, rules[m].condition);
        assert forall m :: i <= m < k ==> !CheckCond(attrs, rules[m].condition);
      }
    }
  }

  /**
   * `checkRules2` returns the result of the first rule whose condition
   * holds, and `null` exactly when no rule holds.
   */
  lemma CheckRules2IsFirstMatch<R>(attrs: Attrs, rules: seq<Rule<R>>)
    ensures CheckRules2(attrs, rules).None? <==> forall k :: 0 <= k < |rules| ==> !CheckCond(attrs, rules[k].condition)
    ensures CheckRules2(attrs, rules).Some? ==>
      exists k :: 0 <= k < |rules| && CheckCond(attrs, rules[k].condition)
        && CheckRules2(attrs, rules).value == rules[k].result
        && forall m :: 0 <= m < k ==> !CheckCond(attrs, rules[m].condition)
  {
    FirstMatchFromSpec(attrs, rules, 0);
  }

  // ---------------------------------------------------------------------
  // The rule tables
  // ---------------------------------------------------------------------

  /** The corner shapes of Corners.js. */
  datatype CornerShape = C1 | C2 | C3 | C4 | C5 | C6 | C7 | C8 | C8R | C9 | C9R | C10

  /** The segment thickness profiles `SEGMENT_I`, `SEGMENT_II`, `SEGMENT_III`. */
  datatype SegmentProfile = SegmentI | SegmentII | SegmentIII

  /** An element of a basic-stroke component list. */
  datatype Component = CornerPart(corner: CornerShape) | SegmentPart(profile: SegmentProfile)

  const TH1: real := 60.0
  const TH2: real := 40.0

  const HEN: seq<Component> := [CornerPart(C2), SegmentPart(SegmentI), CornerPart(C3)]
  const SHU1: seq<Component> := [CornerPart(C4), SegmentPart(SegmentI), CornerPart(C5)]
  const SHU2: seq<Component> := [CornerPart(C4), SegmentPart(SegmentII)]
  const NA: seq<Component> := [CornerPart(C6), SegmentPart(SegmentI), CornerPart(C7)]
  const DIAN: seq<Component> := [CornerPart(C1)]
  const OTHER: seq<Component> := [CornerPart(C4), SegmentPart(SegmentII)]

  const HorizontalRanges: seq<Range> := [Range(0.0, 10.0), Range(350.0, 360.0)]

  const RULE_CC_START: seq<Rule<CornerShape>> := [
    Rule(C2, Cond("startAngle", InRange(HorizontalRanges))),
    Rule(C4, Cond("startAngle", InRange([Range(80.0, 350.0)])))
  ]

  /** The third rule reads `"engAngle"`, as the source spells it. */
  const RULE_CC_END: seq<Rule<CornerShape>> := [
    Rule(C3, Cond("endAngle", InRange(HorizontalRanges))),
    Rule(C7, Cond("endAngle", InRange([Range(10.0, 80.0)]))),
    Rule(C5, Cond("engAngle", InRange([Range(80.0, 100.0)])))
  ]

  const RULE_CC_MID: seq<Rule<CornerShape>> := [
    Rule(C8, Cond("", And([Cond("inAngle", InRange([Range(0.0, 45.0), Range(315.0, 360.0)])),
                           Cond("betweenAngle", InRange([Range(0.0, 180.0)]))]))),
    Rule(C8R, Cond("", And([Cond("inAngle", InRange([Range(60.0, 170.0)])),
                            Cond("betweenAngle", InRange([Range(-180.0, 0.0)]))]))),
    Rule(C9, Cond("", And([Cond("inAngle", InRange([Range(45.0, 145.0)])),
                           Cond("betweenAngle", InRange([Range(0.0, 180.0)]))]))),
    Rule(C9R, Cond("", And([Cond("inAngle", InRange([Range(0.0, 60.0), Range(240.0, 360.0)])),
                            Cond("betweenAngle", InRange([Range(-180.0, 0.0)]))])))
  ]

  const RULE_BS: seq<Rule<seq<Component>>> := [
    Rule(DIAN, Cond("length", LessThan(TH2))),
    Rule(HEN, Cond("startAngle", InRange(HorizontalRanges))),
    Rule(SHU1, Cond("", And([Cond("startAngle", InRange([Range(80.0, 100.0)])),
                             Cond("length", GreaterThan(TH1))]))),
    Rule(SHU2, Cond("", And([Cond("startAngle", InRange([Range(80.0, 100.0)])),
                             Cond("length", InRange([Range(TH2, TH1)]))]))),
    Rule(NA, Cond("startAngle", InRange([Range(10.0, 80.0)]))),
    Rule(OTHER, Cond("", TrueOp))
  ]

  /** The numeric attributes of `getSegmentAttributes`. */
  predicate IsSegmentAttributes(attrs: Attrs)
  {
    attrs.Keys == {"startAngle", "endAngle", "length"}
  }

  /**
   * What `drawBasicStroke` needs of a component list: one corner, or a
   * start corner and a segment profile, optionally followed by an end corner.
   */
  predicate BasicComponents(comps: seq<Component>)
  {
    && 1 <= |comps| <= 3
    && comps[0].CornerPart?
    && (|comps| >= 2 ==> comps[1].SegmentPart?)
    && (|comps| == 3 ==> comps[2].CornerPart?)
  }

  /**
   * `RULE_BS` ends with a `TRUE` rule: every attribute set gets a component
   * list, and it has the shape `drawBasicStroke` indexes into.
   */
  lemma RuleBSAlwaysMatches(attrs: Attrs)
    ensures CheckRules2(attrs, RULE_BS).Some?
    ensures BasicComponents(CheckRules2(attrs, RULE_BS).value)
  {
    CheckRules2IsFirstMatch(attrs, RULE_BS);
    assert CheckCond(attrs, RULE_BS[5].condition);
    var k :| 0 <= k < |RULE_BS| && CheckCond(attrs, RULE_BS[k].condition)
      && CheckRules2(attrs, RULE_BS).value == RULE_BS[k].result;
  }

  /** A stroke shorter than `TH2` is always a dot. */
  lemma ShortStrokeIsDian(attrs: Attrs)
    requires "length" in attrs && attrs["length"] < TH2
    ensures CheckRules2(attrs, RULE_BS) == Some(DIAN)
  {
  }

  /**
   * A segment attribute set whose start angle is in [80, 100) and whose
   * length is at least `TH2` is a vertical stroke: `SHU1` from `TH1` on,
   * `SHU2` below it. The two `AND` rules leave no gap and do not overlap.
   */
  lemma VerticalStrokeIsShu(attrs: Attrs)
    requires IsSegmentAttributes(attrs)
    requires 80.0 <= attrs["startAngle"] < 100.0 && attrs["length"] >= TH2
    ensures attrs["length"] >= TH1 ==> CheckRules2(attrs, RULE_BS) == Some(SHU1)
    ensures attrs["length"] < TH1 ==> CheckRules2(attrs, RULE_BS) == Some(SHU2)
  {
    var rs := RULE_BS;
    var start := Cond("startAngle", InRange([Range(80.0, 100.0)]));
    var long := Cond("length", GreaterThan(TH1));
    var middle := Cond("length", InRange([Range(TH2, TH1)]));
    assert rs[2] == Rule(SHU1, Cond("", And([start, long])));
    assert rs[3] == Rule(SHU2, Cond("", And([start, middle])));
    InRangeIff(attrs, "startAngle", HorizontalRanges);
    InRangeOne(attrs, "startAngle", 80.0, 100.0);
    InRangeOne(attrs, "length", TH2, TH1);
    GreaterThanIsAtLeast(attrs, "length", TH1);
    AndOfTwo(attrs, "", start, long);
    AndOfTwo(attrs, "", start, middle);
    assert !CheckCond(attrs, rs[0].condition);
    assert FirstMatchFrom(attrs, rs, 0) == FirstMatchFrom(attrs, rs, 1);
    assert !CheckCond(attrs, rs[1].condition);
    assert FirstMatchFrom(attrs, rs, 1) == FirstMatchFrom(attrs, rs, 2);
    if attrs["length"] < TH1 {
      assert FirstMatchFrom(attrs, rs, 2) == FirstMatchFrom(attrs, rs, 3);
    }
  }

  /**
   * The start corner of a compound stroke: `C2` for a horizontal start,
   * `C4` for a start angle in [80, 350), and none otherwise.
   */
  lemma StartCornerChoice(attrs: Attrs)
    requires IsSegmentAttributes(attrs)
    ensures var a := attrs["startAngle"];
      CheckRules2(attrs, RULE_CC_START) ==
        if (0.0 <= a < 10.0 || 350.0 <= a < 360.0) then Some(C2)
        else if 80.0 <= a < 350.0 then Some(C4)
        else None
  {
    var rs := RULE_CC_START;
    InRangeIff(attrs, "startAngle", HorizontalRanges);
    InRangeIff(attrs, "startAngle", [Range(80.0, 350.0)]);
    assert FirstMatchFrom(attrs, rs, 2) == None;
    assert FirstMatchFrom(attrs, rs, 1) == if CheckCond(attrs, rs[1].condition) then Some(C4) else None;
  }

  /**
   * The end corner of a compound stroke: `C3` for a horizontal end, `C7`
   * for an end angle in [10, 80), and none otherwise. The third rule reads
   * the attribute `"engAngle"`, which `getSegmentAttributes` never sets, so
   * it never holds: an end angle in [80, 100) gets no end corner, and `C5`
   * is never chosen.
   */
  lemma EndCornerChoice(attrs: Attrs)
    requires IsSegmentAttributes(attrs)
    ensures var a := attrs["endAngle"];
      CheckRules2(attrs, RULE_CC_END) ==
        if (0.0 <= a < 10.0 || 350.0 <= a < 360.0) then Some(C3)
        else if 10.0 <= a < 80.0 then Some(C7)
        else None
    ensures CheckRules2(attrs, RULE_CC_END) != Some(C5)
  {
    var rs := RULE_CC_END;
    InRangeIff(attrs, "endAngle", HorizontalRanges);
    InRangeIff(attrs, "endAngle", [Range(10.0, 80.0)]);
    assert "engAngle" !in attrs;
    assert !CheckCond(attrs, rs[2].condition);
    assert FirstMatchFrom(attrs, rs, 2) == None;
    assert FirstMatchFrom(attrs, rs, 1) == if CheckCond(attrs, rs[1].condition) then Some(C7) else None;
  }

  /** The numeric attributes of `getCornerAttributes`. */
  predicate IsCornerAttributes(attrs: Attrs)
  {
    attrs.Keys == {"inAngle", "outAngle", "betweenAngle"}
  }

  /**
   * A middle corner is drawn only when the inner angle between the two
   * segments lies in [-180, 180): every `RULE_CC_MID` rule requires it.
   */
  lemma MidCornerNeedsInnerAngle(attrs: Attrs)
    requires IsCornerAttributes(attrs)
    requires CheckRules2(attrs, RULE_CC_MID).Some?
    ensures -180.0 <= attrs["betweenAngle"] < 180.0
  {
    CheckRules2IsFirstMatch(attrs, RULE_CC_MID);
    var k :| 0 <= k < |RULE_CC_MID| && CheckCond(attrs, RULE_CC_MID[k].condition);
    var conds := RULE_CC_MID[k].condition.op.conds;
    OrAndSemantics(attrs, "", conds);
    assert CheckCond(attrs, conds[1]);
    InRangeIff(attrs, "betweenAngle", conds[1].op.ranges);
  }
}
