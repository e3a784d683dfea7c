/**
 * Caligrapher's stroke-corner shapes (its Corners.js section): a
 * `BezierShape` is a list of cubic sections of control points, an optional
 * name and a skeleton of named bones. Each bone lists (section, point)
 * positions it moves and an angle offset in degrees.
 *
 * `copy` builds a fresh shape, and the two flips transform such a copy in
 * place and return it. A bone is only ever copied or replaced whole, so it
 * is a value here, and `Bone.copy` is the identity on values.
 */
module Corners {
  import opened Geometry

  /** `Bone(points, offset)`: (section, point) positions and an angle offset in degrees. */
  datatype Bone = Bone(points: seq<(nat, nat)>, offset: real)

  /** Every section has the four control points of a cubic that `copy` reads. */
  predicate HasCubicSections(sections: seq<seq<Vec2>>)
  {
    forall i :: 0 <= i < |sections| ==> |sections[i]| >= 4
  }

  /** The sections `copy` produces: the first four control points of each. */
  function FirstFour(sections: seq<seq<Vec2>>): (r: seq<seq<Vec2>>)
    requires HasCubicSections(sections)
    ensures |r| == |sections|
  {
    seq(|sections|, i requires 0 <= i < |sections| => sections[i][..4])
  }

  /** `f` applied to every control point of one section. */
  function MapSection(f: Vec2 -> Vec2, section: seq<Vec2>): (r: seq<Vec2>)
    ensures |r| == |section|
  {
    seq(|section|, j requires 0 <= j < |section| => f(section[j]))
  }

  /** `f` applied to every control point of every section. */
  function MapSections(f: Vec2 -> Vec2, sections: seq<seq<Vec2>>): (r: seq<seq<Vec2>>)
    ensures |r| == |sections|
  {
    seq(|sections|, i requires 0 <= i < |sections| => MapSection(f, sections[i]))
  }

  /** `g` applied to the offset of every bone. */
  function MapOffsets(g: real -> real, skeleton: map<string, Bone>): (r: map<string, Bone>)
    ensures r.Keys == skeleton.Keys
  {
    map k | k in skeleton :: skeleton[k].(offset := g(skeleton[k].offset))
  }

  /** The point transformation of `vertFlipCopy`: negate y. */
  function FlipY(p: Vec2): Vec2 { Vec2(p.x, -p.y) }

  /** The point transformation of `horizFlipCopy`: negate x. */
  function FlipX(p: Vec2): Vec2 { Vec2(-p.x, p.y) }

  /** The offset rule of `vertFlipCopy`. */
  function VertFlipOffset(offset: real): real { 360.0 - offset }

  /** The offset rule of `horizFlipCopy`: `180 - offset`, moved up by a full turn when negative. */
  function HorizFlipOffset(offset: real): (r: real)
    ensures 0.0 <= offset < 360.0 ==> 0.0 <= r < 360.0
  {
    var o := 180.0 - offset;
    if o < 0.0 then o + 360.0 else o
  }

  class BezierShape {
    var sections: seq<seq<Vec2>>
    var name: string
    var skeleton: map<string, Bone>

    /** `new BezierShape(sections)`: no name and an empty skeleton. */
    constructor (sections: seq<seq<Vec2>>)
      ensures this.sections == sections && name == "" && skeleton == map[]
    {
      this.sections := sections;
      name := "";
      skeleton := map[];
    }

    /**
     * `copy()`: a fresh shape with the first four control points of each
     * section, the same name and the same bones. The source would fail on
     * a section with fewer than four points, so the model requires four.
     */
    method Copy() returns (c: BezierShape)
      requires HasCubicSections(sections)
      ensures fresh(c)
      ensures c.sections == FirstFour(sections) && c.name == name && c.skeleton == skeleton
    {
      var newSections: seq<seq<Vec2>> := [];
      var i := 0;
      while i < |sections|
        invariant i <= |sections| && |newSections| == i
        invariant forall a :: 0 <= a < i ==> newSections[a] == sections[a][..4]
      {
        var section: seq<Vec2> := [];
        var j := 0;
        while j < 4
          invariant j <= 4 && section == sections[i][..j]
        {
          section := section + [sections[i][j]];
          j := j + 1;
        }
        newSections := newSections + [section];
        i := i + 1;
      }
      c := new BezierShape(newSections);
      c.name := name;
      c.skeleton := skeleton;
    }

    /**
     * The two loops that `vertFlipCopy` and `horizFlipCopy` run over their
     * copy: every control point of every section goes through `f`, and the
     * offset of every bone through `g`. The name is kept.
     */
    method Transform(f: Vec2 -> Vec2, g: real -> real)
      modifies this
      ensures sections == MapSections(f, old(sections))
      ensures skeleton == MapOffsets(g, old(skeleton))
      ensures name == old(name)
    {
      ghost var orig := sections;
      var i := 0;
      while i < |sections|
        invariant i <= |sections| && |sections| == |orig|
        invariant forall a :: 0 <= a < i ==> sections[a] == MapSection(f, orig[a])
        invariant forall a :: i <= a < |orig| ==> sections[a] == orig[a]
        invariant skeleton == old(skeleton) && name == old(name)
      {
        var section := sections[i];
        var j := 0;
        while j < |section|
          invariant j <= |section| && |section| == |orig[i]|
          invariant forall b :: 0 <= b < j ==> section[b] == f(orig[i][b])
          invariant forall b :: j <= b < |section| ==> section[b] == orig[i][b]
        {
          section := section[j := f(section[j])];
          j := j + 1;
        }
        sections := sections[i := section];
        i := i + 1;
      }
      ghost var bones := skeleton;
      var todo := skeleton.Keys;
      while todo != {}
        invariant todo <= bones.Keys && skeleton.Keys == bones.Keys
        invariant forall k :: k in bones && k !in todo ==> skeleton[k] == bones[k].(offset := g(bones[k].offset))
        invariant forall k :: k in todo ==> skeleton[k] == bones[k]
        invariant sections == MapSections(f, orig) && name == old(name)
        decreases todo
      {
        var k :| k in todo;
        skeleton := skeleton[k := skeleton[k].(offset := g(skeleton[k].offset))];
        todo := todo - {k};
      }
    }
  }

  /** `vertFlipCopy(c)`: a copy mirrored in the x axis, each offset `o` becoming `360 - o`. */
  method VertFlipCopy(c: BezierShape) returns (r: BezierShape)
    requires HasCubicSections(c.sections)
    ensures fresh(r)
    ensures r.sections == MapSections(FlipY, FirstFour(c.sections))
    ensures r.skeleton == MapOffsets(VertFlipOffset, c.skeleton)
    ensures r.name == c.name
  {
    r := c.Copy();
    r.Transform(FlipY, VertFlipOffset);
  }

  /**
   * `horizFlipCopy(c)`: a copy mirrored in the y axis, each offset `o`
   * becoming `180 - o`, plus 360 when that is negative.
   */
  method HorizFlipCopy(c: BezierShape) returns (r: BezierShape)
    requires HasCubicSections(c.sections)
    ensures fresh(r)
    ensures r.sections == MapSections(FlipX, FirstFour(c.sections))
    ensures r.skeleton == MapOffsets(HorizFlipOffset, c.skeleton)
    ensures r.name == c.name
  {
    r := c.Copy();
    r.Transform(FlipX, HorizFlipOffset);
  }

  /** Copying or transforming a shape keeps four control points per section. */
  lemma MapFirstFourIsCubic(f: Vec2 -> Vec2, sections: seq<seq<Vec2>>)
    requires HasCubicSections(sections)
    ensures HasCubicSections(MapSections(f, FirstFour(sections)))
    ensures FirstFour(MapSections(f, FirstFour(sections))) == MapSections(f, FirstFour(sections))
  {
    var m := MapSections(f, FirstFour(sections));
    forall i | 0 <= i < |m|
      ensures m[i][..4] == m[i]
    {
      assert |m[i]| == 4;
    }
  }

  /** Mapping twice with a self-inverse point transformation restores every section. */
  lemma MapSectionsTwice(f: Vec2 -> Vec2, sections: seq<seq<Vec2>>)
    requires forall p: Vec2 :: f(f(p)) == p
    ensures MapSections(f, MapSections(f, sections)) == sections
  {
    var m := MapSections(f, MapSections(f, sections));
    forall i | 0 <= i < |sections|
      ensures m[i] == sections[i]
    {
      var s := sections[i];
      assert m[i] == MapSection(f, MapSection(f, s));
      forall j | 0 <= j < |s|
        ensures m[i][j] == s[j]
      {
        assert m[i][j] == f(f(s[j]));
      }
    }
  }

  /** Transforming every offset twice with a self-inverse rule restores every bone. */
  lemma MapOffsetsTwice(g: real -> real, skeleton: map<string, Bone>)
    requires forall k :: k in skeleton ==> g(g(skeleton[k].offset)) == skeleton[k].offset
    ensures MapOffsets(g, MapOffsets(g, skeleton)) == skeleton
  {
    var m := MapOffsets(g, MapOffsets(g, skeleton));
    forall k | k in skeleton
      ensures m[k] == skeleton[k]
    {
      assert m[k] == skeleton[k].(offset := g(g(skeleton[k].offset)));
    }
  }

  /** Both mirror images are self-inverse on points. */
  lemma FlipsAreInvolutions(p: Vec2)
    ensures FlipY(FlipY(p)) == p && FlipX(FlipX(p)) == p
  {
  }

  /** Applying `360 - o` twice gives back `o`. */
  lemma VertFlipOffsetTwice(offset: real)
    ensures VertFlipOffset(VertFlipOffset(offset)) == offset
  {
  }

  /** On [0, 360) the horizontal offset rule is its own inverse. */
  lemma HorizFlipOffsetTwice(offset: real)
    requires 0.0 <= offset < 360.0
    ensures HorizFlipOffset(HorizFlipOffset(offset)) == offset
  {
    if offset <= 180.0 {
      assert HorizFlipOffset(offset) == 180.0 - offset;
    } else {
      assert HorizFlipOffset(offset) == 540.0 - offset;
      assert 180.0 - (540.0 - offset) < 0.0;
    }
  }

  /**
   * `vertFlipCopy` applied to its own result gives back the sections of a
   * plain copy (the first four control points of each) and every bone.
   */
  lemma VertFlipTwice(sections: seq<seq<Vec2>>, skeleton: map<string, Bone>)
    requires HasCubicSections(sections)
    ensures var once := MapSections(FlipY, FirstFour(sections));
      && HasCubicSections(once)
      && MapSections(FlipY, FirstFour(once)) == FirstFour(sections)
    ensures MapOffsets(VertFlipOffset, MapOffsets(VertFlipOffset, skeleton)) == skeleton
  {
    MapFirstFourIsCubic(FlipY, sections);
    forall p: Vec2 ensures FlipY(FlipY(p)) == p {
      FlipsAreInvolutions(p);
    }
    MapSectionsTwice(FlipY, FirstFour(sections));
    MapOffsetsTwice(VertFlipOffset, skeleton);
  }

  /**
   * `horizFlipCopy` keeps offsets in [0, 360) there, and applied to its
   * own result it gives back the sections of a plain copy and, when every
   * offset is in [0, 360), every bone.
   */
  lemma HorizFlipTwice(sections: seq<seq<Vec2>>, skeleton: map<string, Bone>)
    requires HasCubicSections(sections)
    ensures var once := MapSections(FlipX, FirstFour(sections));
      && HasCubicSections(once)
      && MapSections(FlipX, FirstFour(once)) == FirstFour(sections)
    ensures (forall k :: k in skeleton ==> 0.0 <= skeleton[k].offset < 360.0) ==>
      && (forall k :: k in skeleton ==> 0.0 <= MapOffsets(HorizFlipOffset, skeleton)[k].offset < 360.0)
      && MapOffsets(HorizFlipOffset, MapOffsets(HorizFlipOffset, skeleton)) == skeleton
  {
    MapFirstFourIsCubic(FlipX, sections);
    forall p: Vec2 ensures FlipX(FlipX(p)) == p {
      FlipsAreInvolutions(p);
    }
    MapSectionsTwice(FlipX, FirstFour(sections));
    if forall k :: k in skeleton ==> 0.0 <= skeleton[k].offset < 360.0 {
      forall k | k in skeleton
        ensures HorizFlipOffset(HorizFlipOffset(skeleton[k].offset)) == skeleton[k].offset
      {
        HorizFlipOffsetTwice(skeleton[k].offset);
      }
      MapOffsetsTwice(HorizFlipOffset, skeleton);
    }
  }

  /** A shape whose sections are already cubics is copied exactly. */
  lemma CopyOfCubicsIsExact(sections: seq<seq<Vec2>>)
    requires forall i :: 0 <= i < |sections| ==> |sections[i]| == 4
    ensures FirstFour(sections) == sections
  {
    forall i | 0 <= i < |sections|
      ensures FirstFour(sections)[i] == sections[i]
    {
      assert sections[i][..4] == sections[i];
    }
  }
}
