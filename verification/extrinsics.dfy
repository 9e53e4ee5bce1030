/**
 * The extrinsics calculator: it loads the box with every side accepted,
 * keeps the ids of the sides that are not labelled as background, and
 * records the center of each kept side in metres.
 */
module Extrinsics {
  import opened Wrappers
  import opened Mesh
  import opened ShapeFilter
  import opened VertexDedup
  import opened BoxModelLoader

  datatype Point = Point(x: real, y: real, z: real)

  /** Row k of the vertex buffer viewed as an N x 3 array. */
  function VertexAt(vertices: seq<real>, k: nat): Point
    requires 3 * k + 3 <= |vertices|
  {
    Point(vertices[3 * k], vertices[3 * k + 1], vertices[3 * k + 2])
  }

  /** Coordinate-wise arithmetic mean of four points. */
  function Mean4(a: Point, b: Point, c: Point, d: Point): Point
  {
    Point((a.x + b.x + c.x + d.x) / 4.0, (a.y + b.y + c.y + d.y) / 4.0, (a.z + b.z + c.z + d.z) / 4.0)
  }

  /** Millimetres to metres. */
  function ToMetres(p: Point): Point
  {
    Point(p.x / 1000.0, p.y / 1000.0, p.z / 1000.0)
  }

  /** The center of the four points `a`, `b`, `c` and `d`, in metres. */
  function Center(a: Point, b: Point, c: Point, d: Point): Point
  {
    ToMetres(Mean4(a, b, c, d))
  }

  /** Side `side` lies inside the N x 4 x 3 view of the buffer. */
  predicate Fits(vertices: seq<real>, side: nat)
  {
    12 * side + 12 <= |vertices|
  }

  /** Side `side` of the buffer viewed as an N x 4 x 3 array, averaged over its four rows. */
  function SideCenter(vertices: seq<real>, side: nat): Point
    requires Fits(vertices, side)
  {
    Center(VertexAt(vertices, 4 * side), VertexAt(vertices, 4 * side + 1),
           VertexAt(vertices, 4 * side + 2), VertexAt(vertices, 4 * side + 3))
  }

  // ------------------------------------------------------------ valid ids

  /** The ids, in increasing order, of the sides that are not labelled as background. */
  function NonBackgroundIds(sideNames: seq<string>, renderFlags: Option<set<RenderFlag>>): (r: seq<nat>)
    decreases |sideNames|
  {
    if sideNames == [] then []
    else
      var n := |sideNames| - 1;
      var ids := NonBackgroundIds(sideNames[..n], renderFlags);
      if LabelAsBackground(renderFlags, sideNames[n]) then ids else ids + [n]
  }

  /**
   * The ids are strictly increasing side indices, and a side index is among
   * them exactly when its side is not labelled as background.
   */
  lemma {:induction false} NonBackgroundIdsSpec(sideNames: seq<string>, renderFlags: Option<set<RenderFlag>>)
    ensures var ids := NonBackgroundIds(sideNames, renderFlags);
            && (forall k :: 0 <= k < |ids| ==> ids[k] < |sideNames|)
            && (forall k, l :: 0 <= k < l < |ids| ==> ids[k] < ids[l])
            && (forall i :: 0 <= i < |sideNames| ==> (i in ids <==> !LabelAsBackground(renderFlags, sideNames[i])))
    decreases |sideNames|
  {
    if sideNames != [] {
      var n := |sideNames| - 1;
      var p := sideNames[..n];
      NonBackgroundIdsSpec(p, renderFlags);
      forall i | 0 <= i < n
        ensures sideNames[i] == p[i]
      {
      }
    }
  }

  /** Without render flags every side is kept. */
  lemma {:induction false} NoRenderFlagsKeepsAll(sideNames: seq<string>)
    ensures NonBackgroundIds(sideNames, None) == seq(|sideNames|, i => i)
    decreases |sideNames|
  {
    if sideNames != [] {
      var n := |sideNames| - 1;
      NoRenderFlagsKeepsAll(sideNames[..n]);
      assert seq(n + 1, i => i) == seq(n, i => i) + [n];
    }
  }

  /** The `valid_ids` loop of the calculator's constructor. */
  method ValidIds(sideNames: seq<string>, renderFlags: Option<set<RenderFlag>>) returns (validIds: seq<nat>)
    ensures validIds == NonBackgroundIds(sideNames, renderFlags)
  {
    validIds := [];
    for i := 0 to |sideNames|
      invariant validIds == NonBackgroundIds(sideNames[..i], renderFlags)
    {
      assert sideNames[..i + 1][..i] == sideNames[..i];
      if !LabelAsBackground(renderFlags, sideNames[i]) {
        validIds := validIds + [i];
      }
    }
    assert sideNames[..|sideNames|] == sideNames;
  }

  // ---------------------------------------------------------- side centers

  /**
   * Why the center computation raises: the buffer cannot be viewed as
   * N x 3 or as N x 4 x 3 (`length` is its number of floats), or a kept id
   * is past the last side of that view.
   */
  datatype CenterError = ReshapeError(length: nat) | SideIndexError(side: nat)

  /** The per-id center lookup, one id after the other, stopping at the first id out of range. */
  function CentersOf(vertices: seq<real>, ids: seq<nat>): (r: Result<seq<Point>, CenterError>)
    decreases |ids|
  {
    if ids == [] then Success([])
    else
      var n := |ids| - 1;
      match CentersOf(vertices, ids[..n])
      case Failure(e) => Failure(e)
      case Success(centers) =>
        if Fits(vertices, ids[n]) then Success(centers + [SideCenter(vertices, ids[n])])
        else Failure(SideIndexError(ids[n]))
  }

  /**
   * The `box_sides_center` comprehension: the N x 3 view is taken
   * unconditionally, the N x 4 x 3 view only once some id is kept.
   */
  function SideCenters(vertices: seq<real>, ids: seq<nat>): (r: Result<seq<Point>, CenterError>)
  {
    if |vertices| % 3 != 0 then Failure(ReshapeError(|vertices|))
    else if ids == [] then Success([])
    else if |vertices| % 12 != 0 then Failure(ReshapeError(|vertices|))
    else CentersOf(vertices, ids)
  }

  /** The lookup succeeds exactly when every id is in range. */
  lemma {:induction false} CentersOfSucceeds(vertices: seq<real>, ids: seq<nat>)
    ensures CentersOf(vertices, ids).Success? <==> forall k :: 0 <= k < |ids| ==> Fits(vertices, ids[k])
    decreases |ids|
  {
    if ids != [] {
      var n := |ids| - 1;
      var p := ids[..n];
      CentersOfSucceeds(vertices, p);
      assert forall k :: 0 <= k < n ==> ids[k] == p[k];
      if CentersOf(vertices, p).Failure? {
        var k :| 0 <= k < n && !Fits(vertices, p[k]);
        assert !Fits(vertices, ids[k]);
      }
    }
  }

  /** A successful lookup yields one center per id, in order. */
  lemma {:induction false} CentersOfContents(vertices: seq<real>, ids: seq<nat>)
    requires CentersOf(vertices, ids).Success?
    ensures var centers := CentersOf(vertices, ids).value;
            && |centers| == |ids|
            && forall k :: 0 <= k < |ids| ==> Fits(vertices, ids[k]) && centers[k] == SideCenter(vertices, ids[k])
    decreases |ids|
  {
    if ids != [] {
      var n := |ids| - 1;
      var p := ids[..n];
      CentersOfContents(vertices, p);
      var centers := CentersOf(vertices, p).value;
      assert CentersOf(vertices, ids).value == centers + [SideCenter(vertices, ids[n])];
      assert forall k :: 0 <= k < n ==> ids[k] == p[k];
    }
  }

  /** A failed lookup reports the first id that is out of range. */
  lemma {:induction false} CentersOfFailure(vertices: seq<real>, ids: seq<nat>)
    requires CentersOf(vertices, ids).Failure?
    ensures exists k :: && 0 <= k < |ids| && !Fits(vertices, ids[k])
                        && (forall l :: 0 <= l < k ==> Fits(vertices, ids[l]))
                        && CentersOf(vertices, ids).error == SideIndexError(ids[k])
    decreases |ids|
  {
    var n := |ids| - 1;
    var p := ids[..n];
    assert forall k :: 0 <= k < n ==> ids[k] == p[k];
    if CentersOf(vertices, p).Failure? {
      CentersOfFailure(vertices, p);
      var k :| && 0 <= k < |p| && !Fits(vertices, p[k])
               && (forall l :: 0 <= l < k ==> Fits(vertices, p[l]))
               && CentersOf(vertices, p).error == SideIndexError(p[k]);
      assert !Fits(vertices, ids[k]) && forall l :: 0 <= l < k ==> Fits(vertices, ids[l]);
    } else {
      CentersOfSucceeds(vertices, p);
    }
  }

  /**
   * The comprehension fails exactly on a buffer that is not a whole number of
   * 3-vectors, or, once an id is kept, not a whole number of sides or too
   * short for some kept id; otherwise it holds the center of every kept side.
   */
  lemma SideCentersSpec(vertices: seq<real>, ids: seq<nat>)
    ensures SideCenters(vertices, ids).Success? <==>
              && |vertices| % 3 == 0
              && (ids != [] ==> |vertices| % 12 == 0)
              && forall k :: 0 <= k < |ids| ==> Fits(vertices, ids[k])
    ensures SideCenters(vertices, ids).Success? ==>
              var centers := SideCenters(vertices, ids).value;
              && |centers| == |ids|
              && forall k :: 0 <= k < |ids| ==> Fits(vertices, ids[k]) && centers[k] == SideCenter(vertices, ids[k])
    ensures (SideCenters(vertices, ids).Failure? && SideCenters(vertices, ids).error.ReshapeError?) <==>
              |vertices| % 3 != 0 || (ids != [] && |vertices| % 12 != 0)
  {
    CentersOfSucceeds(vertices, ids);
    if CentersOf(vertices, ids).Success? {
      CentersOfContents(vertices, ids);
    } else {
      CentersOfFailure(vertices, ids);
    }
  }

  // ----------------------------------------------------------- the class

  /** Equal slots of two flat buffers hold the same point. */
  lemma VertexAtOfSlot(a: seq<real>, k: nat, b: seq<real>, j: nat)
    requires 3 * k + 3 <= |a| && 3 * j + 3 <= |b|
    requires Slot(a, k) == Slot(b, j)
    ensures VertexAt(a, k) == VertexAt(b, j)
  {
  }

  /**
   * The center of an accepted side, computed from the source positions of
   * its four distinct vertices in the order they are first met.
   */
  function SourceCenter(attrib: Attrib, side: Shape): Point
    requires |Distinct(side.corners)| == 4
    requires forall k :: 0 <= k < 4 ==> 3 * Distinct(side.corners)[k] + 3 <= |attrib.vertices|
  {
    var d := Distinct(side.corners);
    Center(VertexAt(attrib.vertices, d[0]), VertexAt(attrib.vertices, d[1]),
           VertexAt(attrib.vertices, d[2]), VertexAt(attrib.vertices, d[3]))
  }

  /**
   * Under the documented layout (four vertices per side, no vertex shared
   * between sides) side i of the loaded buffer is centered on the center of
   * accepted side i's own four source positions.
   */
  lemma StrideFourSideCenter(attrib: Attrib, shapes: seq<Shape>, i: nat)
    requires Load(attrib, shapes, LoadAll).Success?
    requires StrideFour(FilterShapes(shapes, LoadAll))
    requires i < |FilterShapes(shapes, LoadAll)|
    ensures var model, side := Load(attrib, shapes, LoadAll).value, FilterShapes(shapes, LoadAll)[i];
            && Fits(model.vertices, i)
            && |Distinct(side.corners)| == 4
            && (forall c :: 0 <= c < 4 ==> 3 * Distinct(side.corners)[c] + 3 <= |attrib.vertices|)
            && SideCenter(model.vertices, i) == SourceCenter(attrib, side)
  {
    var model, side := Load(attrib, shapes, LoadAll).value, FilterShapes(shapes, LoadAll)[i];
    StrideFourLayout(attrib, shapes, LoadAll);
    var d := Distinct(side.corners);
    forall c | 0 <= c < 4
      ensures 3 * d[c] + 3 <= |attrib.vertices|
      ensures VertexAt(model.vertices, 4 * i + c) == VertexAt(attrib.vertices, d[c])
    {
      VertexAtOfSlot(model.vertices, 4 * i + c, attrib.vertices, d[c]);
    }
  }

  /** On a buffer of twelve floats per side every kept id names a non-background side inside the buffer. */
  lemma KeptIdsFit(vertices: seq<real>, sideNames: seq<string>, renderFlags: Option<set<RenderFlag>>)
    requires |vertices| == 12 * |sideNames|
    ensures forall k :: 0 <= k < |NonBackgroundIds(sideNames, renderFlags)| ==>
              var id := NonBackgroundIds(sideNames, renderFlags)[k];
              && id < |sideNames|
              && Fits(vertices, id)
              && !LabelAsBackground(renderFlags, sideNames[id])
  {
    var ids := NonBackgroundIds(sideNames, renderFlags);
    NonBackgroundIdsSpec(sideNames, renderFlags);
    forall k | 0 <= k < |ids|
      ensures ids[k] < |sideNames| && !LabelAsBackground(renderFlags, sideNames[ids[k]])
    {
      assert ids[k] in ids;
    }
  }

  /**
   * Under the documented layout the center computation never raises and
   * records one center per kept side, each that of a non-background side.
   */
  lemma StrideFourSideCenters(attrib: Attrib, shapes: seq<Shape>, renderFlags: Option<set<RenderFlag>>)
    requires Load(attrib, shapes, LoadAll).Success?
    requires StrideFour(FilterShapes(shapes, LoadAll))
    ensures var model, accepted := Load(attrib, shapes, LoadAll).value, FilterShapes(shapes, LoadAll);
            var ids := NonBackgroundIds(model.sideNames, renderFlags);
            && SideCenters(model.vertices, ids).Success?
            && |SideCenters(model.vertices, ids).value| == |ids|
            && forall k :: 0 <= k < |ids| ==>
                 && ids[k] < |accepted|
                 && !LabelAsBackground(renderFlags, accepted[ids[k]].name)
                 && Fits(model.vertices, ids[k])
                 && SideCenters(model.vertices, ids).value[k] == SideCenter(model.vertices, ids[k])
  {
    var model := Load(attrib, shapes, LoadAll).value;
    StrideFourLength(attrib, shapes, LoadAll);
    LoadSideNames(attrib, shapes, LoadAll);
    TwelvePerSideCenters(model.vertices, model.sideNames, renderFlags);
  }

  /** On a buffer of twelve floats per side the center computation succeeds with one center per kept side. */
  lemma TwelvePerSideCenters(vertices: seq<real>, sideNames: seq<string>, renderFlags: Option<set<RenderFlag>>)
    requires |vertices| == 12 * |sideNames|
    ensures var ids := NonBackgroundIds(sideNames, renderFlags);
            && SideCenters(vertices, ids).Success?
            && |SideCenters(vertices, ids).value| == |ids|
            && forall k :: 0 <= k < |ids| ==>
                 && ids[k] < |sideNames|
                 && !LabelAsBackground(renderFlags, sideNames[ids[k]])
                 && Fits(vertices, ids[k])
                 && SideCenters(vertices, ids).value[k] == SideCenter(vertices, ids[k])
  {
    var ids := NonBackgroundIds(sideNames, renderFlags);
    KeptIdsFit(vertices, sideNames, renderFlags);
    TwelvePerSideShape(|sideNames|);
    SideCentersSpec(vertices, ids);
  }

  /** Twelve floats per side reshape both to N x 3 and to N x 4 x 3. */
  lemma TwelvePerSideShape(n: nat)
    ensures (12 * n) % 3 == 0 && (12 * n) % 12 == 0
  {
    assert 12 * n == 3 * (4 * n);
  }

  /** The calculator of a loaded box: the box itself and the center of every kept side. */
  class ExtrinsicsCalculator {
    var box: BoxModel
    var boxSidesCenter: seq<Point>

    /**
     * Loads the box with every side accepted and records the centers of the
     * sides not labelled as background. Loading or the center computation
     * raising is excluded by the preconditions; the functions Load and
     * SideCenters say when they do.
     */
    constructor(attrib: Attrib, shapes: seq<Shape>, renderFlags: Option<set<RenderFlag>>)
      requires Load(attrib, shapes).Success?
      requires var model := Load(attrib, shapes).value;
               SideCenters(model.vertices, NonBackgroundIds(model.sideNames, renderFlags)).Success?
      ensures box == Load(attrib, shapes).value
      ensures boxSidesCenter == SideCenters(box.vertices, NonBackgroundIds(box.sideNames, renderFlags)).value
    {
      var loaded := LoadBoxModel(attrib, shapes);
      var model := loaded.value;
      var validIds := ValidIds(model.sideNames, renderFlags);
      box := model;
      boxSidesCenter := SideCenters(model.vertices, validIds).value;
    }
  }
}
