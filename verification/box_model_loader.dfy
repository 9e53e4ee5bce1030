/**
 * `load_box_model`: keep the shapes whose names pass the load filter, then
 * flatten them into deduplicated position and normal buffers plus a triangle
 * index buffer, remembering which source vertex went to which output slot.
 * Units are those of the OBJ file (millimetres).
 */
module BoxModelLoader {
  import opened Wrappers
  import opened Mesh
  import opened ShapeFilter
  import opened VertexDedup

  /** The dictionary `load_box_model` returns. */
  datatype BoxModel = BoxModel(
    sideNames: seq<string>,
    vertices: seq<real>,
    normals: seq<real>,
    indices: seq<nat>,
    indexMap: map<nat, nat>)

  function Names(shapes: seq<Shape>): seq<string>
  {
    seq(|shapes|, i requires 0 <= i < |shapes| => shapes[i].name)
  }

  /** Reference definition of the loader: filter, then deduplicate the accepted corners in order. */
  function Load(attrib: Attrib, shapes: seq<Shape>, flags: set<LoadFlag> := LoadAll): (r: Result<BoxModel, LoadError>)
  {
    var accepted := FilterShapes(shapes, flags);
    match Dedup(attrib, Corners(accepted))
    case Failure(e) => Failure(e)
    case Success(b) => Success(BoxModel(Names(accepted), b.vertices, b.normals, b.indices, b.indexMap))
  }

  /**
   * The loader's loop over the accepted shapes. An attribute read past the
   * end of its table raises, and no model is returned.
   */
  method LoadBoxModel(attrib: Attrib, shapes: seq<Shape>, flags: set<LoadFlag> := LoadAll) returns (r: Result<BoxModel, LoadError>)
    ensures r == Load(attrib, shapes, flags)
  {
    var filteredShapes := FilterShapes(shapes, flags);
    var sideNames: seq<string> := [];
    var vertices: seq<real> := [];
    var normals: seq<real> := [];
    var indices: seq<nat> := [];
    var indexMap: map<nat, nat> := map[];
    var s := 0;
    while s < |filteredShapes|
      invariant 0 <= s <= |filteredShapes|
      invariant sideNames == Names(filteredShapes[..s])
      invariant Dedup(attrib, Corners(filteredShapes[..s])) == Success(Buffers(indexMap, vertices, normals, indices))
    {
      var shape := filteredShapes[s];
      NextShape(filteredShapes, s);
      sideNames := sideNames + [shape.name];
      var walked := AppendCorners(attrib, Corners(filteredShapes[..s]), shape.corners,
                                  Buffers(indexMap, vertices, normals, indices));
      if walked.Failure? {
        LoadRaises(attrib, filteredShapes, s);
        r := Failure(walked.error);
        return;
      }
      indexMap, vertices, normals, indices :=
        walked.value.indexMap, walked.value.vertices, walked.value.normals, walked.value.indices;
      s := s + 1;
    }
    assert filteredShapes[..|filteredShapes|] == filteredShapes;
    r := Success(BoxModel(sideNames, vertices, normals, indices, indexMap));
  }

  /** Taking one more shape adds its name and its corners at the end. */
  lemma NextShape(shapes: seq<Shape>, s: nat)
    requires s < |shapes|
    ensures Names(shapes[..s + 1]) == Names(shapes[..s]) + [shapes[s].name]
    ensures Corners(shapes[..s + 1]) == Corners(shapes[..s]) + shapes[s].corners
  {
    assert shapes[..s + 1][..s] == shapes[..s];
  }

  /**
   * The inner loop over one shape's corners, continuing the walk over the
   * corners `done` of the shapes before it: reuse the index of a known
   * vertex, or allocate `len(index_map)` and copy the vertex's attributes.
   */
  method AppendCorners(attrib: Attrib, ghost done: seq<Corner>, corners: seq<Corner>, start: Buffers)
    returns (r: Result<Buffers, LoadError>)
    requires Dedup(attrib, done) == Success(start)
    ensures r == Dedup(attrib, done + corners)
  {
    var indexMap: map<nat, nat> := start.indexMap;
    var vertices: seq<real> := start.vertices;
    var normals: seq<real> := start.normals;
    var indices: seq<nat> := start.indices;
    var k := 0;
    assert done + corners[..0] == done;
    while k < |corners|
      invariant 0 <= k <= |corners|
      invariant Dedup(attrib, done + corners[..k]) == Success(Buffers(indexMap, vertices, normals, indices))
    {
      var idx := corners[k];
      ghost var walked := done + corners[..k];
      assert corners[..k + 1] == corners[..k] + [idx];
      assert done + corners[..k + 1] == walked + [idx];
      DedupStep(attrib, walked, idx);
      var index: nat;
      if idx.vertexIndex in indexMap {
        index := indexMap[idx.vertexIndex];
      } else {
        var newIdx := |indexMap|;
        indexMap := indexMap[idx.vertexIndex := newIdx];
        index := newIdx;
        var copied := CopyAttributes(attrib, idx, vertices, normals);
        if copied.Failure? {
          CornersRaise(attrib, done, corners, k);
          return Failure(copied.error);
        }
        vertices, normals := copied.value.0, copied.value.1;
      }
      indices := indices + [index];
      k := k + 1;
    }
    assert corners[..|corners|] == corners;
    return Success(Buffers(indexMap, vertices, normals, indices));
  }

  /** An IndexError at corner k of a shape is the outcome of the whole shape. */
  lemma CornersRaise(attrib: Attrib, done: seq<Corner>, corners: seq<Corner>, k: nat)
    requires k < |corners|
    requires Dedup(attrib, done + corners[..k + 1]).Failure?
    ensures Dedup(attrib, done + corners) == Dedup(attrib, done + corners[..k + 1])
  {
    assert done + corners == (done + corners[..k + 1]) + corners[k + 1..];
    DedupFailurePersists(attrib, done + corners[..k + 1], corners[k + 1..]);
  }

  /** An IndexError in accepted shape s is the loader's result. */
  lemma LoadRaises(attrib: Attrib, accepted: seq<Shape>, s: nat)
    requires s < |accepted|
    requires Dedup(attrib, Corners(accepted[..s]) + accepted[s].corners).Failure?
    ensures Dedup(attrib, Corners(accepted)) == Dedup(attrib, Corners(accepted[..s]) + accepted[s].corners)
  {
    CornersSplit(accepted, s);
    DedupFailurePersists(attrib, Corners(accepted[..s]) + accepted[s].corners, Corners(accepted[s + 1..]));
  }

  /**
   * The `for j in range(3)` loop for a newly seen vertex: append its x, y, z
   * and those of the corner's normal, raising IndexError at the first read
   * past the end of a table.
   */
  method CopyAttributes(attrib: Attrib, idx: Corner, vertices: seq<real>, normals: seq<real>)
    returns (r: Result<(seq<real>, seq<real>), LoadError>)
    ensures HasAttributes(attrib, idx) ==>
              r == Success((vertices + Slot(attrib.vertices, idx.vertexIndex), normals + Slot(attrib.normals, idx.normalIndex)))
    ensures !HasAttributes(attrib, idx) ==> r == Failure(IndexError(idx))
  {
    var v, n := 3 * idx.vertexIndex, 3 * idx.normalIndex;
    var vs, ns := vertices, normals;
    for j := 0 to 3
      invariant j > 0 ==> v + j <= |attrib.vertices| && n + j <= |attrib.normals|
      invariant j > 0 ==> vs == vertices + attrib.vertices[v..v + j] && ns == normals + attrib.normals[n..n + j]
      invariant j == 0 ==> vs == vertices && ns == normals
    {
      if v + j >= |attrib.vertices| {
        return Failure(IndexError(idx));
      }
      vs := vs + [attrib.vertices[v + j]];
      if n + j >= |attrib.normals| {
        return Failure(IndexError(idx));
      }
      ns := ns + [attrib.normals[n + j]];
      assert attrib.vertices[v..v + j + 1] == attrib.vertices[v..v + j] + [attrib.vertices[v + j]];
      assert attrib.normals[n..n + j + 1] == attrib.normals[n..n + j] + [attrib.normals[n + j]];
    }
    return Success((vs, ns));
  }

  // ------------------------------------------------------------ properties

  /** The corners the loader walks: those of the accepted shapes, in order. */
  function AcceptedCorners(shapes: seq<Shape>, flags: set<LoadFlag>): seq<Corner>
  {
    Corners(FilterShapes(shapes, flags))
  }

  /** What a successful Load is made of. */
  lemma LoadParts(attrib: Attrib, shapes: seq<Shape>, flags: set<LoadFlag>)
    requires Load(attrib, shapes, flags).Success?
    ensures Dedup(attrib, AcceptedCorners(shapes, flags)).Success?
    ensures var model, b := Load(attrib, shapes, flags).value, Dedup(attrib, AcceptedCorners(shapes, flags)).value;
            && model.sideNames == Names(FilterShapes(shapes, flags))
            && model.vertices == b.vertices && model.normals == b.normals
            && model.indices == b.indices && model.indexMap == b.indexMap
  {
  }

  lemma LoadConsistent(attrib: Attrib, shapes: seq<Shape>, flags: set<LoadFlag>)
    requires Load(attrib, shapes, flags).Success?
    ensures var model := Load(attrib, shapes, flags).value;
            Consistent(attrib, AcceptedCorners(shapes, flags),
                       Buffers(model.indexMap, model.vertices, model.normals, model.indices))
  {
    DedupConsistent(attrib, AcceptedCorners(shapes, flags));
  }

  lemma {:induction false} NamesSubsequence(a: seq<Shape>, b: seq<Shape>)
    requires IsSubsequence(a, b)
    ensures IsSubsequence(Names(a), Names(b))
    decreases |b|
  {
    if a != [] {
      var a', b' := a[..|a| - 1], b[..|b| - 1];
      assert Names(a)[..|a| - 1] == Names(a');
      assert Names(b)[..|b| - 1] == Names(b');
      if a[|a| - 1] == b[|b| - 1] && IsSubsequence(a', b') {
        NamesSubsequence(a', b');
      } else {
        NamesSubsequence(a, b');
      }
    }
  }

  /**
   * `side_names` has one entry per accepted shape, in encounter order, whether
   * or not the shape added vertices: it is the subsequence of the input names
   * that pass the load filter.
   */
  lemma LoadSideNames(attrib: Attrib, shapes: seq<Shape>, flags: set<LoadFlag>)
    requires Load(attrib, shapes, flags).Success?
    ensures var model, accepted := Load(attrib, shapes, flags).value, FilterShapes(shapes, flags);
            && |model.sideNames| == |accepted|
            && (forall i :: 0 <= i < |accepted| ==> model.sideNames[i] == accepted[i].name)
            && (forall i :: 0 <= i < |accepted| ==> FilterShape(model.sideNames[i], flags))
            && IsSubsequence(model.sideNames, Names(shapes))
  {
    var accepted := FilterShapes(shapes, flags);
    LoadParts(attrib, shapes, flags);
    FilterShapesSpec(shapes, flags);
    forall i | 0 <= i < |accepted| ensures FilterShape(accepted[i].name, flags) {
      assert accepted[i] in accepted;
    }
    NamesSubsequence(accepted, shapes);
  }

  /**
   * `indices` has exactly one entry per accepted corner, in traversal order,
   * each the output index of that corner's vertex, and every entry is a valid
   * output vertex.
   */
  lemma LoadIndexCount(attrib: Attrib, shapes: seq<Shape>, flags: set<LoadFlag>)
    requires Load(attrib, shapes, flags).Success?
    ensures var model, cs := Load(attrib, shapes, flags).value, AcceptedCorners(shapes, flags);
            && |model.indices| == |cs|
            && (forall k :: 0 <= k < |cs| ==>
                  cs[k].vertexIndex in model.indexMap && model.indices[k] == model.indexMap[cs[k].vertexIndex])
            && (forall k :: 0 <= k < |cs| ==> model.indices[k] < |model.indexMap|)
  {
    LoadConsistent(attrib, shapes, flags);
  }

  /** Accepted shape i contributes its corners' indices, in its own corner order, right after those of the shapes before it. */
  lemma LoadShapeIndices(attrib: Attrib, shapes: seq<Shape>, flags: set<LoadFlag>, i: nat)
    requires Load(attrib, shapes, flags).Success?
    requires i < |FilterShapes(shapes, flags)|
    ensures var model, accepted := Load(attrib, shapes, flags).value, FilterShapes(shapes, flags);
            var start := |Corners(accepted[..i])|;
            && start + |accepted[i].corners| <= |model.indices|
            && forall k :: 0 <= k < |accepted[i].corners| ==>
                 && accepted[i].corners[k].vertexIndex in model.indexMap
                 && model.indices[start + k] == model.indexMap[accepted[i].corners[k].vertexIndex]
  {
    var model, accepted := Load(attrib, shapes, flags).value, FilterShapes(shapes, flags);
    var start := |Corners(accepted[..i])|;
    var own := accepted[i].corners;
    ShapeCornersAt(accepted, i);
    LoadIndexCount(attrib, shapes, flags);
    var cs := AcceptedCorners(shapes, flags);
    forall k | 0 <= k < |own|
      ensures own[k].vertexIndex in model.indexMap && model.indices[start + k] == model.indexMap[own[k].vertexIndex]
    {
      assert cs[start + k] == own[k];
    }
  }

  /** The corners of shape i sit at positions start..start+|corners| of the concatenation. */
  lemma ShapeCornersAt(shapes: seq<Shape>, i: nat)
    requires i < |shapes|
    ensures var start := |Corners(shapes[..i])|;
            && start + |shapes[i].corners| <= |Corners(shapes)|
            && forall k :: 0 <= k < |shapes[i].corners| ==> Corners(shapes)[start + k] == shapes[i].corners[k]
  {
    CornersSplit(shapes, i);
  }

  /**
   * The keys of `index_map` are exactly the vertex indices of the accepted
   * corners, and it numbers them 0, 1, ... in first-seen order: a bijection
   * onto 0..len(index_map)-1.
   */
  lemma LoadIndexMap(attrib: Attrib, shapes: seq<Shape>, flags: set<LoadFlag>)
    requires Load(attrib, shapes, flags).Success?
    ensures var m, order := Load(attrib, shapes, flags).value.indexMap, Distinct(AcceptedCorners(shapes, flags));
            && m.Keys == VertexSet(AcceptedCorners(shapes, flags))
            && |m| == |order|
            && (forall k :: 0 <= k < |order| ==> order[k] in m && m[order[k]] == k)
            && (forall v :: v in m ==> m[v] < |m| && order[m[v]] == v)
            && (forall v, w :: v in m && w in m && m[v] == m[w] ==> v == w)
  {
    LoadConsistent(attrib, shapes, flags);
  }

  /**
   * The buffers stay in lock-step (three floats per output vertex) and every
   * triangle index points at the position of its own corner's vertex and at
   * the normal of the first corner that named that vertex; later corners with
   * a different normal index change nothing.
   */
  lemma LoadBuffers(attrib: Attrib, shapes: seq<Shape>, flags: set<LoadFlag>)
    requires Load(attrib, shapes, flags).Success?
    ensures var model, cs := Load(attrib, shapes, flags).value, AcceptedCorners(shapes, flags);
            && |model.vertices| == 3 * |model.indexMap|
            && |model.normals| == 3 * |model.indexMap|
            && |model.indices| == |cs|
            && (forall k :: 0 <= k < |cs| ==> model.indices[k] < |model.indexMap|)
            && (forall k :: 0 <= k < |cs| ==> 3 * cs[k].vertexIndex + 3 <= |attrib.vertices|)
            && (forall k :: 0 <= k < |cs| ==>
                  Slot(model.vertices, model.indices[k]) == Slot(attrib.vertices, cs[k].vertexIndex))
            && (forall i :: 0 <= i < |cs| && FirstSight(cs, i) ==> 3 * cs[i].normalIndex + 3 <= |attrib.normals|)
            && (forall i, k :: 0 <= i <= k < |cs| && FirstSight(cs, i) && cs[k].vertexIndex == cs[i].vertexIndex ==>
                  Slot(model.normals, model.indices[k]) == Slot(attrib.normals, cs[i].normalIndex))
  {
    LoadConsistent(attrib, shapes, flags);
    var model, cs := Load(attrib, shapes, flags).value, AcceptedCorners(shapes, flags);
    var m, order := model.indexMap, Distinct(cs);
    forall k | 0 <= k < |cs|
      ensures 3 * cs[k].vertexIndex + 3 <= |attrib.vertices|
      ensures Slot(model.vertices, model.indices[k]) == Slot(attrib.vertices, cs[k].vertexIndex)
    {
      assert order[m[cs[k].vertexIndex]] == cs[k].vertexIndex;
    }
  }

  /** `len(vertices) / 3` and `len(normals) / 3` are the number of distinct vertex indices among the accepted corners. */
  lemma LoadVertexCount(attrib: Attrib, shapes: seq<Shape>, flags: set<LoadFlag>)
    requires Load(attrib, shapes, flags).Success?
    ensures var model := Load(attrib, shapes, flags).value;
            && |model.vertices| == 3 * |VertexSet(AcceptedCorners(shapes, flags))|
            && |model.normals| == |model.vertices|
  {
    LoadConsistent(attrib, shapes, flags);
    DistinctLength(AcceptedCorners(shapes, flags));
  }

  /**
   * The loader raises exactly when an accepted corner that introduces a new
   * vertex points past the end of the position or normal table; it reports
   * the first such corner.
   */
  lemma LoadFailsIff(attrib: Attrib, shapes: seq<Shape>, flags: set<LoadFlag>)
    ensures Load(attrib, shapes, flags).Failure? <==>
              exists i :: MissingAttributes(attrib, AcceptedCorners(shapes, flags), i)
    ensures Load(attrib, shapes, flags).Failure? ==>
              exists i :: FirstMissing(attrib, AcceptedCorners(shapes, flags), i) &&
                          Load(attrib, shapes, flags).error == IndexError(AcceptedCorners(shapes, flags)[i])
  {
    DedupFailsIff(attrib, AcceptedCorners(shapes, flags));
  }

  // ------------------------------------------------- the documented layout

  /**
   * The assumption the documented layout rests on: every accepted shape names
   * exactly four source vertices and no two accepted shapes share one.
   */
  ghost predicate StrideFour(accepted: seq<Shape>)
  {
    && (forall i :: 0 <= i < |accepted| ==> |VertexSet(accepted[i].corners)| == 4)
    && (forall i, j :: 0 <= i < j < |accepted| ==> VertexSet(accepted[i].corners) !! VertexSet(accepted[j].corners))
  }

  lemma {:induction false} VertexSetOfCorners(shapes: seq<Shape>, v: nat)
    requires v in VertexSet(Corners(shapes))
    ensures exists j :: 0 <= j < |shapes| && v in VertexSet(shapes[j].corners)
    decreases |shapes|
  {
    var n := |shapes|;
    var p := shapes[..n - 1];
    VertexSetAppend(Corners(p), shapes[n - 1].corners);
    if v !in VertexSet(shapes[n - 1].corners) {
      VertexSetOfCorners(p, v);
      var j :| 0 <= j < |p| && v in VertexSet(p[j].corners);
      assert p[j] == shapes[j];
    }
  }

  /** Under StrideFour the first-seen list is the shapes' four vertices, shape after shape. */
  lemma {:induction false} DistinctOfStrideFour(shapes: seq<Shape>)
    requires StrideFour(shapes)
    ensures forall i :: 0 <= i < |shapes| ==> |Distinct(shapes[i].corners)| == 4
    ensures |Distinct(Corners(shapes))| == 4 * |shapes|
    ensures forall i, k :: 0 <= i < |shapes| && 0 <= k < 4 ==>
              Distinct(Corners(shapes))[4 * i + k] == Distinct(shapes[i].corners)[k]
    decreases |shapes|
  {
    StrideFourSizes(shapes);
    if shapes != [] {
      StrideFourPrefix(shapes);
      DistinctOfStrideFour(shapes[..|shapes| - 1]);
      StrideFourStep(shapes);
    }
  }

  /** The layout of all shapes follows from the layout of all but the last. */
  lemma StrideFourStep(shapes: seq<Shape>)
    requires StrideFour(shapes) && shapes != []
    requires forall i :: 0 <= i < |shapes| ==> |Distinct(shapes[i].corners)| == 4
    requires var p := shapes[..|shapes| - 1];
             && |Distinct(Corners(p))| == 4 * |p|
             && forall i, k :: 0 <= i < |p| && 0 <= k < 4 ==> Distinct(Corners(p))[4 * i + k] == Distinct(shapes[i].corners)[k]
    ensures |Distinct(Corners(shapes))| == 4 * |shapes|
    ensures forall i, k :: 0 <= i < |shapes| && 0 <= k < 4 ==>
              Distinct(Corners(shapes))[4 * i + k] == Distinct(shapes[i].corners)[k]
  {
    var p, last := shapes[..|shapes| - 1], shapes[|shapes| - 1];
    StrideFourEarlierDisjoint(shapes, |shapes| - 1);
    DistinctAppend(Corners(p), last.corners);
    StrideFourConcat(shapes, Distinct(Corners(p)), Distinct(last.corners));
  }

  /** Under StrideFour every shape's first-seen list has four entries. */
  lemma StrideFourSizes(shapes: seq<Shape>)
    requires StrideFour(shapes)
    ensures forall i :: 0 <= i < |shapes| ==> |Distinct(shapes[i].corners)| == 4
  {
    forall i | 0 <= i < |shapes| ensures |Distinct(shapes[i].corners)| == 4 {
      DistinctLength(shapes[i].corners);
    }
  }

  /** Dropping the last shape keeps StrideFour, and the earlier shapes stay where they were. */
  lemma StrideFourPrefix(shapes: seq<Shape>)
    requires StrideFour(shapes) && shapes != []
    ensures StrideFour(shapes[..|shapes| - 1])
    ensures forall i :: 0 <= i < |shapes| - 1 ==> shapes[..|shapes| - 1][i] == shapes[i]
  {
  }

  /** Under StrideFour shape i shares no vertex with the shapes before it. */
  lemma StrideFourEarlierDisjoint(shapes: seq<Shape>, i: nat)
    requires StrideFour(shapes) && i < |shapes|
    ensures VertexSet(Corners(shapes[..i])) !! VertexSet(shapes[i].corners)
  {
    var p := shapes[..i];
    forall v | v in VertexSet(Corners(p)) ensures v !in VertexSet(shapes[i].corners) {
      VertexSetOfCorners(p, v);
      var j :| 0 <= j < |p| && v in VertexSet(p[j].corners);
      assert p[j] == shapes[j];
    }
  }

  /** Four-entry groups laid out side after side stay in place when the last side's group is appended. */
  lemma StrideFourConcat(shapes: seq<Shape>, x: seq<nat>, y: seq<nat>)
    requires shapes != []
    requires forall i :: 0 <= i < |shapes| ==> |Distinct(shapes[i].corners)| == 4
    requires |x| == 4 * (|shapes| - 1)
    requires forall i, k :: 0 <= i < |shapes| - 1 && 0 <= k < 4 ==> x[4 * i + k] == Distinct(shapes[i].corners)[k]
    requires y == Distinct(shapes[|shapes| - 1].corners)
    ensures forall i, k :: 0 <= i < |shapes| && 0 <= k < 4 ==> (x + y)[4 * i + k] == Distinct(shapes[i].corners)[k]
  {
    forall i, k | 0 <= i < |shapes| && 0 <= k < 4
      ensures (x + y)[4 * i + k] == Distinct(shapes[i].corners)[k]
    {
      if i < |shapes| - 1 {
        assert (x + y)[4 * i + k] == x[4 * i + k];
      }
    }
  }

  /**
   * The layout the loader's doc comment promises, under StrideFour: four
   * output vertices per side, side i's vertices in slots 4i..4i+3 (floats
   * 12i..12i+11), in the order the side first names them.
   */
  lemma StrideFourLayout(attrib: Attrib, shapes: seq<Shape>, flags: set<LoadFlag>)
    requires Load(attrib, shapes, flags).Success?
    requires StrideFour(FilterShapes(shapes, flags))
    ensures var model, accepted := Load(attrib, shapes, flags).value, FilterShapes(shapes, flags);
            && |model.sideNames| == |accepted|
            && |model.vertices| == 12 * |accepted| && |model.normals| == 12 * |accepted|
            && (forall i :: 0 <= i < |accepted| ==> |Distinct(accepted[i].corners)| == 4)
            && (forall i, k :: 0 <= i < |accepted| && 0 <= k < 4 ==>
                  var v := Distinct(accepted[i].corners)[k];
                  && v in model.indexMap && model.indexMap[v] == 4 * i + k
                  && 3 * v + 3 <= |attrib.vertices|
                  && Slot(model.vertices, 4 * i + k) == Slot(attrib.vertices, v))
  {
    var model, accepted := Load(attrib, shapes, flags).value, FilterShapes(shapes, flags);
    var order := Distinct(AcceptedCorners(shapes, flags));
    LoadSideNames(attrib, shapes, flags);
    LoadConsistent(attrib, shapes, flags);
    DistinctOfStrideFour(accepted);
    forall i, k | 0 <= i < |accepted| && 0 <= k < 4
      ensures var v := Distinct(accepted[i].corners)[k];
              && v in model.indexMap && model.indexMap[v] == 4 * i + k
              && 3 * v + 3 <= |attrib.vertices|
              && Slot(model.vertices, 4 * i + k) == Slot(attrib.vertices, v)
    {
      assert order[4 * i + k] == Distinct(accepted[i].corners)[k];
    }
  }

  /**
   * The normals half of the documented layout, under StrideFour: the normal
   * in slot 4i+k is that of the first corner of side i that names the side's
   * k-th vertex.
   */
  lemma StrideFourNormal(attrib: Attrib, shapes: seq<Shape>, flags: set<LoadFlag>, i: nat, k: nat)
    requires Load(attrib, shapes, flags).Success?
    requires StrideFour(FilterShapes(shapes, flags))
    requires i < |FilterShapes(shapes, flags)| && k < 4
    ensures var model, own := Load(attrib, shapes, flags).value, FilterShapes(shapes, flags)[i].corners;
            && |Distinct(own)| == 4
            && 12 * i + 12 <= |model.normals|
            && exists j :: && 0 <= j < |own| && FirstSight(own, j)
                           && own[j].vertexIndex == Distinct(own)[k]
                           && 3 * own[j].normalIndex + 3 <= |attrib.normals|
                           && Slot(model.normals, 4 * i + k) == Slot(attrib.normals, own[j].normalIndex)
  {
    var model, accepted := Load(attrib, shapes, flags).value, FilterShapes(shapes, flags);
    var own := accepted[i].corners;
    StrideFourSizes(accepted);
    StrideFourLength(attrib, shapes, flags);
    LoadSideNames(attrib, shapes, flags);
    var j := FirstSightOf(own, k);
    var at := SideFirstSight(accepted, i, j);
    LoadConsistent(attrib, shapes, flags);
    NormalOfFirstSight(attrib, AcceptedCorners(shapes, flags), Buffers(model.indexMap, model.vertices, model.normals, model.indices), at);
    StrideFourSlot(attrib, shapes, flags, i, k);
    assert Slot(model.normals, 4 * i + k) == Slot(attrib.normals, own[j].normalIndex);
  }

  /** The slot StrideFourLayout gives the k-th vertex of side i. */
  lemma StrideFourSlot(attrib: Attrib, shapes: seq<Shape>, flags: set<LoadFlag>, i: nat, k: nat)
    requires Load(attrib, shapes, flags).Success?
    requires StrideFour(FilterShapes(shapes, flags))
    requires i < |FilterShapes(shapes, flags)| && k < 4
    ensures var model, own := Load(attrib, shapes, flags).value, FilterShapes(shapes, flags)[i].corners;
            && |Distinct(own)| == 4
            && Distinct(own)[k] in model.indexMap && model.indexMap[Distinct(own)[k]] == 4 * i + k
  {
    StrideFourLayout(attrib, shapes, flags);
  }

  /** Corner j of shape i, a first sight within its shape, is a first sight among all corners under StrideFour. */
  lemma SideFirstSight(shapes: seq<Shape>, i: nat, j: nat) returns (at: nat)
    requires StrideFour(shapes) && i < |shapes|
    requires j < |shapes[i].corners| && FirstSight(shapes[i].corners, j)
    ensures at < |Corners(shapes)| && Corners(shapes)[at] == shapes[i].corners[j] && FirstSight(Corners(shapes), at)
  {
    var own := shapes[i].corners;
    StrideFourEarlierDisjoint(shapes, i);
    CornersSplit(shapes, i);
    assert own[j] in own;
    FirstSightShift(Corners(shapes[..i]), own, Corners(shapes[i + 1..]), j);
    at := |Corners(shapes[..i])| + j;
  }

  /** Under StrideFour the buffers hold exactly twelve floats per side. */
  lemma StrideFourLength(attrib: Attrib, shapes: seq<Shape>, flags: set<LoadFlag>)
    requires Load(attrib, shapes, flags).Success?
    requires StrideFour(FilterShapes(shapes, flags))
    ensures var model := Load(attrib, shapes, flags).value;
            && |model.vertices| == 12 * |model.sideNames| && |model.normals| == 12 * |model.sideNames|
  {
    LoadSideNames(attrib, shapes, flags);
    LoadVertexCount(attrib, shapes, flags);
    DistinctOfStrideFour(FilterShapes(shapes, flags));
    DistinctLength(AcceptedCorners(shapes, flags));
  }

  ghost predicate AllWithin(xs: seq<nat>, lo: nat, hi: nat)
  {
    forall x :: x in xs ==> lo <= x < hi
  }

  /** Under StrideFour every vertex side i names sits in side i's group of four output slots. */
  lemma StrideFourGroup(attrib: Attrib, shapes: seq<Shape>, flags: set<LoadFlag>, i: nat, v: nat)
    requires Load(attrib, shapes, flags).Success?
    requires StrideFour(FilterShapes(shapes, flags))
    requires i < |FilterShapes(shapes, flags)|
    requires v in VertexSet(FilterShapes(shapes, flags)[i].corners)
    ensures v in Load(attrib, shapes, flags).value.indexMap
    ensures 4 * i <= Load(attrib, shapes, flags).value.indexMap[v] < 4 * i + 4
  {
    var own := FilterShapes(shapes, flags)[i].corners;
    StrideFourLayout(attrib, shapes, flags);
    DistinctElements(own);
    var q :| 0 <= q < |Distinct(own)| && Distinct(own)[q] == v;
  }

  /** Under StrideFour the triangle indices of side i point only at side i's four vertices. */
  lemma StrideFourIndices(attrib: Attrib, shapes: seq<Shape>, flags: set<LoadFlag>, i: nat)
    requires Load(attrib, shapes, flags).Success?
    requires StrideFour(FilterShapes(shapes, flags))
    requires i < |FilterShapes(shapes, flags)|
    ensures var model, accepted := Load(attrib, shapes, flags).value, FilterShapes(shapes, flags);
            var start := |Corners(accepted[..i])|;
            && start + |accepted[i].corners| <= |model.indices|
            && AllWithin(model.indices[start..start + |accepted[i].corners|], 4 * i, 4 * i + 4)
  {
    var model, accepted := Load(attrib, shapes, flags).value, FilterShapes(shapes, flags);
    var own := accepted[i].corners;
    LoadShapeIndices(attrib, shapes, flags, i);
    var start := |Corners(accepted[..i])|;
    forall k | 0 <= k < |own|
      ensures && own[k].vertexIndex in model.indexMap
              && model.indices[start + k] == model.indexMap[own[k].vertexIndex]
              && 4 * i <= model.indexMap[own[k].vertexIndex] < 4 * i + 4
    {
      assert own[k] in own;
      StrideFourGroup(attrib, shapes, flags, i, own[k].vertexIndex);
    }
    RunWithin(model.indices, model.indexMap, own, start, 4 * i);
  }

  /** A run of indices read through `indexMap` from corners whose slots lie in one group of four stays in it. */
  lemma RunWithin(indices: seq<nat>, indexMap: map<nat, nat>, own: seq<Corner>, start: nat, lo: nat)
    requires start + |own| <= |indices|
    requires forall k :: 0 <= k < |own| ==>
               && own[k].vertexIndex in indexMap
               && indices[start + k] == indexMap[own[k].vertexIndex]
               && lo <= indexMap[own[k].vertexIndex] < lo + 4
    ensures AllWithin(indices[start..start + |own|], lo, lo + 4)
  {
    var run := indices[start..start + |own|];
    forall x | x in run
      ensures lo <= x < lo + 4
    {
      var k :| 0 <= k < |run| && run[k] == x;
      assert run[k] == indices[start + k] == indexMap[own[k].vertexIndex];
    }
  }

  lemma {:induction false} CornersOfSixes(shapes: seq<Shape>)
    requires forall i :: 0 <= i < |shapes| ==> |shapes[i].corners| == 6
    ensures |Corners(shapes)| == 6 * |shapes|
    decreases |shapes|
  {
    if shapes != [] {
      var p := shapes[..|shapes| - 1];
      assert forall i :: 0 <= i < |p| ==> p[i] == shapes[i];
      CornersOfSixes(p);
    }
  }

  lemma CornersOfSixesPrefix(shapes: seq<Shape>, n: nat)
    requires n <= |shapes|
    requires forall i :: 0 <= i < |shapes| ==> |shapes[i].corners| == 6
    ensures |Corners(shapes[..n])| == 6 * n
  {
    var p := shapes[..n];
    assert forall i :: 0 <= i < |p| ==> p[i] == shapes[i];
    CornersOfSixes(p);
  }

  /** Sides of two triangles each (six corners) give six indices per side, side i's at 6i..6i+5. */
  lemma SixIndicesPerSide(attrib: Attrib, shapes: seq<Shape>, flags: set<LoadFlag>)
    requires Load(attrib, shapes, flags).Success?
    requires forall i :: 0 <= i < |FilterShapes(shapes, flags)| ==> |FilterShapes(shapes, flags)[i].corners| == 6
    ensures var model, accepted := Load(attrib, shapes, flags).value, FilterShapes(shapes, flags);
            && |model.indices| == 6 * |model.sideNames|
            && forall i, k :: 0 <= i < |accepted| && 0 <= k < 6 ==>
                 && accepted[i].corners[k].vertexIndex in model.indexMap
                 && model.indices[6 * i + k] == model.indexMap[accepted[i].corners[k].vertexIndex]
  {
    var accepted := FilterShapes(shapes, flags);
    LoadParts(attrib, shapes, flags);
    LoadIndexCount(attrib, shapes, flags);
    CornersOfSixes(accepted);
    var model := Load(attrib, shapes, flags).value;
    forall i, k | 0 <= i < |accepted| && 0 <= k < 6
      ensures && accepted[i].corners[k].vertexIndex in model.indexMap
              && model.indices[6 * i + k] == model.indexMap[accepted[i].corners[k].vertexIndex]
    {
      CornersOfSixesPrefix(accepted, i);
      LoadShapeIndices(attrib, shapes, flags, i);
    }
  }

  /** A side that names at most four vertices adds at most four to the shapes' vertex set. */
  lemma {:induction false} VertexSetBound(shapes: seq<Shape>)
    requires forall i :: 0 <= i < |shapes| ==> |VertexSet(shapes[i].corners)| <= 4
    ensures |VertexSet(Corners(shapes))| <= 4 * |shapes|
    decreases |shapes|
  {
    if shapes != [] {
      var p := shapes[..|shapes| - 1];
      assert forall i :: 0 <= i < |p| ==> p[i] == shapes[i];
      VertexSetBound(p);
      VertexSetAppend(Corners(p), shapes[|shapes| - 1].corners);
    }
  }

  lemma ShapeVerticesInCorners(shapes: seq<Shape>, k: nat)
    requires k < |shapes|
    ensures VertexSet(shapes[k].corners) <= VertexSet(Corners(shapes))
  {
    CornersSplit(shapes, k);
    VertexSetAppend(Corners(shapes[..k]), shapes[k].corners);
    VertexSetAppend(Corners(shapes[..k]) + shapes[k].corners, Corners(shapes[k + 1..]));
  }

  /** Two sides that share a vertex leave fewer than four vertices per side. */
  lemma {:induction false} SharedVertexBound(shapes: seq<Shape>, i: nat, j: nat)
    requires forall k :: 0 <= k < |shapes| ==> |VertexSet(shapes[k].corners)| <= 4
    requires i < j < |shapes|
    requires !(VertexSet(shapes[i].corners) !! VertexSet(shapes[j].corners))
    ensures |VertexSet(Corners(shapes))| < 4 * |shapes|
  {
    var before, after := shapes[..j], shapes[j + 1..];
    var a, b, c := Corners(before), shapes[j].corners, Corners(after);
    CornersSplit(shapes, j);
    VertexSetAppend(a, b);
    VertexSetAppend(a + b, c);
    assert VertexSet(Corners(shapes)) == VertexSet(a) + VertexSet(b) + VertexSet(c);
    assert forall k :: 0 <= k < |before| ==> before[k] == shapes[k];
    assert forall k :: 0 <= k < |after| ==> after[k] == shapes[j + 1 + k];
    VertexSetBound(before);
    VertexSetBound(after);
    ShapeVerticesInCorners(before, i);
    var v :| v in VertexSet(shapes[i].corners) && v in VertexSet(shapes[j].corners);
    var sa, sb := VertexSet(a), VertexSet(b);
    assert v in sa * sb;
    assert |sa + sb| + |sa * sb| == |sa| + |sb|;
    assert |sa + sb| < 4 * j + 4;
  }

  /**
   * Without the disjointness half of StrideFour the documented layout fails:
   * when two accepted sides that each name at most four vertices share one,
   * the loader emits fewer than four vertices (twelve floats) per side, so
   * cutting the buffer into one group of four per side cannot work.
   */
  lemma SharedVertexBreaksStride(attrib: Attrib, shapes: seq<Shape>, flags: set<LoadFlag>, i: nat, j: nat)
    requires Load(attrib, shapes, flags).Success?
    requires var accepted := FilterShapes(shapes, flags);
             && (forall k :: 0 <= k < |accepted| ==> |VertexSet(accepted[k].corners)| <= 4)
             && i < j < |accepted|
             && !(VertexSet(accepted[i].corners) !! VertexSet(accepted[j].corners))
    ensures var model := Load(attrib, shapes, flags).value;
            |model.vertices| < 12 * |model.sideNames|
  {
    LoadVertexCount(attrib, shapes, flags);
    LoadSideNames(attrib, shapes, flags);
    SharedVertexBound(FilterShapes(shapes, flags), i, j);
  }
}
