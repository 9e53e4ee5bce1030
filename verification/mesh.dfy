/**
 * The mesh as the OBJ reader hands it to the box-model loader: flat attribute
 * tables and named shapes whose corners index those tables.
 */
module Mesh {

  /**
   * One triangle corner. The position and the normal are looked up
   * independently: two corners with the same vertex index may carry
   * different normal indices.
   */
  datatype Corner = Corner(vertexIndex: nat, normalIndex: nat)

  /** A named triangle group of the OBJ file (one side of the box). */
  datatype Shape = Shape(name: string, corners: seq<Corner>)

  /** The attribute tables: 3 floats per position, 3 floats per normal. */
  datatype Attrib = Attrib(vertices: seq<real>, normals: seq<real>)

  /** The three floats of the k-th 3-vector of a flat buffer. */
  function Slot(buffer: seq<real>, k: nat): seq<real>
    requires 3 * k + 3 <= |buffer|
  {
    buffer[3 * k .. 3 * k + 3]
  }

  /** The source vertex indices referenced by some corner of `cs`. */
  function VertexSet(cs: seq<Corner>): set<nat>
  {
    set c | c in cs :: c.vertexIndex
  }

  lemma VertexSetAppend(xs: seq<Corner>, ys: seq<Corner>)
    ensures VertexSet(xs + ys) == VertexSet(xs) + VertexSet(ys)
  {
    assert forall c :: c in xs + ys <==> c in xs || c in ys;
  }

  /** The corners of all shapes, shape after shape, each in its own order. */
  function Corners(shapes: seq<Shape>): seq<Corner>
    decreases |shapes|
  {
    if shapes == [] then []
    else Corners(shapes[..|shapes| - 1]) + shapes[|shapes| - 1].corners
  }

  /** The corners of shape i sit right after those of the shapes before it. */
  lemma {:induction false} CornersSplit(shapes: seq<Shape>, i: nat)
    requires i < |shapes|
    ensures Corners(shapes) == Corners(shapes[..i]) + shapes[i].corners + Corners(shapes[i + 1..])
    decreases |shapes|
  {
    var n := |shapes|;
    if i == n - 1 {
      assert shapes[..n - 1] == shapes[..i];
      assert shapes[i + 1..] == [];
    } else {
      var p := shapes[..n - 1];
      CornersSplit(p, i);
      assert p[..i] == shapes[..i];
      assert p[i] == shapes[i];
      var q := shapes[i + 1..];
      assert q[..|q| - 1] == p[i + 1..];
      assert q[|q| - 1] == shapes[n - 1];
    }
  }
}
