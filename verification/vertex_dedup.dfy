/**
 * The vertex deduplication at the heart of `load_box_model`: every source
 * vertex index gets a dense output index on first sight, its position and the
 * normal of the corner that introduced it are appended once, and every corner
 * appends its resolved index.
 *
 * `Dedup` is the reference definition of that walk over a flat corner
 * sequence (a left fold of `Resolve`); the loader's loop is proved equal to it.
 */
module VertexDedup {
  import opened Wrappers
  import opened Mesh

  /** What reading an attribute past the end of its table raises (Python's IndexError). */
  datatype LoadError = IndexError(corner: Corner)

  /** The output built so far: `index_map` and the `vertices`, `normals` and `indices` lists. */
  datatype Buffers = Buffers(indexMap: map<nat, nat>, vertices: seq<real>, normals: seq<real>, indices: seq<nat>)

  const NoBuffers := Buffers(map[], [], [], [])

  /** Both attribute slots a corner points at exist. */
  predicate HasAttributes(attrib: Attrib, c: Corner)
  {
    3 * c.vertexIndex + 3 <= |attrib.vertices| && 3 * c.normalIndex + 3 <= |attrib.normals|
  }

  /** One corner of the loop body: reuse the known index, or allocate `len(index_map)` and copy the attributes. */
  function Resolve(attrib: Attrib, b: Buffers, c: Corner): (r: Result<Buffers, LoadError>)
  {
    if c.vertexIndex in b.indexMap then
      Success(b.(indices := b.indices + [b.indexMap[c.vertexIndex]]))
    else if !HasAttributes(attrib, c) then
      Failure(IndexError(c))
    else
      var next := |b.indexMap|;
      Success(Buffers(b.indexMap[c.vertexIndex := next],
                      b.vertices + Slot(attrib.vertices, c.vertexIndex),
                      b.normals + Slot(attrib.normals, c.normalIndex),
                      b.indices + [next]))
  }

  /** The buffers after resolving the corners `cs` in order, or the first IndexError raised. */
  function Dedup(attrib: Attrib, cs: seq<Corner>): (r: Result<Buffers, LoadError>)
    decreases |cs|
  {
    if cs == [] then Success(NoBuffers)
    else
      match Dedup(attrib, cs[..|cs| - 1])
      case Failure(e) => Failure(e)
      case Success(b) => Resolve(attrib, b, cs[|cs| - 1])
  }

  /** One more corner resolves against the buffers of the walk so far. */
  lemma DedupStep(attrib: Attrib, cs: seq<Corner>, c: Corner)
    requires Dedup(attrib, cs).Success?
    ensures Dedup(attrib, cs + [c]) == Resolve(attrib, Dedup(attrib, cs).value, c)
  {
    assert (cs + [c])[..|cs|] == cs;
  }

  /** The distinct vertex indices of `cs` in first-seen order. */
  function Distinct(cs: seq<Corner>): (r: seq<nat>)
    decreases |cs|
  {
    if cs == [] then []
    else
      var seen := Distinct(cs[..|cs| - 1]);
      var v := cs[|cs| - 1].vertexIndex;
      if v in seen then seen else seen + [v]
  }

  /** Corner i is the first corner of `cs` with its vertex index. */
  predicate FirstSight(cs: seq<Corner>, i: nat)
    requires i < |cs|
  {
    forall j :: 0 <= j < i ==> cs[j].vertexIndex != cs[i].vertexIndex
  }

  /** The index map a resolved corner leaves behind. */
  function Extend(m: map<nat, nat>, v: nat): map<nat, nat>
  {
    if v in m then m else m[v := |m|]
  }

  /**
   * index_map is a bijection from the vertex indices seen onto 0..n-1 that
   * numbers them in first-seen order.
   */
  ghost predicate MapShape(cs: seq<Corner>, m: map<nat, nat>)
  {
    m.Keys == VertexSet(cs) && Numbers(Distinct(cs), m)
  }

  /** `m` numbers the entries of `order` by their positions, and nothing else. */
  ghost predicate Numbers(order: seq<nat>, m: map<nat, nat>)
  {
    && |m| == |order|
    && (forall k :: 0 <= k < |order| ==> order[k] in m && m[order[k]] == k)
    && (forall v :: v in m ==> m[v] < |order| && order[m[v]] == v)
  }

  /** One index per corner, in corner order, each the index of the corner's vertex. */
  ghost predicate IndicesMatch(cs: seq<Corner>, m: map<nat, nat>, indices: seq<nat>)
  {
    && |indices| == |cs|
    && (forall k :: 0 <= k < |cs| ==> cs[k].vertexIndex in m && indices[k] == m[cs[k].vertexIndex])
  }

  /** Output vertex k holds the position of source vertex Distinct(cs)[k]. */
  ghost predicate PositionsCopied(attrib: Attrib, cs: seq<Corner>, vertices: seq<real>)
  {
    var order := Distinct(cs);
    && |vertices| == 3 * |order|
    && (forall k :: 0 <= k < |order| ==> 3 * order[k] + 3 <= |attrib.vertices|)
    && (forall k :: 0 <= k < |order| ==> Slot(vertices, k) == Slot(attrib.vertices, order[k]))
  }

  /** The normal of an output vertex is that of the corner that first saw its source vertex. */
  ghost predicate NormalsCopied(attrib: Attrib, cs: seq<Corner>, m: map<nat, nat>, normals: seq<real>)
  {
    && |normals| == 3 * |m|
    && (forall i :: 0 <= i < |cs| && FirstSight(cs, i) ==> HasAttributes(attrib, cs[i]))
    && (forall i :: 0 <= i < |cs| && FirstSight(cs, i) ==>
          cs[i].vertexIndex in m && m[cs[i].vertexIndex] < |m| &&
          Slot(normals, m[cs[i].vertexIndex]) == Slot(attrib.normals, cs[i].normalIndex))
  }

  /** What the buffers after walking `cs` look like. */
  ghost predicate Consistent(attrib: Attrib, cs: seq<Corner>, b: Buffers)
  {
    && MapShape(cs, b.indexMap)
    && IndicesMatch(cs, b.indexMap, b.indices)
    && PositionsCopied(attrib, cs, b.vertices)
    && NormalsCopied(attrib, cs, b.indexMap, b.normals)
  }

  lemma SlotOfAppend(a: seq<real>, tail: seq<real>, k: nat)
    requires 3 * k + 3 <= |a|
    ensures Slot(a + tail, k) == Slot(a, k)
  {
    assert (a + tail)[3 * k .. 3 * k + 3] == a[3 * k .. 3 * k + 3];
  }

  lemma SlotOfEnd(a: seq<real>, tail: seq<real>, k: nat)
    requires |a| == 3 * k && |tail| == 3
    ensures Slot(a + tail, k) == tail
  {
    assert (a + tail)[|a| .. |a| + 3] == tail;
  }

  /** A vertex index is in the first-seen list iff some corner carries it. */
  lemma {:induction false} DistinctElements(cs: seq<Corner>)
    ensures forall v :: v in Distinct(cs) <==> v in VertexSet(cs)
    decreases |cs|
  {
    if cs != [] {
      var p, c := cs[..|cs| - 1], cs[|cs| - 1];
      DistinctElements(p);
      assert cs == p + [c];
      VertexSetAppend(p, [c]);
      assert VertexSet([c]) == {c.vertexIndex};
    }
  }

  /** Appending a corner does not change which earlier corners are first sights. */
  lemma FirstSightPrefix(cs: seq<Corner>, c: Corner, i: nat)
    requires i < |cs|
    ensures FirstSight(cs + [c], i) <==> FirstSight(cs, i)
  {
    var cs' := cs + [c];
    assert forall j :: 0 <= j <= i ==> cs'[j] == cs[j];
  }

  /** The corner after `cs` is a first sight iff its vertex index was not seen in `cs`. */
  lemma FirstSightOfLast(cs: seq<Corner>, c: Corner)
    ensures FirstSight(cs + [c], |cs|) <==> c.vertexIndex !in VertexSet(cs)
  {
    var cs' := cs + [c];
    if c.vertexIndex in VertexSet(cs) {
      var x :| x in cs && x.vertexIndex == c.vertexIndex;
      var w :| 0 <= w < |cs| && cs[w] == x;
      assert cs'[w].vertexIndex == cs'[|cs|].vertexIndex;
    } else {
      forall j | 0 <= j < |cs| ensures cs'[j].vertexIndex != c.vertexIndex {
        assert cs[j] in cs;
      }
    }
  }

  /** Every vertex index some corner carries has a first sight. */
  lemma {:induction false} FirstSightExists(cs: seq<Corner>, v: nat)
    requires v in VertexSet(cs)
    ensures exists j :: 0 <= j < |cs| && cs[j].vertexIndex == v && FirstSight(cs, j)
    decreases |cs|
  {
    var p, c := cs[..|cs| - 1], cs[|cs| - 1];
    assert cs == p + [c];
    VertexSetAppend(p, [c]);
    assert VertexSet([c]) == {c.vertexIndex};
    if v in VertexSet(p) {
      FirstSightExists(p, v);
      var j :| 0 <= j < |p| && p[j].vertexIndex == v && FirstSight(p, j);
      FirstSightPrefix(p, c, j);
      assert cs[j] == p[j];
    } else {
      FirstSightOfLast(p, c);
    }
  }

  /** The corner that first names the k-th entry of the first-seen list. */
  lemma FirstSightOf(cs: seq<Corner>, k: nat) returns (j: nat)
    requires k < |Distinct(cs)|
    ensures j < |cs| && cs[j].vertexIndex == Distinct(cs)[k] && FirstSight(cs, j)
  {
    DistinctElements(cs);
    assert Distinct(cs)[k] in Distinct(cs);
    FirstSightExists(cs, Distinct(cs)[k]);
    j :| 0 <= j < |cs| && cs[j].vertexIndex == Distinct(cs)[k] && FirstSight(cs, j);
  }

  /** Consistent buffers hold, in the slot of a first sight's vertex, that corner's normal. */
  lemma NormalOfFirstSight(attrib: Attrib, cs: seq<Corner>, b: Buffers, at: nat)
    requires Consistent(attrib, cs, b)
    requires at < |cs| && FirstSight(cs, at)
    ensures HasAttributes(attrib, cs[at])
    ensures cs[at].vertexIndex in b.indexMap && 3 * b.indexMap[cs[at].vertexIndex] + 3 <= |b.normals|
    ensures Slot(b.normals, b.indexMap[cs[at].vertexIndex]) == Slot(attrib.normals, cs[at].normalIndex)
  {
  }

  /** A first sight inside a run stays one after a prefix that never names its vertex. */
  lemma FirstSightShift(pre: seq<Corner>, run: seq<Corner>, post: seq<Corner>, j: nat)
    requires j < |run| && FirstSight(run, j)
    requires run[j].vertexIndex !in VertexSet(pre)
    ensures var cs := pre + run + post;
            |pre| + j < |cs| && cs[|pre| + j] == run[j] && FirstSight(cs, |pre| + j)
  {
    var cs := pre + run + post;
    assert cs[|pre| + j] == run[j];
    forall w | 0 <= w < |pre| + j ensures cs[w].vertexIndex != run[j].vertexIndex {
      if w < |pre| {
        assert cs[w] == pre[w] && pre[w] in pre;
      } else {
        assert cs[w] == run[w - |pre|];
      }
    }
  }

  lemma DistinctStep(cs: seq<Corner>, c: Corner)
    ensures VertexSet(cs + [c]) == VertexSet(cs) + {c.vertexIndex}
    ensures Distinct(cs + [c]) == if c.vertexIndex in VertexSet(cs) then Distinct(cs) else Distinct(cs) + [c.vertexIndex]
  {
    var cs' := cs + [c];
    assert cs'[..|cs'| - 1] == cs;
    VertexSetAppend(cs, [c]);
    assert VertexSet([c]) == {c.vertexIndex};
    DistinctElements(cs);
  }

  lemma MapShapeStep(cs: seq<Corner>, c: Corner, m: map<nat, nat>)
    requires MapShape(cs, m)
    ensures MapShape(cs + [c], Extend(m, c.vertexIndex))
    ensures Distinct(cs + [c]) == if c.vertexIndex in m then Distinct(cs) else Distinct(cs) + [c.vertexIndex]
  {
    DistinctStep(cs, c);
    if c.vertexIndex in m {
      MapShapeKnown(cs, c, m);
    } else {
      MapShapeNew(cs, c, m);
    }
  }

  lemma MapShapeKnown(cs: seq<Corner>, c: Corner, m: map<nat, nat>)
    requires MapShape(cs, m) && c.vertexIndex in m
    requires VertexSet(cs + [c]) == VertexSet(cs) + {c.vertexIndex}
    requires Distinct(cs + [c]) == Distinct(cs)
    ensures MapShape(cs + [c], m)
  {
  }

  lemma MapShapeNew(cs: seq<Corner>, c: Corner, m: map<nat, nat>)
    requires MapShape(cs, m) && c.vertexIndex !in m
    requires VertexSet(cs + [c]) == VertexSet(cs) + {c.vertexIndex}
    requires Distinct(cs + [c]) == Distinct(cs) + [c.vertexIndex]
    ensures MapShape(cs + [c], m[c.vertexIndex := |m|])
  {
    NumbersExtend(Distinct(cs), m, c.vertexIndex);
  }

  /** Numbering a new entry with the next free index extends the numbering. */
  lemma NumbersExtend(order: seq<nat>, m: map<nat, nat>, v: nat)
    requires Numbers(order, m) && v !in m
    ensures Numbers(order + [v], m[v := |m|])
  {
    var m', order' := m[v := |m|], order + [v];
    assert |m'| == |m| + 1;
    forall k | 0 <= k < |order'| ensures order'[k] in m' && m'[order'[k]] == k {
      if k < |order| {
        assert order'[k] == order[k] != v;
      }
    }
  }

  lemma IndicesStep(cs: seq<Corner>, c: Corner, m: map<nat, nat>, indices: seq<nat>)
    requires MapShape(cs, m) && IndicesMatch(cs, m, indices)
    ensures IndicesMatch(cs + [c], Extend(m, c.vertexIndex), indices + [Extend(m, c.vertexIndex)[c.vertexIndex]])
  {
  }

  lemma PositionsStep(attrib: Attrib, cs: seq<Corner>, c: Corner, m: map<nat, nat>, vertices: seq<real>)
    requires MapShape(cs, m) && PositionsCopied(attrib, cs, vertices)
    requires c.vertexIndex !in m && HasAttributes(attrib, c)
    ensures PositionsCopied(attrib, cs + [c], vertices + Slot(attrib.vertices, c.vertexIndex))
  {
    MapShapeStep(cs, c, m);
    var tail := Slot(attrib.vertices, c.vertexIndex);
    var order' := Distinct(cs + [c]);
    forall k | 0 <= k < |Distinct(cs)|
      ensures Slot(vertices + tail, k) == Slot(attrib.vertices, order'[k])
    {
      SlotOfAppend(vertices, tail, k);
    }
    SlotOfEnd(vertices, tail, |Distinct(cs)|);
  }

  lemma NormalsKnownStep(attrib: Attrib, cs: seq<Corner>, c: Corner, m: map<nat, nat>, normals: seq<real>)
    requires m.Keys == VertexSet(cs) && NormalsCopied(attrib, cs, m, normals)
    requires c.vertexIndex in m
    ensures NormalsCopied(attrib, cs + [c], m, normals)
  {
    FirstSightOfLast(cs, c);
    forall i | 0 <= i < |cs| {
      FirstSightPrefix(cs, c, i);
    }
  }

  lemma NormalsNewStep(attrib: Attrib, cs: seq<Corner>, c: Corner, m: map<nat, nat>, normals: seq<real>)
    requires NormalsCopied(attrib, cs, m, normals)
    requires c.vertexIndex !in m && HasAttributes(attrib, c)
    ensures NormalsCopied(attrib, cs + [c], m[c.vertexIndex := |m|], normals + Slot(attrib.normals, c.normalIndex))
  {
    var cs', m' := cs + [c], m[c.vertexIndex := |m|];
    var tail := Slot(attrib.normals, c.normalIndex);
    var normals' := normals + tail;
    assert |m'| == |m| + 1;
    forall i | 0 <= i < |cs'| && FirstSight(cs', i)
      ensures HasAttributes(attrib, cs'[i])
      ensures cs'[i].vertexIndex in m' && m'[cs'[i].vertexIndex] < |m'|
      ensures Slot(normals', m'[cs'[i].vertexIndex]) == Slot(attrib.normals, cs'[i].normalIndex)
    {
      if i < |cs| {
        assert cs'[i] == cs[i];
        assert FirstSight(cs, i) by {
          forall j | 0 <= j < i ensures cs[j].vertexIndex != cs[i].vertexIndex {
            assert cs'[j] == cs[j];
          }
        }
        SlotOfAppend(normals, tail, m[cs[i].vertexIndex]);
      } else {
        SlotOfEnd(normals, tail, |m|);
      }
    }
    assert |normals'| == 3 * |m'|;
  }

  /** Resolving one more corner keeps the buffers consistent with the longer walk. */
  lemma ResolveConsistent(attrib: Attrib, cs: seq<Corner>, c: Corner, b: Buffers)
    requires Consistent(attrib, cs, b)
    requires Resolve(attrib, b, c).Success?
    ensures Consistent(attrib, cs + [c], Resolve(attrib, b, c).value)
  {
    var m := b.indexMap;
    MapShapeStep(cs, c, m);
    IndicesStep(cs, c, m, b.indices);
    if c.vertexIndex in m {
      NormalsKnownStep(attrib, cs, c, m, b.normals);
    } else {
      PositionsStep(attrib, cs, c, m, b.vertices);
      NormalsNewStep(attrib, cs, c, m, b.normals);
    }
  }

  /** Whenever the walk succeeds its buffers are consistent. */
  lemma {:induction false} DedupConsistent(attrib: Attrib, cs: seq<Corner>)
    requires Dedup(attrib, cs).Success?
    ensures Consistent(attrib, cs, Dedup(attrib, cs).value)
    decreases |cs|
  {
    if cs != [] {
      var p, c := cs[..|cs| - 1], cs[|cs| - 1];
      assert cs == p + [c];
      DedupConsistent(attrib, p);
      DedupStep(attrib, p, c);
      ResolveConsistent(attrib, p, c, Dedup(attrib, p).value);
    }
  }

  /** The walk stops at the first IndexError: later corners never change it. */
  lemma {:induction false} DedupFailurePersists(attrib: Attrib, cs: seq<Corner>, more: seq<Corner>)
    requires Dedup(attrib, cs).Failure?
    ensures Dedup(attrib, cs + more) == Dedup(attrib, cs)
    decreases |more|
  {
    if more == [] {
      assert cs + more == cs;
    } else {
      var p := more[..|more| - 1];
      DedupFailurePersists(attrib, cs, p);
      var all := cs + more;
      assert all[..|all| - 1] == cs + p;
    }
  }

  /** Corner i is the first to name its vertex and one of its attribute slots is missing. */
  ghost predicate MissingAttributes(attrib: Attrib, cs: seq<Corner>, i: int)
  {
    0 <= i < |cs| && FirstSight(cs, i) && !HasAttributes(attrib, cs[i])
  }

  /** Corner i is the first corner of `cs` whose attributes are missing. */
  ghost predicate FirstMissing(attrib: Attrib, cs: seq<Corner>, i: int)
  {
    MissingAttributes(attrib, cs, i) && forall j :: 0 <= j < i ==> !MissingAttributes(attrib, cs, j)
  }

  /**
   * The walk raises exactly when some corner that introduces a new vertex
   * points past the end of the position or normal table, and it reports the
   * first such corner.
   */
  lemma {:induction false} DedupFailsIff(attrib: Attrib, cs: seq<Corner>)
    ensures Dedup(attrib, cs).Failure? <==> exists i :: MissingAttributes(attrib, cs, i)
    ensures Dedup(attrib, cs).Failure? ==>
              exists i :: FirstMissing(attrib, cs, i) && Dedup(attrib, cs).error == IndexError(cs[i])
    decreases |cs|
  {
    if cs != [] {
      var p, c := cs[..|cs| - 1], cs[|cs| - 1];
      DedupFailsIff(attrib, p);
      assert cs == p + [c];
      forall i | 0 <= i < |p|
        ensures MissingAttributes(attrib, cs, i) <==> MissingAttributes(attrib, p, i)
      {
        MissingPrefix(attrib, p, c, i);
      }
      if Dedup(attrib, p).Success? {
        MissingLast(attrib, p, c);
        if Dedup(attrib, cs).Failure? {
          assert FirstMissing(attrib, cs, |p|);
        }
      } else {
        var i :| FirstMissing(attrib, p, i) && Dedup(attrib, p).error == IndexError(p[i]);
        assert FirstMissing(attrib, cs, i);
      }
    }
  }

  lemma MissingPrefix(attrib: Attrib, p: seq<Corner>, c: Corner, i: nat)
    requires i < |p|
    ensures MissingAttributes(attrib, p + [c], i) <==> MissingAttributes(attrib, p, i)
  {
    FirstSightPrefix(p, c, i);
    assert (p + [c])[i] == p[i];
  }

  /** After a successful walk, the next corner raises iff it introduces a vertex whose slots are missing. */
  lemma MissingLast(attrib: Attrib, p: seq<Corner>, c: Corner)
    requires Dedup(attrib, p).Success?
    ensures Dedup(attrib, p + [c]).Failure? <==> MissingAttributes(attrib, p + [c], |p|)
    ensures Dedup(attrib, p + [c]).Failure? ==> Dedup(attrib, p + [c]).error == IndexError(c)
  {
    DedupStep(attrib, p, c);
    DedupConsistent(attrib, p);
    FirstSightOfLast(p, c);
    assert (p + [c])[|p|] == c;
  }

  /**
   * A successful walk succeeds on every prefix, and the prefix's buffers are
   * a part of the final ones: an index, once assigned, never changes and
   * nothing appended is ever rewritten.
   */
  lemma {:induction false} DedupPrefix(attrib: Attrib, cs: seq<Corner>, n: nat)
    requires n <= |cs| && Dedup(attrib, cs).Success?
    ensures Dedup(attrib, cs[..n]).Success?
    ensures var early, late := Dedup(attrib, cs[..n]).value, Dedup(attrib, cs).value;
            && (forall v :: v in early.indexMap ==> v in late.indexMap && late.indexMap[v] == early.indexMap[v])
            && early.vertices <= late.vertices
            && early.normals <= late.normals
            && early.indices <= late.indices
    decreases |cs|
  {
    if n == |cs| {
      assert cs[..n] == cs;
    } else {
      var p := cs[..|cs| - 1];
      DedupPrefix(attrib, p, n);
      assert p[..n] == cs[..n];
    }
  }

  /** The first-seen list has one entry per distinct vertex index. */
  lemma {:induction false} DistinctLength(cs: seq<Corner>)
    ensures |Distinct(cs)| == |VertexSet(cs)|
    decreases |cs|
  {
    if cs != [] {
      var p, c := cs[..|cs| - 1], cs[|cs| - 1];
      DistinctLength(p);
      assert cs == p + [c];
      DistinctStep(p, c);
    }
  }

  /** Walks over corner runs with no vertex in common see the runs' vertices one run after the other. */
  lemma {:induction false} DistinctAppend(xs: seq<Corner>, ys: seq<Corner>)
    requires VertexSet(xs) !! VertexSet(ys)
    ensures Distinct(xs + ys) == Distinct(xs) + Distinct(ys)
    decreases |ys|
  {
    if ys == [] {
      assert xs + ys == xs;
    } else {
      var p, c := ys[..|ys| - 1], ys[|ys| - 1];
      assert ys == p + [c];
      VertexSetAppend(p, [c]);
      DistinctAppend(xs, p);
      DistinctAppendLast(xs, p, c);
      assert xs + ys == (xs + p) + [c];
    }
  }

  /** One more corner after two disjoint runs extends the second run's first-seen list. */
  lemma DistinctAppendLast(xs: seq<Corner>, p: seq<Corner>, c: Corner)
    requires VertexSet(xs) !! VertexSet(p + [c])
    requires Distinct(xs + p) == Distinct(xs) + Distinct(p)
    ensures Distinct((xs + p) + [c]) == Distinct(xs) + Distinct(p + [c])
  {
    var v := c.vertexIndex;
    assert c in p + [c];
    assert v !in VertexSet(xs);
    NotInPrefix(xs, p, v);
    if v in VertexSet(p) {
      DistinctSeen(p, c);
      DistinctSeen(xs + p, c);
    } else {
      DistinctAppendNew(xs, p, c);
    }
  }

  /** The case of DistinctAppendLast where the corner brings a vertex neither run has named. */
  lemma DistinctAppendNew(xs: seq<Corner>, p: seq<Corner>, c: Corner)
    requires c.vertexIndex !in VertexSet(p) && c.vertexIndex !in VertexSet(xs + p)
    requires Distinct(xs + p) == Distinct(xs) + Distinct(p)
    ensures Distinct((xs + p) + [c]) == Distinct(xs) + Distinct(p + [c])
  {
    DistinctNew(p, c);
    DistinctNew(xs + p, c);
    var dx, dp := Distinct(xs), Distinct(p);
    assert (dx + dp) + [c.vertexIndex] == dx + (dp + [c.vertexIndex]);
  }

  /** A vertex index the first run never names is named by both runs iff the second names it. */
  lemma NotInPrefix(xs: seq<Corner>, p: seq<Corner>, v: nat)
    requires v !in VertexSet(xs)
    ensures v in VertexSet(xs + p) <==> v in VertexSet(p)
  {
    VertexSetAppend(xs, p);
  }

  /** A corner whose vertex was seen leaves the first-seen list as it is. */
  lemma DistinctSeen(cs: seq<Corner>, c: Corner)
    requires c.vertexIndex in VertexSet(cs)
    ensures Distinct(cs + [c]) == Distinct(cs)
  {
    DistinctStep(cs, c);
  }

  /** A corner with a new vertex appends that vertex to the first-seen list. */
  lemma DistinctNew(cs: seq<Corner>, c: Corner)
    requires c.vertexIndex !in VertexSet(cs)
    ensures Distinct(cs + [c]) == Distinct(cs) + [c.vertexIndex]
  {
    DistinctStep(cs, c);
  }
}
