# Box-model loader

A Dafny model of the box-model loader of a calibration renderer
(`src/utils/box_model_loader.py`). The loader reads an OBJ model of a
calibration box whose sides are named shapes (`box_up_1`, `box_front_3`, ...).
It works in three steps:

- it keeps the shapes whose names pass a load filter (`BoxLoadFlags`);
- it deduplicates their corners into dense vertex, normal and index buffers,
  keyed by the source vertex index;
- it returns those buffers with the kept side names and the `index_map`.

`ExtrinsicsCalculator` loads the box with every side accepted. It drops the
sides labelled as background by `BoxRenderFlags` and records, for every
remaining side, the center of that side's group of four output vertices,
converted from millimetres to metres.

Modules, with the functions that model the code:

- `Wrappers`: `Option` and `Result`.
- `Mesh`: corners, shapes, attribute tables, and `Corners`, the
  concatenation of the shapes' corners (`for shape ... for idx in
  shape.mesh.indices`, `src/utils/box_model_loader.py:96-98`).
- `ShapeFilter`:
  - `Contains`, Python's substring test `t in s`;
  - `FilterShape`, `_filter_shape` (`src/utils/box_model_loader.py:76-84`);
  - `FilterShapes`, the `filter` comprehension (`src/utils/box_model_loader.py:87`);
  - `LabelAsBackground`, `_label_as_background` (`src/utils/box_model_loader.py:13-21`).
- `VertexDedup`: the deduplication walk.
  - `Resolve` is the body of the inner loop for one corner, and `Dedup` is
    the walk over a flat corner sequence (`src/utils/box_model_loader.py:98-112`).
  - `Distinct` is the independent first-seen list of vertex indices, and
    `Consistent` is the invariant every successful walk keeps.
- `BoxModelLoader`:
  - `Load` is `load_box_model` after parsing (`src/utils/box_model_loader.py:87-122`), with the same default flags, `LoadAll` (`src/utils/box_model_loader.py:56`);
  - the method `LoadBoxModel` is its nested loop, proved equal to `Load`;
  - the lemmas state the properties of its output, and the documented
    four-vertices-per-side layout and when it fails.
- `Extrinsics`:
  - `NonBackgroundIds` is the `valid_ids` loop (`src/utils/box_model_loader.py:29-32`),
    and the method `ValidIds` is that loop itself;
  - `SideCenters` and `CentersOf` are the `box_sides_center` comprehension,
    including numpy's reshape and index errors (`src/utils/box_model_loader.py:26-34`);
  - the `ExtrinsicsCalculator` class.

A Python `IndexError` raised by reading an attribute past the end of its table
is modelled as `Failure(IndexError(corner))`: the loader then returns no
model.

## Model

| member | source | states |
|---|---|---|
| ShapeFilter.ContainsIffOccurs | src/utils/box_model_loader.py:77-81 | Python's `t in s` holds iff `t` occurs in `s` at some position |
| ShapeFilter.FilterShapeIff | src/utils/box_model_loader.py:76-84 | a shape is accepted iff (LOAD_DOWN and `_down_` in name) or (LOAD_UP and `_up_`) or (LOAD_SIDES and one of `_front_`/`_back_`/`_left_`/`_right_`); with no flag set nothing is accepted |
| ShapeFilter.FilterShapeLoadAll | src/utils/box_model_loader.py:38-43 | with LOAD_ALL (the union of the three flags) a shape is accepted iff any of the six side tokens occurs in its name |
| ShapeFilter.FilterShapeMonotone | src/utils/box_model_loader.py:76-84 | enabling more flags never rejects a shape that fewer flags accept |
| ShapeFilter.FilterShapesSpec | src/utils/box_model_loader.py:87 | the filtered list is an order-preserving subsequence of the input, holds only accepted shapes, and holds every accepted shape as often as the input does |
| ShapeFilter.FilterShapesRefine | src/utils/box_model_loader.py:87 | filtering an already filtered list with fewer flags equals filtering the input with those flags |
| ShapeFilter.FilterShapesSubsequence | src/utils/box_model_loader.py:87 | the shapes kept by fewer flags form a subsequence of the shapes kept by more flags |
| ShapeFilter.LabelAsBackgroundIff | src/utils/box_model_loader.py:13-21 | with `None` flags nothing is background; otherwise a side is background iff (DOWN is labelled and `_down_` in name) or (UP is labelled and `_up_` in name) |
| ShapeFilter.TopAndBottomBackground | src/utils/box_model_loader.py:6-9 | LABEL_TOP_AND_BOTTOM_AS_BACKGROUND labels exactly the sides whose names hold `_up_` or `_down_` |
| Mesh.CornersSplit | src/utils/box_model_loader.py:96-98 | the corners of shape i come right after those of the shapes before it and right before those after it |
| VertexDedup.DedupConsistent | src/utils/box_model_loader.py:94-112 | after any successful walk: the index map is a first-seen-order bijection onto 0..n-1; there is one index per corner; output vertex k holds the position of the k-th distinct source vertex; each normal comes from the corner that introduced its vertex |
| VertexDedup.DedupFailurePersists | src/utils/box_model_loader.py:108-110 | once an attribute read raises, further corners do not change the outcome |
| VertexDedup.DedupFailsIff | src/utils/box_model_loader.py:100-110 | the walk raises iff some corner that introduces a new vertex points past the end of the position table or the normal table, and the error names the first such corner |
| VertexDedup.DedupPrefix | src/utils/box_model_loader.py:100-112 | every prefix of a successful walk succeeds; an index, once assigned, never changes; each prefix buffer is a prefix of the final buffer |
| VertexDedup.DistinctLength | src/utils/box_model_loader.py:100-105 | the first-seen list has one entry per distinct vertex index |
| VertexDedup.DistinctAppend | src/utils/box_model_loader.py:100-105 | for corner runs with no vertex in common, the first-seen order is that of the first run followed by that of the second |
| VertexDedup.DistinctElements | src/utils/box_model_loader.py:100-105 | a vertex index is in the first-seen list iff some corner carries it |
| BoxModelLoader.LoadBoxModel | src/utils/box_model_loader.py:87-122 | the nested loop over accepted shapes and their corners returns exactly `Load`: the filtered names and the buffers of the walk, or the walk's IndexError |
| BoxModelLoader.CopyAttributes | src/utils/box_model_loader.py:107-110 | the `range(3)` copy appends the three position floats and the three normal floats of the corner, or raises IndexError when either read is out of range |
| BoxModelLoader.AppendCorners | src/utils/box_model_loader.py:98-112 | the inner loop over one shape's corners returns exactly the walk continued over those corners, or its first IndexError |
| BoxModelLoader.CornersRaise | src/utils/box_model_loader.py:98-110 | an IndexError at corner k of a shape is the outcome of the walk over the whole shape |
| BoxModelLoader.LoadRaises | src/utils/box_model_loader.py:96-112 | an IndexError raised while walking accepted shape s is the outcome of the walk over all accepted corners, so the loader returns no model |
| BoxModelLoader.LoadSideNames | src/utils/box_model_loader.py:87-97 | `side_names` has one entry per accepted shape, in order, every entry passes the filter, and it is a subsequence of the input names |
| BoxModelLoader.NamesSubsequence | src/utils/box_model_loader.py:97 | taking names preserves the subsequence relation |
| BoxModelLoader.LoadIndexCount | src/utils/box_model_loader.py:98-112 | `len(indices)` is the number of accepted corners; `indices[k] == index_map[corner_k.vertex_index]` and `indices[k] < len(index_map)` |
| BoxModelLoader.ShapeCornersAt | src/utils/box_model_loader.py:96-98 | corner k of shape i is corner `start + k` of all the shapes' corners, `start` being the number of corners before shape i |
| BoxModelLoader.LoadShapeIndices | src/utils/box_model_loader.py:96-112 | accepted shape i contributes its corners' indices in its own order, right after the indices of the earlier shapes |
| BoxModelLoader.LoadIndexMap | src/utils/box_model_loader.py:100-105 | the keys of `index_map` are exactly the accepted vertex indices, numbered 0, 1, ... in first-seen order; the map is injective and onto 0..len-1 |
| BoxModelLoader.LoadBuffers | src/utils/box_model_loader.py:100-112 | `len(vertices) == len(normals) == 3 * len(index_map)`; the slot of every index holds its corner's position; its normal is that of the first corner that named the vertex, whatever later corners say |
| BoxModelLoader.LoadVertexCount | src/utils/box_model_loader.py:103-110 | the buffers hold three floats per distinct accepted vertex index |
| BoxModelLoader.LoadFailsIff | src/utils/box_model_loader.py:100-110 | loading fails iff some accepted corner that introduces a vertex has an out-of-range position or normal, and the error names the first such corner |
| BoxModelLoader.VertexSetOfCorners | src/utils/box_model_loader.py:96-98 | every vertex index of the accepted corners is named by some accepted shape |
| BoxModelLoader.DistinctOfStrideFour | src/utils/box_model_loader.py:45-55 | for four-vertex sides that share no vertex, the first-seen list is each side's four vertices, side after side |
| BoxModelLoader.StrideFourLayout | src/utils/box_model_loader.py:45-55 | under that layout precondition: four output vertices per side; the k-th vertex side i names first gets index 4i+k; its position fills floats 12i+3k..12i+3k+2 |
| BoxModelLoader.StrideFourNormal | src/utils/box_model_loader.py:51 | under that precondition the normals of side i fill floats 12i..12i+11, and slot 4i+k holds the normal of the first corner of side i that names the side's k-th vertex |
| BoxModelLoader.StrideFourLength | src/utils/box_model_loader.py:50-51 | under that precondition both buffers hold exactly twelve floats per side |
| BoxModelLoader.StrideFourGroup | src/utils/box_model_loader.py:50-52 | under that precondition every vertex of side i gets an index in 4i..4i+3 |
| BoxModelLoader.StrideFourIndices | src/utils/box_model_loader.py:50-52 | under that precondition the triangle indices of side i point only at side i's four vertices |
| BoxModelLoader.CornersOfSixes | src/utils/box_model_loader.py:52 | shapes of six corners each have six corners per shape in total |
| BoxModelLoader.SixIndicesPerSide | src/utils/box_model_loader.py:52 | when every accepted side has six corners (two triangles), there are six indices per side, and side i's are at 6i..6i+5 |
| BoxModelLoader.VertexSetBound | src/utils/box_model_loader.py:50 | sides of at most four vertices name at most four vertices per side in total |
| BoxModelLoader.SharedVertexBound | src/utils/box_model_loader.py:50 | if two such sides share a vertex, fewer than four vertices per side are named |
| BoxModelLoader.SharedVertexBreaksStride | src/utils/box_model_loader.py:50-51 | without the no-sharing precondition the documented layout fails: two accepted sides sharing a vertex leave fewer than twelve floats per side |
| Extrinsics.NonBackgroundIdsSpec | src/utils/box_model_loader.py:29-32 | `valid_ids` is strictly increasing, lies in 0..len(side_names)-1, and holds exactly the indices of the sides that are not background |
| Extrinsics.NoRenderFlagsKeepsAll | src/utils/box_model_loader.py:14-15 | with `None` flags, `valid_ids` is 0..len(side_names)-1 |
| Extrinsics.ValidIds | src/utils/box_model_loader.py:29-32 | the append loop returns exactly `NonBackgroundIds` |
| Extrinsics.CentersOfSucceeds | src/utils/box_model_loader.py:34 | the per-id lookup succeeds iff every kept id lies inside the N x 4 x 3 view |
| Extrinsics.CentersOfContents | src/utils/box_model_loader.py:34 | a successful lookup yields one center per kept id, in order |
| Extrinsics.CentersOfFailure | src/utils/box_model_loader.py:34 | a failed lookup reports the first kept id that is out of range |
| Extrinsics.SideCentersSpec | src/utils/box_model_loader.py:26-34 | `box_sides_center` is computed iff the buffer is a whole number of 3-vectors and, once an id is kept, a whole number of sides covering every kept id; it then has `len(valid_ids)` entries, the k-th the center of side `valid_ids[k]`; it raises a reshape error exactly on a bad length |
| Extrinsics.StrideFourSideCenter | src/utils/box_model_loader.py:34 | under the layout precondition, side i's group of four is centered on the center of side i's own four source positions |
| Extrinsics.KeptIdsFit | src/utils/box_model_loader.py:29-34 | on a buffer of twelve floats per side, every kept id is a non-background side that lies inside the N x 4 x 3 view |
| Extrinsics.TwelvePerSideCenters | src/utils/box_model_loader.py:26-34 | on a buffer of twelve floats per side both reshapes succeed, every kept id is inside the view, and there is one center per kept id, the center of that side |
| Extrinsics.StrideFourSideCenters | src/utils/box_model_loader.py:24-34 | under the layout precondition the center computation never raises; it has one center per kept side, each the center of a non-background side |
| Extrinsics.ExtrinsicsCalculator.constructor | src/utils/box_model_loader.py:12-34 | the calculator holds the box loaded with LOAD_ALL and the centers of its non-background sides, in side order |

## Left out

- OBJ parsing by tinyobjloader (`ParseFromFile`, `GetAttrib`, `GetShapes`): the attribute tables and the shapes are inputs to the model.
- The failed-parse path (`print` and `sys.exit(-1)`) and the warning print: process I/O. A failed parse produces no model.
- Floating point: positions, normals, the mean and the division by 1000.0 are idealised as exact `real` arithmetic.
- Negative vertex or normal indices: tinyobjloader reports a missing index as -1, and Python would then read from the end of the table. Corner indices are `nat` here.
- Extrinsics.ExtrinsicsCalculator.constructor: does not model the constructor raising. Loading failures and numpy reshape and index errors are preconditions of the constructor. The functions `Load` and `SideCenters` model exactly when they happen.
- The constructor takes the already parsed attribute tables and shapes instead of a file path.
- The model's `BoxModel` has a field per dictionary key. The doc comment's `shape_names` key is `side_names` in the code, and the code is followed.
- The doc comment promises the four-vertices-per-side layout unconditionally. The code does not check it. The model proves it under the `StrideFour` precondition (four distinct vertices per side, no vertex shared between sides) and proves that it fails without that precondition.
- The loader never rejects a model that breaks the layout; there is no geometry check in the code, and none is modelled.
- `src/io/multidimentional_imsave.py` is not part of this model: it writes image files through OpenEXR.
