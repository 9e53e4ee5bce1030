/**
 * The name-based shape filters of the box-model loader: which shapes are
 * loaded (BoxLoadFlags) and which loaded sides are background at render time
 * (BoxRenderFlags). Both test case-sensitive substring containment of the
 * side tokens in the shape name.
 */
module ShapeFilter {
  import opened Wrappers
  import opened Mesh

  // ---------------------------------------------------------------- substrings

  /** `t` occurs in `s` starting at position `i`. */
  ghost predicate OccursAt(s: string, t: string, i: int)
  {
    0 <= i && i + |t| <= |s| && s[i..i + |t|] == t
  }

  /** Python's `t in s` on strings. */
  function Contains(s: string, t: string): (r: bool)
    decreases |s|
  {
    if |s| < |t| then false
    else s[..|t|] == t || Contains(s[1..], t)
  }

  /** Contains is exactly "t occurs at some position of s". */
  lemma {:induction false} ContainsIffOccurs(s: string, t: string)
    ensures Contains(s, t) <==> exists i :: OccursAt(s, t, i)
    decreases |s|
  {
    if |s| < |t| {
    } else if s[..|t|] == t {
      assert OccursAt(s, t, 0);
    } else {
      var s' := s[1..];
      ContainsIffOccurs(s', t);
      forall j | OccursAt(s', t, j)
        ensures OccursAt(s, t, j + 1)
      {
        assert s'[j..j + |t|] == s[j + 1..j + 1 + |t|];
      }
      forall i | OccursAt(s, t, i)
        ensures 1 <= i && OccursAt(s', t, i - 1)
      {
        assert i != 0 by { assert s[..|t|] == s[0..|t|]; }
        assert s'[i - 1..i - 1 + |t|] == s[i..i + |t|];
      }
    }
  }

  const DownToken := "_down_"
  const UpToken := "_up_"
  const FrontToken := "_front_"
  const BackToken := "_back_"
  const LeftToken := "_left_"
  const RightToken := "_right_"

  // ------------------------------------------------------------ load filtering

  /** The members of BoxLoadFlags; a flag value is a set of them. */
  datatype LoadFlag = LoadSides | LoadUp | LoadDown

  /** BoxLoadFlags.LOAD_ALL, the union of the three members. */
  const LoadAll: set<LoadFlag> := {LoadSides, LoadUp, LoadDown}

  /** `_filter_shape`: does the load-time filter keep a shape of this name? */
  function FilterShape(shapeName: string, flags: set<LoadFlag>): (r: bool)
  {
    if LoadDown in flags && Contains(shapeName, DownToken) then true
    else if LoadUp in flags && Contains(shapeName, UpToken) then true
    else if LoadSides in flags && (Contains(shapeName, FrontToken) || Contains(shapeName, BackToken)
                                   || Contains(shapeName, LeftToken) || Contains(shapeName, RightToken)) then true
    else false
  }

  /** Some enabled category has one of its tokens somewhere in the name. */
  ghost predicate MatchesEnabledToken(shapeName: string, flags: set<LoadFlag>)
  {
    || (LoadDown in flags && exists i :: OccursAt(shapeName, DownToken, i))
    || (LoadUp in flags && exists i :: OccursAt(shapeName, UpToken, i))
    || (LoadSides in flags && ((exists i :: OccursAt(shapeName, FrontToken, i))
                               || (exists i :: OccursAt(shapeName, BackToken, i))
                               || (exists i :: OccursAt(shapeName, LeftToken, i))
                               || (exists i :: OccursAt(shapeName, RightToken, i))))
  }

  lemma TokensContained(shapeName: string)
    ensures Contains(shapeName, DownToken) <==> exists i :: OccursAt(shapeName, DownToken, i)
    ensures Contains(shapeName, UpToken) <==> exists i :: OccursAt(shapeName, UpToken, i)
    ensures Contains(shapeName, FrontToken) <==> exists i :: OccursAt(shapeName, FrontToken, i)
    ensures Contains(shapeName, BackToken) <==> exists i :: OccursAt(shapeName, BackToken, i)
    ensures Contains(shapeName, LeftToken) <==> exists i :: OccursAt(shapeName, LeftToken, i)
    ensures Contains(shapeName, RightToken) <==> exists i :: OccursAt(shapeName, RightToken, i)
  {
    ContainsIffOccurs(shapeName, DownToken);
    ContainsIffOccurs(shapeName, UpToken);
    ContainsIffOccurs(shapeName, FrontToken);
    ContainsIffOccurs(shapeName, BackToken);
    ContainsIffOccurs(shapeName, LeftToken);
    ContainsIffOccurs(shapeName, RightToken);
  }

  /**
   * A shape is kept iff an enabled category's token occurs in its name;
   * with no flag set nothing is kept.
   */
  lemma FilterShapeIff(shapeName: string, flags: set<LoadFlag>)
    ensures FilterShape(shapeName, flags) <==> MatchesEnabledToken(shapeName, flags)
    ensures !FilterShape(shapeName, {})
  {
    TokensContained(shapeName);
  }

  /** With LOAD_ALL a shape is kept iff any of the six side tokens occurs in its name. */
  lemma FilterShapeLoadAll(shapeName: string)
    ensures FilterShape(shapeName, LoadAll) <==>
      || (exists i :: OccursAt(shapeName, DownToken, i))
      || (exists i :: OccursAt(shapeName, UpToken, i))
      || (exists i :: OccursAt(shapeName, FrontToken, i))
      || (exists i :: OccursAt(shapeName, BackToken, i))
      || (exists i :: OccursAt(shapeName, LeftToken, i))
      || (exists i :: OccursAt(shapeName, RightToken, i))
  {
    FilterShapeIff(shapeName, LoadAll);
  }

  /** Enabling more categories never drops a shape. */
  lemma FilterShapeMonotone(shapeName: string, fewer: set<LoadFlag>, more: set<LoadFlag>)
    requires fewer <= more
    ensures FilterShape(shapeName, fewer) ==> FilterShape(shapeName, more)
  {
  }

  /** `list(filter(lambda x: _filter_shape(x.name), shapes))`. */
  function FilterShapes(shapes: seq<Shape>, flags: set<LoadFlag>): (r: seq<Shape>)
    decreases |shapes|
  {
    if shapes == [] then []
    else
      var last := shapes[|shapes| - 1];
      FilterShapes(shapes[..|shapes| - 1], flags) + (if FilterShape(last.name, flags) then [last] else [])
  }

  /** `a` is `b` with some elements deleted, order kept. */
  ghost predicate IsSubsequence<T>(a: seq<T>, b: seq<T>)
    decreases |b|
  {
    if a == [] then true
    else if b == [] then false
    else (a[|a| - 1] == b[|b| - 1] && IsSubsequence(a[..|a| - 1], b[..|b| - 1]))
         || IsSubsequence(a, b[..|b| - 1])
  }

  /**
   * The filtered list is the order-preserving subsequence of the input made of
   * exactly the accepted shapes, each as often as in the input.
   */
  lemma FilterShapesSpec(shapes: seq<Shape>, flags: set<LoadFlag>)
    ensures IsSubsequence(FilterShapes(shapes, flags), shapes)
    ensures forall s :: multiset(FilterShapes(shapes, flags))[s] ==
                        if FilterShape(s.name, flags) then multiset(shapes)[s] else 0
    ensures forall s :: s in FilterShapes(shapes, flags) ==> FilterShape(s.name, flags)
  {
    FilterShapesOrder(shapes, flags);
    FilterShapesCount(shapes, flags);
  }

  lemma {:induction false} FilterShapesOrder(shapes: seq<Shape>, flags: set<LoadFlag>)
    ensures IsSubsequence(FilterShapes(shapes, flags), shapes)
    decreases |shapes|
  {
    if shapes != [] {
      var n := |shapes|;
      var p, last := shapes[..n - 1], shapes[n - 1];
      FilterShapesOrder(p, flags);
      var q := FilterShapes(p, flags);
      if FilterShape(last.name, flags) {
        var r := q + [last];
        assert r[..|r| - 1] == q;
      } else {
        assert FilterShapes(shapes, flags) == q;
      }
    }
  }

  lemma {:induction false} FilterShapesCount(shapes: seq<Shape>, flags: set<LoadFlag>)
    ensures forall s :: multiset(FilterShapes(shapes, flags))[s] ==
                        if FilterShape(s.name, flags) then multiset(shapes)[s] else 0
    decreases |shapes|
  {
    if shapes != [] {
      var n := |shapes|;
      var p, last := shapes[..n - 1], shapes[n - 1];
      FilterShapesCount(p, flags);
      assert shapes == p + [last];
      assert multiset(shapes) == multiset(p) + multiset{last};
      var q := FilterShapes(p, flags);
      if FilterShape(last.name, flags) {
        assert multiset(FilterShapes(shapes, flags)) == multiset(q) + multiset{last};
      } else {
        assert FilterShapes(shapes, flags) == q;
      }
    }
  }

  /**
   * Filtering an already filtered list with fewer categories gives the same
   * list as filtering the input with those categories directly.
   */
  lemma {:induction false} FilterShapesRefine(shapes: seq<Shape>, fewer: set<LoadFlag>, more: set<LoadFlag>)
    requires fewer <= more
    ensures FilterShapes(FilterShapes(shapes, more), fewer) == FilterShapes(shapes, fewer)
    decreases |shapes|
  {
    if shapes != [] {
      var n := |shapes|;
      var p, last := shapes[..n - 1], shapes[n - 1];
      FilterShapesRefine(p, fewer, more);
      var q := FilterShapes(p, more);
      if FilterShape(last.name, more) {
        var qs := q + [last];
        assert qs[..|qs| - 1] == q;
      } else {
        FilterShapeMonotone(last.name, fewer, more);
        assert FilterShapes(shapes, more) == q;
        assert FilterShapes(shapes, fewer) == FilterShapes(p, fewer);
      }
    }
  }

  /** The shapes kept by fewer categories form a subsequence of those kept by more (e.g. LOAD_SIDES vs LOAD_ALL). */
  lemma FilterShapesSubsequence(shapes: seq<Shape>, fewer: set<LoadFlag>, more: set<LoadFlag>)
    requires fewer <= more
    ensures IsSubsequence(FilterShapes(shapes, fewer), FilterShapes(shapes, more))
  {
    FilterShapesRefine(shapes, fewer, more);
    FilterShapesSpec(FilterShapes(shapes, more), fewer);
  }

  // ------------------------------------------------------- background labelling

  /** The members of BoxRenderFlags; a flag value is a set of them. */
  datatype RenderFlag = LabelUpAsBackground | LabelDownAsBackground

  /** BoxRenderFlags.LABEL_TOP_AND_BOTTOM_AS_BACKGROUND, the union of the two members. */
  const LabelTopAndBottomAsBackground: set<RenderFlag> := {LabelUpAsBackground, LabelDownAsBackground}

  /** `_label_as_background`; `None` stands for Python's `render_flags == None`. */
  function LabelAsBackground(renderFlags: Option<set<RenderFlag>>, sideName: string): (r: bool)
  {
    if renderFlags.None? then false
    else if LabelDownAsBackground in renderFlags.value && Contains(sideName, DownToken) then true
    else if LabelUpAsBackground in renderFlags.value && Contains(sideName, UpToken) then true
    else false
  }

  /**
   * Without flags nothing is background; otherwise a side is background iff
   * DOWN is labelled and `_down_` occurs in its name, or UP is labelled and
   * `_up_` occurs in its name.
   */
  lemma LabelAsBackgroundIff(renderFlags: Option<set<RenderFlag>>, sideName: string)
    ensures renderFlags.None? ==> !LabelAsBackground(renderFlags, sideName)
    ensures renderFlags.Some? ==>
      (LabelAsBackground(renderFlags, sideName) <==>
         || (LabelDownAsBackground in renderFlags.value && exists i :: OccursAt(sideName, DownToken, i))
         || (LabelUpAsBackground in renderFlags.value && exists i :: OccursAt(sideName, UpToken, i)))
  {
    TokensContained(sideName);
  }

  /** LABEL_TOP_AND_BOTTOM_AS_BACKGROUND labels exactly the sides naming `_up_` or `_down_`. */
  lemma TopAndBottomBackground(sideName: string)
    ensures LabelAsBackground(Some(LabelTopAndBottomAsBackground), sideName) <==>
      (exists i :: OccursAt(sideName, DownToken, i)) || (exists i :: OccursAt(sideName, UpToken, i))
  {
    LabelAsBackgroundIff(Some(LabelTopAndBottomAsBackground), sideName);
  }
}
