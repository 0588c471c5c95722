/** The deep merge of a raw overlay into a rendered document. */
module DeepMerging {
  datatype Yaml =
    | Null
    | Scalar(text: string)
    | List(items: seq<Yaml>)
    | Map(fields: map<string, Yaml>)

  /** What a value shows at a path: nothing, a mapping, or something that is not a mapping. */
  datatype Shape = Absent | Node | Leaf(value: Yaml)

  /** The specification: the overlay wins wherever the two are not both mappings. */
  function Merge(base: Yaml, overlay: Yaml): Yaml
    decreases overlay
  {
    if base.Map? && overlay.Map? then
      Map(map k | k in base.fields.Keys + overlay.fields.Keys ::
        if k !in overlay.fields then base.fields[k]
        else if k !in base.fields then overlay.fields[k]
        else Merge(base.fields[k], overlay.fields[k]))
    else overlay
  }

  function ShapeOf(y: Yaml): Shape
  {
    if y.Map? then Node else Leaf(y)
  }

  function ShapeAt(y: Yaml, path: seq<string>): Shape
  {
    if path == [] then ShapeOf(y)
    else if y.Map? && path[0] in y.fields then ShapeAt(y.fields[path[0]], path[1..])
    else Absent
  }

  /** Whether something that is not a mapping stands on the way to the path. */
  predicate Cuts(y: Yaml, path: seq<string>)
  {
    exists n | 0 <= n < |path| :: ShapeAt(y, path[..n]).Leaf?
  }

  method DeepMerge(base: map<string, Yaml>, overlay: map<string, Yaml>) returns (result: map<string, Yaml>)
    ensures Map(result) == Merge(Map(base), Map(overlay))
    decreases Map(overlay)
  {
    result := base;
    var rest := overlay.Keys;
    while rest != {}
      invariant rest <= overlay.Keys
      invariant result.Keys == base.Keys + (overlay.Keys - rest)
      invariant forall k :: k in base && (k !in overlay || k in rest) ==> result[k] == base[k]
      invariant forall k :: k in overlay && k !in rest ==>
          result[k] == if k in base then Merge(base[k], overlay[k]) else overlay[k]
    {
      var k :| k in rest;
      rest := rest - {k};
      var v := overlay[k];
      if k in result && result[k].Map? && v.Map? {
        assert v < Map(overlay);
        var inner := DeepMerge(result[k].fields, v.fields);
        result := result[k := Map(inner)];
      } else {
        result := result[k := v];
      }
    }
    assert Map(result).fields == Merge(Map(base), Map(overlay)).fields;
  }

  // ------------------------------------------------------------ path law

  lemma CutsStep(y: Yaml, path: seq<string>)
    requires path != []
    ensures Cuts(y, path) <==>
            !y.Map? || (path[0] in y.fields && Cuts(y.fields[path[0]], path[1..]))
  {
    if !y.Map? {
      assert path[..0] == [];
      assert ShapeAt(y, path[..0]).Leaf?;
    } else {
      if Cuts(y, path) {
        var n :| 0 <= n < |path| && ShapeAt(y, path[..n]).Leaf?;
        assert n > 0 && path[..n][0] == path[0] && path[..n][1..] == path[1..][..n - 1];
      }
      if path[0] in y.fields && Cuts(y.fields[path[0]], path[1..]) {
        var n :| 0 <= n < |path[1..]| && ShapeAt(y.fields[path[0]], path[1..][..n]).Leaf?;
        assert path[..n + 1][0] == path[0] && path[..n + 1][1..] == path[1..][..n];
        assert ShapeAt(y, path[..n + 1]).Leaf?;
      }
    }
  }

  lemma {:induction false} CutIsAbsent(y: Yaml, path: seq<string>)
    requires Cuts(y, path)
    ensures ShapeAt(y, path) == Absent
  {
    CutsStep(y, path);
    if y.Map? {
      CutIsAbsent(y.fields[path[0]], path[1..]);
    }
  }

  /** The overlay shows through where it has something, hides the base below anything of its
    * own that is not a mapping, and leaves the base alone elsewhere. */
  function Shown(base: Yaml, overlay: Yaml, path: seq<string>): Shape
  {
    if Cuts(overlay, path) then Absent
    else if ShapeAt(overlay, path) != Absent then ShapeAt(overlay, path)
    else ShapeAt(base, path)
  }

  lemma {:induction false} PathLaw(base: Yaml, overlay: Yaml, path: seq<string>)
    ensures ShapeAt(Merge(base, overlay), path) == Shown(base, overlay, path)
  {
    if path != [] {
      CutsStep(overlay, path);
      if Cuts(overlay, path) {
        CutIsAbsent(overlay, path);
      }
      hide Cuts;
      if base.Map? && overlay.Map? && path[0] in base.fields && path[0] in overlay.fields {
        PathLaw(base.fields[path[0]], overlay.fields[path[0]], path[1..]);
      }
    }
  }

  lemma KeyShows(y: Yaml, k: string)
    requires y.Map?
    ensures k in y.fields <==> ShapeAt(y, [k]) != Absent
  {
    if k in y.fields {
      assert [k][1..] == [];
    }
  }

  /** A value is determined by what it shows at every path. */
  lemma {:induction false} ShapesDecide(x: Yaml, y: Yaml)
    requires forall path :: ShapeAt(x, path) == ShapeAt(y, path)
    ensures x == y
    decreases x
  {
    assert ShapeAt(x, []) == ShapeAt(y, []);
    if x.Map? {
      forall k ensures k in x.fields <==> k in y.fields {
        KeyShows(x, k);
        KeyShows(y, k);
        assert ShapeAt(x, [k]) == ShapeAt(y, [k]);
      }
      forall k | k in x.fields ensures x.fields[k] == y.fields[k] {
        forall path ensures ShapeAt(x.fields[k], path) == ShapeAt(y.fields[k], path) {
          assert ([k] + path)[1..] == path;
          assert ShapeAt(x, [k] + path) == ShapeAt(y, [k] + path);
        }
        ShapesDecide(x.fields[k], y.fields[k]);
      }
      assert x.fields == y.fields;
    }
  }

  /** The merge is the one value that obeys the path law. */
  lemma MergeIsPathLaw(base: Yaml, overlay: Yaml, r: Yaml)
    ensures r == Merge(base, overlay) <==> forall path :: ShapeAt(r, path) == Shown(base, overlay, path)
  {
    hide Merge, Shown;
    forall path ensures ShapeAt(Merge(base, overlay), path) == Shown(base, overlay, path) {
      PathLaw(base, overlay, path);
    }
    if forall path :: ShapeAt(r, path) == Shown(base, overlay, path) {
      ShapesDecide(r, Merge(base, overlay));
    }
  }

  /** An overlay null is stored at its path, whatever the base has there: it deletes nothing,
    * unlike a merge patch of section 2 of RFC 7396. */
  lemma NullIsStored(base: Yaml, overlay: Yaml, path: seq<string>)
    requires ShapeAt(overlay, path) == Leaf(Null)
    ensures ShapeAt(Merge(base, overlay), path) == Leaf(Null)
  {
    PathLaw(base, overlay, path);
    if Cuts(overlay, path) {
      CutIsAbsent(overlay, path);
    }
  }

  // ------------------------------------------------------------- algebra

  lemma EmptyIsIdentity(y: Yaml)
    ensures Merge(Map(map[]), y) == y
    ensures Merge(y, Map(map[])) == y <==> y.Map?
  {
    if y.Map? {
      assert Merge(Map(map[]), y).fields == y.fields;
      assert Merge(y, Map(map[])).fields == y.fields;
    }
  }

  lemma {:induction false} OverlayTwiceIsOnce(base: Yaml, overlay: Yaml)
    ensures Merge(Merge(base, overlay), overlay) == Merge(base, overlay)
    decreases overlay
  {
    if overlay.Map? {
      var once := Merge(base, overlay);
      forall k | k in overlay.fields ensures Merge(once.fields[k], overlay.fields[k]) == once.fields[k] {
        if base.Map? && k in base.fields {
          OverlayTwiceIsOnce(base.fields[k], overlay.fields[k]);
        } else {
          MergeSelf(overlay.fields[k]);
        }
      }
      assert Merge(once, overlay).fields == once.fields;
    }
  }

  lemma {:induction false} MergeSelf(y: Yaml)
    ensures Merge(y, y) == y
  {
    if y.Map? {
      forall k | k in y.fields ensures Merge(y.fields[k], y.fields[k]) == y.fields[k] {
        MergeSelf(y.fields[k]);
      }
      assert Merge(y, y).fields == y.fields;
    }
  }

  /** Whether every path of `a` that stays in mappings is a path of `c`. */
  predicate Within(a: Yaml, c: Yaml)
  {
    a.Map? && c.Map? ==>
      forall k :: k in a.fields ==> k in c.fields && Within(a.fields[k], c.fields[k])
  }

  lemma {:induction false} AbsorbedIff(a: Yaml, c: Yaml)
    ensures Merge(a, c) == c <==> Within(a, c)
    decreases c
  {
    if a.Map? && c.Map? {
      forall k | k in a.fields && k in c.fields
        ensures Merge(a.fields[k], c.fields[k]) == c.fields[k] <==> Within(a.fields[k], c.fields[k])
      {
        AbsorbedIff(a.fields[k], c.fields[k]);
      }
      if Within(a, c) {
        assert Merge(a, c).fields == c.fields;
      }
    }
  }

  /** Where all three are mappings, on every common key; where only the outer two are, the
    * first must have nothing the last would not cover. */
  predicate Associates(a: Yaml, b: Yaml, c: Yaml)
  {
    if a.Map? && b.Map? && c.Map? then
      forall k :: k in a.fields && k in b.fields && k in c.fields ==>
        Associates(a.fields[k], b.fields[k], c.fields[k])
    else a.Map? && c.Map? ==> Within(a, c)
  }

  lemma {:induction false} AssociativeIff(a: Yaml, b: Yaml, c: Yaml)
    ensures Merge(Merge(a, b), c) == Merge(a, Merge(b, c)) <==> Associates(a, b, c)
    decreases c
  {
    if a.Map? && b.Map? && c.Map? {
      var left, right := Merge(Merge(a, b), c), Merge(a, Merge(b, c));
      forall k | k in a.fields && k in b.fields && k in c.fields
        ensures left.fields[k] == right.fields[k] <==> Associates(a.fields[k], b.fields[k], c.fields[k])
      {
        AssociativeIff(a.fields[k], b.fields[k], c.fields[k]);
      }
      assert left.fields.Keys == right.fields.Keys;
      if Associates(a, b, c) {
        assert left.fields == right.fields;
      }
    } else {
      AbsorbedIff(a, c);
    }
  }

  /** With a null between two mappings the order of merging shows. */
  lemma NullBetweenMappings(a: Yaml, c: Yaml, k: string)
    requires a.Map? && c.Map? && k in a.fields && k !in c.fields
    ensures Merge(Merge(a, Null), c) != Merge(a, Merge(Null, c))
  {
    AssociativeIff(a, Null, c);
  }
}
