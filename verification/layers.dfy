/** Maps over maps: what a later layer defines hides what an earlier one does. */
module Layering {
  import opened Options

  /** Layers over each other, the last on top. */
  function Overlay<V>(layers: seq<map<string, V>>): map<string, V>
  {
    if layers == [] then map[] else Overlay(layers[..|layers| - 1]) + layers[|layers| - 1]
  }

  /** A name has the value of the last layer that has it. */
  lemma {:induction false} LastLayerWins<V>(layers: seq<map<string, V>>, name: string)
    ensures name in Overlay(layers) <==> exists i :: 0 <= i < |layers| && name in layers[i]
    ensures forall i | 0 <= i < |layers| && name in layers[i] && (forall j :: i < j < |layers| ==> name !in layers[j]) ::
              Overlay(layers)[name] == layers[i][name]
  {
    if layers != [] {
      var n := |layers| - 1;
      LastLayerWins(layers[..n], name);
      if name in Overlay(layers) && name !in layers[n] {
        var i :| 0 <= i < n && name in layers[..n][i];
        assert name in layers[i];
      }
      forall i | 0 <= i < |layers| && name in layers[i] && (forall j :: i < j < |layers| ==> name !in layers[j])
        ensures Overlay(layers)[name] == layers[i][name]
      {
        if i < n {
          assert name in layers[..n][i];
          assert forall j :: i < j < n ==> name !in layers[..n][j];
        }
      }
    }
  }

  lemma OverlaySnoc<V>(layers: seq<map<string, V>>, m: map<string, V>)
    ensures Overlay(layers + [m]) == Overlay(layers) + m
  {
    assert (layers + [m])[..|layers|] == layers;
  }

  lemma {:induction false} OverlayConcat<V>(a: seq<map<string, V>>, b: seq<map<string, V>>)
    ensures Overlay(a + b) == Overlay(a) + Overlay(b)
  {
    if b == [] {
      assert a + b == a && Overlay(a) + map[] == Overlay(a);
    } else {
      assert (a + b)[..|a + b| - 1] == a + b[..|b| - 1];
      OverlayConcat(a, b[..|b| - 1]);
    }
  }

  lemma NoLayers<V>()
    ensures Overlay<V>([]) == map[]
  {
  }

  lemma OverlayThree<V>(a: map<string, V>, b: map<string, V>, c: map<string, V>)
    ensures Overlay([a, b, c]) == a + b + c
  {
    OverlaySnoc([], a);
    OverlaySnoc([a], b);
    OverlaySnoc([a, b], c);
    assert [] + [a] == [a] && [a] + [b] == [a, b] && [a, b] + [c] == [a, b, c];
    assert map[] + a == a;
  }

  // -------------------------------------------------- files that may be broken

  /** The layers of a list of files, of which a broken one gives none. */
  function Present<V>(files: seq<Option<map<string, V>>>): seq<map<string, V>>
  {
    if files == [] then []
    else
      var last := files[|files| - 1];
      Present(files[..|files| - 1]) + if last.Some? then [last.value] else []
  }

  predicate Has<V>(files: seq<Option<map<string, V>>>, k: nat, name: string)
    requires k < |files|
  {
    files[k].Some? && name in files[k].value
  }

  lemma PresentSnoc<V>(files: seq<Option<map<string, V>>>, last: Option<map<string, V>>)
    ensures Overlay(Present(files + [last])) == Overlay(Present(files)) + if last.Some? then last.value else map[]
  {
    assert (files + [last])[..|files|] == files;
    if last.Some? {
      OverlaySnoc(Present(files), last.value);
    } else {
      assert Present(files) + [] == Present(files);
    }
  }

  /** The last file that has the name decides. */
  lemma {:induction false} LastFile<V>(files: seq<Option<map<string, V>>>, k: nat, name: string)
    requires k < |files| && Has(files, k, name)
    requires forall j :: k < j < |files| ==> !Has(files, j, name)
    ensures name in Overlay(Present(files)) && Overlay(Present(files))[name] == files[k].value[name]
    decreases |files|
  {
    hide Overlay, Present;
    var n := |files| - 1;
    var init := files[..n];
    assert files == init + [files[n]];
    PresentSnoc(init, files[n]);
    if k < n {
      assert !Has(files, n, name);
      assert forall j :: 0 <= j < n ==> Has(init, j, name) == Has(files, j, name);
      LastFile(init, k, name);
    }
  }

  lemma {:induction false} NoFileHas<V>(files: seq<Option<map<string, V>>>, name: string)
    requires forall j :: 0 <= j < |files| ==> !Has(files, j, name)
    ensures name !in Overlay(Present(files))
  {
    if files != [] {
      hide Overlay, Present;
      var n := |files| - 1;
      var init := files[..n];
      assert files == init + [files[n]];
      PresentSnoc(init, files[n]);
      assert !Has(files, n, name);
      assert forall j :: 0 <= j < n ==> Has(init, j, name) == Has(files, j, name);
      NoFileHas(init, name);
    }
  }
}
