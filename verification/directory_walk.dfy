/** The walk from the root directory down to the directory that is loaded. */
module DirectoryWalk {
  import opened Options
  import opened Layering

  /** A cleaned absolute path, by its components. */
  type Path = seq<string>

  predicate Clean(p: Path)
  {
    forall c :: c in p ==> c != ""
  }

  function Common(a: Path, b: Path): (n: nat)
    ensures n <= |a| && n <= |b| && a[..n] == b[..n]
    ensures n < |a| && n < |b| ==> a[n] != b[n]
  {
    if a == [] || b == [] || a[0] != b[0] then 0 else 1 + Common(a[1..], b[1..])
  }

  /** filepath.Rel, for two paths that differ. */
  function Rel(root: Path, leaf: Path): Path
  {
    var k := Common(root, leaf);
    seq(|root| - k, _ => "..") + leaf[k..]
  }

  predicate DotDot(c: string)
  {
    |c| >= 2 && c[..2] == ".."
  }

  /** Whether the walk has more than the leaf: the root is a proper ancestor, and the next
    * component does not begin with two dots. */
  predicate Descends(root: Option<Path>, leaf: Path)
  {
    root.Some? && root.value <= leaf && |root.value| < |leaf| && !DotDot(leaf[|root.value|])
  }

  function Dirs(root: Option<Path>, leaf: Path): (r: seq<Path>)
  {
    if Descends(root, leaf) then
      var below := |leaf| - |root.value|;
      seq(below + 1, i requires 0 <= i <= below => leaf[..|root.value| + i])
    else [leaf]
  }

  lemma RelClimbs(root: Path, leaf: Path)
    requires root != leaf
    ensures Rel(root, leaf) != []
    ensures DotDot(Rel(root, leaf)[0]) <==> !Descends(Some(root), leaf)
    ensures Descends(Some(root), leaf) ==> Rel(root, leaf) == leaf[|root|..]
  {
    var k := Common(root, leaf);
    if k == |root| {
      assert root == leaf[..k];
      assert Rel(root, leaf) == leaf[k..];
    } else {
      assert Rel(root, leaf)[0] == "..";
    }
  }

  method DirsFromRootToLeaf(root: Option<Path>, leaf: Path) returns (dirs: seq<Path>)
    requires Clean(leaf)
    ensures dirs == Dirs(root, leaf)
  {
    if root.None? || root.value == leaf {
      return [leaf];
    }
    var rel := Rel(root.value, leaf);
    hide Common, Rel, DotDot;
    RelClimbs(root.value, leaf);
    if DotDot(rel[0]) {
      return [leaf];
    }
    hide Descends, Dirs, Clean;
    dirs := Descend(root.value, leaf, rel);
  }

  /** Goes down from the root one component at a time. */
  method Descend(root: Path, leaf: Path, rel: Path) returns (dirs: seq<Path>)
    requires Descends(Some(root), leaf) && Clean(leaf)
    requires rel == leaf[|root|..]
    ensures dirs == Dirs(Some(root), leaf)
  {
    hide Descends, Dirs, Clean;
    ghost var all := Dirs(Some(root), leaf);
    WalkBegins(root, leaf);
    dirs := [root];
    var cur := root;
    for i := 0 to |rel|
      invariant cur == all[i]
      invariant dirs == all[..i + 1]
    {
      NextDir(root, leaf, i);
      if rel[i] == "" {
        continue;
      }
      cur := cur + [rel[i]];
      dirs := dirs + [cur];
    }
  }

  lemma WalkBegins(root: Path, leaf: Path)
    requires Descends(Some(root), leaf)
    ensures |Dirs(Some(root), leaf)| == |leaf[|root|..]| + 1 && Dirs(Some(root), leaf)[0] == root
  {
  }

  lemma NextDir(root: Path, leaf: Path, i: nat)
    requires Descends(Some(root), leaf) && Clean(leaf) && i < |leaf[|root|..]|
    ensures |Dirs(Some(root), leaf)| > i + 1
    ensures leaf[|root|..][i] != ""
    ensures Dirs(Some(root), leaf)[i + 1] == Dirs(Some(root), leaf)[i] + [leaf[|root|..][i]]
  {
    assert leaf[|root|..][i] in leaf;
  }

  /** The walk ends at the leaf, goes down one component a step, and starts at the root exactly
    * when the root is the leaf or an ancestor whose next component does not begin with two dots. */
  lemma WalkIsDescent(root: Path, leaf: Path)
    ensures var dirs := Dirs(Some(root), leaf);
            && dirs != [] && dirs[|dirs| - 1] == leaf
            && (forall i :: 0 < i < |dirs| ==> |dirs[i]| == |dirs[i - 1]| + 1 && dirs[i - 1] < dirs[i])
            && (dirs[0] == root <==> root <= leaf && (root == leaf || !DotDot(leaf[|root|])))
            && (dirs[0] != root ==> dirs == [leaf])
    ensures Dirs(None, leaf) == [leaf]
  {
    if root <= leaf && |root| == |leaf| {
      assert root == leaf;
    }
  }

  // -------------------------------------------------------------- images

  /** The image blocks of a directory's files, in directory order; a broken file is None. */
  type Files = seq<Option<map<string, string>>>

  method ScanImages(files: Files) returns (r: Option<map<string, string>>)
    ensures r.Some? <==> forall f :: f in files ==> f.Some?
    ensures r.Some? ==> r.value == Overlay(Present(files))
  {
    hide Overlay;
    NoLayers<string>();
    var images: map<string, string> := map[];
    for i := 0 to |files|
      invariant forall f :: f in files[..i] ==> f.Some?
      invariant images == Overlay(Present(files[..i]))
    {
      assert files[..i + 1][..i] == files[..i] && files[i] in files;
      if files[i].None? {
        return None;
      }
      OverlaySnoc(Present(files[..i]), files[i].value);
      images := images + files[i].value;
    }
    assert files[..|files|] == files;
    return Some(images);
  }

  /** The blocks of all directories, the root's first. */
  function FoundBelow(dirs: seq<Option<Files>>): seq<map<string, string>>
  {
    if dirs == [] then []
    else
      var last := dirs[|dirs| - 1];
      FoundBelow(dirs[..|dirs| - 1]) + if last.Some? then Present(last.value) else []
  }

  predicate Readable(dir: Option<Files>)
  {
    dir.Some? && forall f :: f in dir.value ==> f.Some?
  }

  /** A directory that cannot be read, or a file that does not parse, fails the walk; otherwise
    * the result is one overlay of all blocks, so the deepest definition of an image counts. */
  method ScanImagesWalk(dirs: seq<Option<Files>>) returns (r: Option<map<string, string>>)
    ensures r.Some? <==> forall d :: d in dirs ==> Readable(d)
    ensures r.Some? ==> r.value == Overlay(FoundBelow(dirs))
  {
    hide Overlay, Present;
    NoLayers<string>();
    var images: map<string, string> := map[];
    for i := 0 to |dirs|
      invariant forall d :: d in dirs[..i] ==> Readable(d)
      invariant images == Overlay(FoundBelow(dirs[..i]))
    {
      assert dirs[..i + 1][..i] == dirs[..i] && dirs[i] in dirs;
      if dirs[i].None? {
        return None;
      }
      var found := ScanImages(dirs[i].value);
      if found.None? {
        return None;
      }
      OverlayConcat(FoundBelow(dirs[..i]), Present(dirs[i].value));
      images := images + found.value;
    }
    assert dirs[..|dirs|] == dirs;
    return Some(images);
  }

  predicate NamedIn(dir: Option<Files>, image: string)
  {
    dir.Some? && exists k :: 0 <= k < |dir.value| && Has(dir.value, k, image)
  }

  lemma BelowStep(dirs: seq<Option<Files>>, image: string)
    requires dirs != []
    ensures var n := |dirs| - 1;
            var mine := if dirs[n].Some? then Overlay(Present(dirs[n].value)) else map[];
            && Overlay(FoundBelow(dirs)) == Overlay(FoundBelow(dirs[..n])) + mine
            && (!NamedIn(dirs[n], image) ==> image !in mine)
  {
    hide Overlay, Present;
    var n := |dirs| - 1;
    if dirs[n].Some? {
      OverlayConcat(FoundBelow(dirs[..n]), Present(dirs[n].value));
      if !NamedIn(dirs[n], image) { NoFileHas(dirs[n].value, image); }
    } else {
      assert FoundBelow(dirs) == FoundBelow(dirs[..n]);
    }
  }

  /** On the walk the deepest directory that names an image decides, and in it the last file. */
  lemma {:induction false} DeepestImage(dirs: seq<Option<Files>>, i: nat, k: nat, image: string)
    requires i < |dirs| && dirs[i].Some? && k < |dirs[i].value| && Has(dirs[i].value, k, image)
    requires forall l :: k < l < |dirs[i].value| ==> !Has(dirs[i].value, l, image)
    requires forall j :: i < j < |dirs| ==> !NamedIn(dirs[j], image)
    ensures image in Overlay(FoundBelow(dirs)) && Overlay(FoundBelow(dirs))[image] == dirs[i].value[k].value[image]
    decreases |dirs|
  {
    hide Overlay, Present, FoundBelow, NamedIn, Has;
    var n := |dirs| - 1;
    BelowStep(dirs, image);
    if i < n {
      DeepestImage(dirs[..n], i, k, image);
    } else {
      LastFile(dirs[i].value, k, image);
    }
  }

  /** And an image that no file names is not there. */
  lemma {:induction false} NoImage(dirs: seq<Option<Files>>, image: string)
    requires forall j :: 0 <= j < |dirs| ==> !NamedIn(dirs[j], image)
    ensures image !in Overlay(FoundBelow(dirs))
  {
    if dirs != [] {
      hide Overlay, Present, FoundBelow, NamedIn;
      BelowStep(dirs, image);
      NoImage(dirs[..|dirs| - 1], image);
    }
  }
}
