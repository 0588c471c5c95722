/** Variables: which definition counts, and which value a variable gets. */
module Variables {
  import opened Options
  import opened Seqs
  import opened Blocks
  import opened Layering

  datatype CtyType = CtyString | CtyNumber | CtyBool | CtyDynamic

  datatype Value = Text(text: string) | Number(digits: string) | Bool(holds: bool) | Structured(json: string)

  datatype Decl = Decl(declared: string, ctyType: CtyType, default: Option<Value>, allowed: seq<string>)

  type Decls = map<string, Decl>

  // ------------------------------------------------------ layered files

  datatype File = File(decls: Decls, defaults: Option<IngressDefaults>)

  /** The vars.kdef of a directory on the walk; a file that does not parse is None. */
  datatype Level = NoFile | BrokenFile | Vars(imports: seq<Option<File>>, own: File)

  datatype Loaded = Loaded(decls: Decls, defaults: Option<IngressDefaults>)

  function ImportLayers(imports: seq<Option<File>>): seq<Decls>
  {
    if imports == [] then []
    else
      var last := imports[|imports| - 1];
      ImportLayers(imports[..|imports| - 1]) + if last.Some? then [last.value.decls] else []
  }

  /** One directory's layers: its imports, at the leaf the --vars-from files, its own. */
  function LevelLayers(level: Level, extra: seq<Option<Decls>>): seq<Decls>
  {
    if level.Vars? then ImportLayers(level.imports) + Present(extra) + [level.own.decls] else []
  }

  /** The --vars-from files count at the last directory only, and only if it has a vars.kdef. */
  function Layers(levels: seq<Level>, leaf: int, varsFrom: seq<Option<Decls>>): seq<Decls>
  {
    if levels == [] then []
    else
      var i := |levels| - 1;
      Layers(levels[..i], leaf, varsFrom) + LevelLayers(levels[i], if i == leaf then varsFrom else [])
  }

  predicate AllParse<T(==)>(files: seq<Option<T>>)
  {
    forall f :: f in files ==> f.Some?
  }

  /** Every file the walk reads parses. */
  predicate Readable(levels: seq<Level>, leaf: int, varsFrom: seq<Option<Decls>>)
  {
    forall i | 0 <= i < |levels| :: LevelReadable(levels[i], i == leaf, varsFrom)
  }

  function FirstDefaults(imports: seq<Option<File>>): Option<IngressDefaults>
  {
    if imports == [] then None
    else
      var before := FirstDefaults(imports[..|imports| - 1]);
      var last := imports[|imports| - 1];
      if before.Some? then before else if last.Some? then last.value.defaults else None
  }

  /** An import's defaults count while there are none; a file's own replace what there is. */
  function DefaultsAfter(levels: seq<Level>): Option<IngressDefaults>
  {
    if levels == [] then None
    else
      var before := DefaultsAfter(levels[..|levels| - 1]);
      var level := levels[|levels| - 1];
      if !level.Vars? then before
      else if level.own.defaults.Some? then level.own.defaults
      else if before.Some? then before
      else FirstDefaults(level.imports)
  }

  method LoadVariablesWalk(levels: seq<Level>, varsFrom: seq<Option<Decls>>) returns (r: Result<Loaded, ()>)
    ensures r.Ok? <==> Readable(levels, |levels| - 1, varsFrom)
    ensures r.Ok? ==> r.value.decls == Overlay(Layers(levels, |levels| - 1, varsFrom))
    ensures r.Ok? ==> r.value.defaults == DefaultsAfter(levels)
  {
    hide Overlay, Layers, DefaultsAfter, ImportLayers, Present, FirstDefaults, AllParse, Readable;
    ghost var leaf := |levels| - 1;
    var decls: Decls, defaults: Option<IngressDefaults> := map[], None;
    WalkStarts(leaf, varsFrom);
    assert levels[..0] == [];
    for i := 0 to |levels|
      invariant decls == Overlay(Layers(levels[..i], leaf, varsFrom)) && defaults == DefaultsAfter(levels[..i])
      invariant Readable(levels[..i], leaf, varsFrom)
    {
      WalkStep(levels, leaf, varsFrom, i);
      ghost var before := Layers(levels[..i], leaf, varsFrom);
      match levels[i]
      case NoFile => assert before + [] == before;
      case BrokenFile => return Err(());
      case Vars(imports, own) =>
        var ok;
        ok, decls, defaults := LoadImports(imports, before, decls, defaults);
        if !ok { return Err(()); }
        ghost var layers := before + ImportLayers(imports);
        ghost var extra := if i == leaf then varsFrom else [];
        if i == |levels| - 1 {
          ok, decls := LoadVarsFrom(varsFrom, layers, decls);
          if !ok { return Err(()); }
        } else {
          assert layers + Present(extra) == layers by { NoExtra(); }
        }
        OverlaySnoc(layers + Present(extra), own.decls);
        assert layers + Present(extra) + [own.decls] == before + LevelLayers(levels[i], extra);
        decls := decls + own.decls;
        if own.defaults.Some? {
          defaults := own.defaults;
        }
    }
    assert levels[..|levels|] == levels;
    return Ok(Loaded(decls, defaults));
  }

  lemma WalkStarts(leaf: int, varsFrom: seq<Option<Decls>>)
    ensures Overlay(Layers([], leaf, varsFrom)) == map[] && DefaultsAfter([]) == None && Readable([], leaf, varsFrom)
  {
  }

  lemma NoExtra()
    ensures Present<Decl>([]) == []
  {
  }

  predicate LevelReadable(level: Level, isLeaf: bool, varsFrom: seq<Option<Decls>>)
  {
    !level.BrokenFile? && (level.Vars? ==> AllParse(level.imports) && (isLeaf ==> AllParse(varsFrom)))
  }

  lemma WalkStep(levels: seq<Level>, leaf: int, varsFrom: seq<Option<Decls>>, i: nat)
    requires i < |levels|
    ensures Layers(levels[..i + 1], leaf, varsFrom) ==
            Layers(levels[..i], leaf, varsFrom) + LevelLayers(levels[i], if i == leaf then varsFrom else [])
    ensures var before := DefaultsAfter(levels[..i]);
            DefaultsAfter(levels[..i + 1]) ==
            if !levels[i].Vars? then before
            else if levels[i].own.defaults.Some? then levels[i].own.defaults
            else if before.Some? then before
            else FirstDefaults(levels[i].imports)
    ensures Readable(levels[..i + 1], leaf, varsFrom) <==>
            Readable(levels[..i], leaf, varsFrom) && LevelReadable(levels[i], i == leaf, varsFrom)
    ensures Readable(levels, leaf, varsFrom) ==> LevelReadable(levels[i], i == leaf, varsFrom)
  {
    hide LevelLayers, AllParse, FirstDefaults;
    assert levels[..i + 1][..i] == levels[..i];
  }

  method LoadImports(imports: seq<Option<File>>, ghost before: seq<Decls>, loaded: Decls,
                     inherited: Option<IngressDefaults>)
    returns (ok: bool, decls: Decls, defaults: Option<IngressDefaults>)
    requires loaded == Overlay(before)
    ensures ok <==> AllParse(imports)
    ensures ok ==> decls == Overlay(before + ImportLayers(imports))
    ensures ok ==> defaults == if inherited.Some? then inherited else FirstDefaults(imports)
  {
    hide Overlay;
    ok, decls, defaults := true, loaded, inherited;
    assert before + ImportLayers([]) == before;
    for i := 0 to |imports|
      invariant ok && AllParse(imports[..i])
      invariant decls == Overlay(before + ImportLayers(imports[..i]))
      invariant defaults == if inherited.Some? then inherited else FirstDefaults(imports[..i])
    {
      assert imports[..i + 1][..i] == imports[..i] && imports[..i + 1] == imports[..i] + [imports[i]];
      match imports[i]
      case None =>
        assert imports[i] in imports;
        return false, decls, defaults;
      case Some(file) =>
        OverlaySnoc(before + ImportLayers(imports[..i]), file.decls);
        assert before + ImportLayers(imports[..i]) + [file.decls] == before + ImportLayers(imports[..i + 1]);
        decls := decls + file.decls;
        if file.defaults.Some? && defaults.None? {
          defaults := file.defaults;
        }
    }
    assert imports[..|imports|] == imports;
  }

  method LoadVarsFrom(files: seq<Option<Decls>>, ghost before: seq<Decls>, loaded: Decls)
    returns (ok: bool, decls: Decls)
    requires loaded == Overlay(before)
    ensures ok <==> AllParse(files)
    ensures ok ==> decls == Overlay(before + Present(files))
  {
    hide Overlay;
    ok, decls := true, loaded;
    assert before + Present([]) == before;
    for i := 0 to |files|
      invariant ok && AllParse(files[..i])
      invariant decls == Overlay(before + Present(files[..i]))
    {
      assert files[..i + 1][..i] == files[..i] && files[..i + 1] == files[..i] + [files[i]];
      match files[i]
      case None =>
        assert files[i] in files;
        return false, decls;
      case Some(m) =>
        OverlaySnoc(before + Present(files[..i]), m);
        assert before + Present(files[..i]) + [m] == before + Present(files[..i + 1]);
        decls := decls + m;
    }
    assert files[..|files|] == files;
  }

  // ------------------------------------------------ which declaration counts

  function Lookup<V>(m: map<string, V>, name: string): Option<V>
  {
    if name in m then Some(m[name]) else None
  }

  /** The declarations of the imported files. */
  function ImportDecls(imports: seq<Option<File>>): (r: seq<Option<Decls>>)
    ensures |r| == |imports|
  {
    seq(|imports|, i requires 0 <= i < |imports| => if imports[i].Some? then Some(imports[i].value.decls) else None)
  }

  lemma {:induction false} ImportsPresent(imports: seq<Option<File>>)
    ensures ImportLayers(imports) == Present(ImportDecls(imports))
  {
    if imports != [] {
      var n := |imports| - 1;
      ImportsPresent(imports[..n]);
      assert ImportDecls(imports)[..n] == ImportDecls(imports[..n]);
    }
  }

  predicate Somewhere(files: seq<Option<Decls>>, name: string)
  {
    exists k :: 0 <= k < |files| && Has(files, k, name)
  }

  /** A directory's vars.kdef says something of the name, its imports and extra files included. */
  predicate Mentions(level: Level, extra: seq<Option<Decls>>, name: string)
  {
    level.Vars? && (name in level.own.decls || Somewhere(extra, name) || Somewhere(ImportDecls(level.imports), name))
  }

  /** The last of the files that has the name has this declaration of it. */
  ghost predicate LastSays(files: seq<Option<Decls>>, name: string, d: Decl)
  {
    exists k :: 0 <= k < |files| && Has(files, k, name) && d == files[k].value[name]
                && forall j :: k < j < |files| ==> !Has(files, j, name)
  }

  lemma FilesDecide(files: seq<Option<Decls>>, name: string)
    ensures Lookup(Overlay(Present(files)), name).Some? <==> Somewhere(files, name)
    ensures forall d :: LastSays(files, name, d) ==> Lookup(Overlay(Present(files)), name) == Some(d)
  {
    hide Overlay, Present;
    if !Somewhere(files, name) {
      NoFileHas(files, name);
    } else {
      var k := LastWith(files, name);
      LastFile(files, k, name);
    }
    forall d | LastSays(files, name, d) ensures Lookup(Overlay(Present(files)), name) == Some(d) {
      var k :| 0 <= k < |files| && Has(files, k, name) && d == files[k].value[name]
               && forall j :: k < j < |files| ==> !Has(files, j, name);
      LastFile(files, k, name);
    }
  }

  lemma {:induction false} LastWith(files: seq<Option<Decls>>, name: string) returns (k: nat)
    requires Somewhere(files, name)
    ensures k < |files| && Has(files, k, name) && forall j :: k < j < |files| ==> !Has(files, j, name)
  {
    var n := |files| - 1;
    if Has(files, n, name) {
      k := n;
    } else {
      var init := files[..n];
      assert forall j :: 0 <= j < n ==> Has(init, j, name) == Has(files, j, name);
      k := LastWith(init, name);
    }
  }

  /** In one directory: its own declaration, else the last extra file's, else the last import's. */
  lemma LevelDecides(level: Level, extra: seq<Option<Decls>>, name: string)
    requires level.Vars?
    ensures var found := Lookup(Overlay(LevelLayers(level, extra)), name);
            && (name in level.own.decls ==> found == Some(level.own.decls[name]))
            && (name !in level.own.decls ==> forall d :: LastSays(extra, name, d) ==> found == Some(d))
            && (name !in level.own.decls && !Somewhere(extra, name) ==>
                  forall d :: LastSays(ImportDecls(level.imports), name, d) ==> found == Some(d))
            && (found.Some? <==> Mentions(level, extra, name))
  {
    hide Overlay, Present, LastSays, Somewhere, ImportLayers;
    ImportsPresent(level.imports);
    FilesDecide(ImportDecls(level.imports), name);
    FilesDecide(extra, name);
    OverlayConcat(ImportLayers(level.imports), Present(extra));
    OverlaySnoc(ImportLayers(level.imports) + Present(extra), level.own.decls);
  }

  function ExtraAt(i: int, leaf: int, varsFrom: seq<Option<Decls>>): seq<Option<Decls>>
  {
    if i == leaf then varsFrom else []
  }

  /** A name is declared as its deepest directory on the walk declares it; the extra files belong
    * to the leaf. */
  lemma {:induction false} DeepestDecides(levels: seq<Level>, leaf: int, varsFrom: seq<Option<Decls>>, name: string, i: nat)
    requires i < |levels| && Mentions(levels[i], ExtraAt(i, leaf, varsFrom), name)
    requires forall j :: i < j < |levels| ==> !Mentions(levels[j], ExtraAt(j, leaf, varsFrom), name)
    ensures Lookup(Overlay(Layers(levels, leaf, varsFrom)), name) ==
            Lookup(Overlay(LevelLayers(levels[i], ExtraAt(i, leaf, varsFrom))), name)
    decreases |levels|
  {
    hide Overlay, Mentions, LevelLayers;
    var n := |levels| - 1;
    LevelFound(levels[n], ExtraAt(n, leaf, varsFrom), name);
    OverlayConcat(Layers(levels[..n], leaf, varsFrom), LevelLayers(levels[n], ExtraAt(n, leaf, varsFrom)));
    if i < n {
      assert forall j :: 0 <= j < n ==> levels[..n][j] == levels[j];
      DeepestDecides(levels[..n], leaf, varsFrom, name, i);
      assert !Mentions(levels[n], ExtraAt(n, leaf, varsFrom), name);
    }
  }

  lemma LevelFound(level: Level, extra: seq<Option<Decls>>, name: string)
    ensures Lookup(Overlay(LevelLayers(level, extra)), name).Some? <==> Mentions(level, extra, name)
  {
    if level.Vars? {
      LevelDecides(level, extra, name);
    }
  }

  /** And a name that nobody mentions is not declared. */
  lemma {:induction false} NobodyDecides(levels: seq<Level>, leaf: int, varsFrom: seq<Option<Decls>>, name: string)
    requires forall j :: 0 <= j < |levels| ==> !Mentions(levels[j], ExtraAt(j, leaf, varsFrom), name)
    ensures name !in Overlay(Layers(levels, leaf, varsFrom))
  {
    if levels != [] {
      hide Overlay, Mentions, LevelLayers;
      var n := |levels| - 1;
      LevelFound(levels[n], ExtraAt(n, leaf, varsFrom), name);
      OverlayConcat(Layers(levels[..n], leaf, varsFrom), LevelLayers(levels[n], ExtraAt(n, leaf, varsFrom)));
      assert forall j :: 0 <= j < n ==> levels[..n][j] == levels[j];
      NobodyDecides(levels[..n], leaf, varsFrom, name);
    }
  }

  predicate OwnDefaults(level: Level)
  {
    level.Vars? && level.own.defaults.Some?
  }

  /** The deepest directory with defaults of its own decides. */
  lemma {:induction false} DeepestOwnDefaults(levels: seq<Level>, i: nat)
    requires i < |levels| && OwnDefaults(levels[i])
    requires forall j :: i < j < |levels| ==> !OwnDefaults(levels[j])
    ensures DefaultsAfter(levels) == levels[i].own.defaults
    decreases |levels|
  {
    var n := |levels| - 1;
    if i < n {
      var init := levels[..n];
      assert init[i] == levels[i] && forall j :: i < j < n ==> init[j] == levels[j];
      DeepestOwnDefaults(init, i);
      assert !OwnDefaults(levels[n]);
    }
  }

  /** Without such a directory it is the first import anywhere on the walk that has some,
    * however many deeper imports have them too. */
  lemma {:induction false} FirstImportDefaults(levels: seq<Level>)
    requires forall i :: 0 <= i < |levels| ==> !OwnDefaults(levels[i])
    ensures DefaultsAfter(levels) == FirstDefaults(AllImports(levels))
  {
    hide FirstDefaults;
    if levels == [] {
      NoDefaults();
    } else {
      var n := |levels| - 1;
      var init := levels[..n];
      assert forall i :: 0 <= i < n ==> init[i] == levels[i];
      FirstImportDefaults(init);
      FirstDefaultsConcat(AllImports(init), if levels[n].Vars? then levels[n].imports else []);
      assert !OwnDefaults(levels[n]);
      NoDefaults();
    }
  }

  /** Of several imports the first that has defaults. */
  lemma {:induction false} FirstDefaultsIs(imports: seq<Option<File>>, k: nat)
    requires k < |imports| && imports[k].Some? && imports[k].value.defaults.Some?
    requires forall j :: 0 <= j < k && imports[j].Some? ==> imports[j].value.defaults.None?
    ensures FirstDefaults(imports) == imports[k].value.defaults
    decreases |imports|
  {
    var n := |imports| - 1;
    if k < n {
      FirstDefaultsIs(imports[..n], k);
    } else {
      NoDefaultsBefore(imports[..n]);
    }
  }

  lemma {:induction false} NoDefaultsBefore(imports: seq<Option<File>>)
    requires forall j :: 0 <= j < |imports| && imports[j].Some? ==> imports[j].value.defaults.None?
    ensures FirstDefaults(imports) == None
  {
    if imports != [] { NoDefaultsBefore(imports[..|imports| - 1]); }
  }

  lemma NoDefaults()
    ensures FirstDefaults([]) == None
  {
  }

  function AllImports(levels: seq<Level>): seq<Option<File>>
  {
    if levels == [] then []
    else AllImports(levels[..|levels| - 1]) + if levels[|levels| - 1].Vars? then levels[|levels| - 1].imports else []
  }

  lemma {:induction false} FirstDefaultsConcat(a: seq<Option<File>>, b: seq<Option<File>>)
    ensures FirstDefaults(a + b) == if FirstDefaults(a).Some? then FirstDefaults(a) else FirstDefaults(b)
  {
    if b == [] {
      assert a + b == a;
    } else {
      assert (a + b)[..|a + b| - 1] == a + b[..|b| - 1];
      FirstDefaultsConcat(a, b[..|b| - 1]);
    }
  }

  // ------------------------------------------------------------- values

  datatype EvalError = StructuredOverride | NotAllowed | NotOfType | Missing

  /** A --set string in the declared type; convert is the library's conversion of a string. */
  function OverrideValue(d: Decl, raw: string, convert: (CtyType, string) -> Option<Value>): Result<Value, EvalError>
  {
    if d.allowed != [] && raw !in d.allowed then Err(NotAllowed)
    else if d.ctyType in {CtyNumber, CtyBool} then
      match convert(d.ctyType, raw)
      case None => Err(NotOfType)
      case Some(v) => Ok(v)
    else Ok(Text(raw))
  }

  /** A variable's value: --set, then --values, then its default. */
  function Resolve(d: Decl, chosen: Option<string>, given: Option<Value>, convert: (CtyType, string) -> Option<Value>)
    : Result<Value, EvalError>
  {
    match chosen
    case Some(raw) => if d.declared in {"list", "any"} then Err(StructuredOverride) else OverrideValue(d, raw, convert)
    case None =>
      match given
      case Some(v) => Ok(v)
      case None => if d.default.Some? then Ok(d.default.value) else Err(Missing)
  }

  function Resolved(vars: Decls, overrides: map<string, string>, extra: map<string, Value>,
                    convert: (CtyType, string) -> Option<Value>, name: string): Result<Value, EvalError>
    requires name in vars
  {
    Resolve(vars[name], Lookup(overrides, name), Lookup(extra, name), convert)
  }

  /** The values of the variables in order, over those from --values. */
  function ValuesOf(vars: Decls, overrides: map<string, string>, extra: map<string, Value>,
                    convert: (CtyType, string) -> Option<Value>, names: set<string>): map<string, Value>
  {
    extra + map n | n in names && n in vars && Resolved(vars, overrides, extra, convert, n).Ok? ::
              Resolved(vars, overrides, extra, convert, n).value
  }

  function ErrorsOf(vars: Decls, overrides: map<string, string>, extra: map<string, Value>,
                    convert: (CtyType, string) -> Option<Value>, names: set<string>): map<string, EvalError>
  {
    map n | n in names && n in vars && Resolved(vars, overrides, extra, convert, n).Err? ::
      Resolved(vars, overrides, extra, convert, n).error
  }

  /** What one variable adds: a value, an error, or nothing when --values has it already. */
  method EvaluateOne(d: Decl, chosen: Option<string>, given: bool, ghost present: Option<Value>,
                     convert: (CtyType, string) -> Option<Value>)
    returns (value: Option<Value>, failed: Option<EvalError>)
    requires given <==> present.Some?
    ensures value.None? || failed.None?
    ensures value.None? && failed.None? ==> chosen.None? && given
    ensures Resolve(d, chosen, present, convert) ==
              if value.Some? then Ok(value.value) else if failed.Some? then Err(failed.value) else Ok(present.value)
  {
    hide OverrideValue;
    if chosen.Some? {
      if d.declared == "list" || d.declared == "any" {
        return None, Some(StructuredOverride);
      }
      match OverrideValue(d, chosen.value, convert)
      case Err(e) => return None, Some(e);
      case Ok(v) => return Some(v), None;
    }
    if given {
      return None, None;
    }
    if d.default.Some? {
      return d.default, None;
    }
    return None, Some(Missing);
  }

  lemma ValuesGrow(vars: Decls, overrides: map<string, string>, extra: map<string, Value>,
                   convert: (CtyType, string) -> Option<Value>, done: set<string>, name: string)
    requires name in vars && name !in done
    ensures name in ValuesOf(vars, overrides, extra, convert, done) <==> name in extra
    ensures var r := Resolved(vars, overrides, extra, convert, name);
            var values := ValuesOf(vars, overrides, extra, convert, done);
            ValuesOf(vars, overrides, extra, convert, done + {name}) == if r.Ok? then values[name := r.value] else values
  {
    hide Resolve;
  }

  lemma ErrorsGrow(vars: Decls, overrides: map<string, string>, extra: map<string, Value>,
                   convert: (CtyType, string) -> Option<Value>, done: set<string>, name: string)
    requires name in vars && name !in done
    ensures name !in ErrorsOf(vars, overrides, extra, convert, done)
    ensures var r := Resolved(vars, overrides, extra, convert, name);
            var errors := ErrorsOf(vars, overrides, extra, convert, done);
            ErrorsOf(vars, overrides, extra, convert, done + {name}) == if r.Err? then errors[name := r.error] else errors
  {
    hide Resolve;
  }

  /** The reported errors, each once, are those of the map. */
  ghost predicate Reports(errors: seq<(string, EvalError)>, m: map<string, EvalError>)
  {
    && NoDup(errors)
    && (forall p :: p in errors ==> p.0 in m && m[p.0] == p.1)
    && (forall n :: n in m ==> (n, m[n]) in errors)
  }

  lemma ReportsSnoc(errors: seq<(string, EvalError)>, m: map<string, EvalError>, name: string, e: EvalError)
    requires Reports(errors, m) && name !in m
    ensures Reports(errors + [(name, e)], m[name := e])
  {
    NoDupSnoc(errors, (name, e));
  }

  /** One name: --set, where it can be read, else --values, else the default; and no error but
    * where --set cannot be read or nothing is there. */
  ghost predicate FromItsSource(vars: Decls, overrides: map<string, string>, extra: map<string, Value>,
                                convert: (CtyType, string) -> Option<Value>,
                                values: map<string, Value>, errors: seq<(string, EvalError)>, n: string)
  {
    && (n !in vars ==> Lookup(values, n) == Lookup(extra, n) && Silent(errors, n))
    && (n in vars && n !in overrides ==>
          && (n in extra ==> Lookup(values, n) == Some(extra[n]) && Silent(errors, n))
          && (n !in extra && vars[n].default.Some? ==> Lookup(values, n) == vars[n].default && Silent(errors, n))
          && (n !in extra && vars[n].default.None? ==> n !in values && Only(errors, n, Missing)))
    && (n in vars && n in overrides ==>
          var d, raw := vars[n], overrides[n];
          var structured := d.declared == "list" || d.declared == "any";
          var refused := d.allowed != [] && raw !in d.allowed;
          var typed := d.ctyType == CtyNumber || d.ctyType == CtyBool;
          && (structured ==> Lookup(values, n) == Lookup(extra, n) && Only(errors, n, StructuredOverride))
          && (!structured && refused ==> Lookup(values, n) == Lookup(extra, n) && Only(errors, n, NotAllowed))
          && (!structured && !refused && typed && convert(d.ctyType, raw).None? ==>
                Lookup(values, n) == Lookup(extra, n) && Only(errors, n, NotOfType))
          && (!structured && !refused && typed && convert(d.ctyType, raw).Some? ==>
                Lookup(values, n) == convert(d.ctyType, raw) && Silent(errors, n))
          && (!structured && !refused && !typed ==> Lookup(values, n) == Some(Text(raw)) && Silent(errors, n)))
  }

  ghost predicate Silent(errors: seq<(string, EvalError)>, n: string)
  {
    forall p :: p in errors ==> p.0 != n
  }

  ghost predicate Only(errors: seq<(string, EvalError)>, n: string, e: EvalError)
  {
    (n, e) in errors && forall p :: p in errors && p.0 == n ==> p.1 == e
  }

  lemma SourcesDecide(vars: Decls, overrides: map<string, string>, extra: map<string, Value>,
                      convert: (CtyType, string) -> Option<Value>,
                      values: map<string, Value>, errors: seq<(string, EvalError)>, n: string)
    requires values == ValuesOf(vars, overrides, extra, convert, vars.Keys)
    requires Reports(errors, ErrorsOf(vars, overrides, extra, convert, vars.Keys))
    ensures FromItsSource(vars, overrides, extra, convert, values, errors, n)
  {
    var m := ErrorsOf(vars, overrides, extra, convert, vars.Keys);
    assert n !in m ==> Silent(errors, n);
    assert n in m ==> Only(errors, n, m[n]);
  }

  /** Whatever order the variables are ranged over in, the values and the reported errors are
    * the same. */
  method BuildEvalContext(vars: Decls, overrides: map<string, string>, extra: map<string, Value>,
                          convert: (CtyType, string) -> Option<Value>)
    returns (values: map<string, Value>, errors: seq<(string, EvalError)>)
    ensures values == ValuesOf(vars, overrides, extra, convert, vars.Keys)
    ensures Reports(errors, ErrorsOf(vars, overrides, extra, convert, vars.Keys))
    ensures NoDup(errors) && forall n :: FromItsSource(vars, overrides, extra, convert, values, errors, n)
  {
    hide FromItsSource;
    hide Resolve, ValuesOf, ErrorsOf, Reports;
    values := extra;
    errors := [];
    NothingYet(vars, overrides, extra, convert);
    var rest := vars.Keys;
    ghost var done: set<string> := {};
    while rest != {}
      invariant done !! rest && done + rest == vars.Keys
      invariant values == ValuesOf(vars, overrides, extra, convert, done)
      invariant Reports(errors, ErrorsOf(vars, overrides, extra, convert, done))
      decreases rest
    {
      var name :| name in rest;
      ValuesGrow(vars, overrides, extra, convert, done, name);
      ErrorsGrow(vars, overrides, extra, convert, done, name);
      var value, failed := EvaluateOne(vars[name], Lookup(overrides, name), name in values, Lookup(extra, name), convert);
      ghost var r := Resolved(vars, overrides, extra, convert, name);
      if name in extra {
        KeptAsGiven(vars, overrides, extra, convert, done, name);
      }
      if value.Some? {
        values := values[name := value.value];
      }
      if failed.Some? {
        ReportsSnoc(errors, ErrorsOf(vars, overrides, extra, convert, done), name, failed.value);
        errors := errors + [(name, failed.value)];
      }
      rest := rest - {name};
      done := done + {name};
    }
    assert done == vars.Keys;
    ReportedOnce(errors, ErrorsOf(vars, overrides, extra, convert, vars.Keys));
    forall n ensures FromItsSource(vars, overrides, extra, convert, values, errors, n) {
      SourcesDecide(vars, overrides, extra, convert, values, errors, n);
    }
  }

  lemma ReportedOnce(errors: seq<(string, EvalError)>, m: map<string, EvalError>)
    requires Reports(errors, m)
    ensures NoDup(errors)
  {
  }

  lemma NothingYet(vars: Decls, overrides: map<string, string>, extra: map<string, Value>,
                   convert: (CtyType, string) -> Option<Value>)
    ensures ValuesOf(vars, overrides, extra, convert, {}) == extra
    ensures Reports([], ErrorsOf(vars, overrides, extra, convert, {}))
  {
  }

  lemma KeptAsGiven(vars: Decls, overrides: map<string, string>, extra: map<string, Value>,
                    convert: (CtyType, string) -> Option<Value>, done: set<string>, name: string)
    requires name in extra && name in vars && name !in done
    ensures ValuesOf(vars, overrides, extra, convert, done)[name := extra[name]] ==
            ValuesOf(vars, overrides, extra, convert, done)
  {
    hide Resolve;
  }

  /** root.kdef's set under the entry's, under the command line's. */
  method MergeOverrides(root: map<string, string>, entry: map<string, string>, cli: map<string, string>)
    returns (overrides: map<string, string>)
    ensures overrides == Overlay([root, entry, cli])
  {
    OverlayThree(root, entry, cli);
    overrides := root;
    overrides := overrides + entry;
    overrides := overrides + cli;
  }

  function FirstOf<T>(a: Option<T>, b: Option<T>): Option<T>
  {
    if a.Some? then a else b
  }

  /** The sources in order for a root project's variable: command line, entry, root.kdef,
    * --values, default; and it fails exactly when none has it or the --set text is refused. */
  lemma SourcesInOrder(vars: Decls, root: map<string, string>, entry: map<string, string>, cli: map<string, string>,
                       extra: map<string, Value>, convert: (CtyType, string) -> Option<Value>, name: string)
    requires name in vars
    ensures var d := vars[name];
            var text := FirstOf(Lookup(cli, name), FirstOf(Lookup(entry, name), Lookup(root, name)));
            var r := Resolved(vars, Overlay([root, entry, cli]), extra, convert, name);
            && (r.Ok? ==>
                  Some(r.value) ==
                  if text.Some? then
                    (if d.ctyType in {CtyNumber, CtyBool} then convert(d.ctyType, text.value) else Some(Text(text.value)))
                  else FirstOf(Lookup(extra, name), d.default))
            && (r.Err? <==>
                  if text.Some? then
                    || d.declared in {"list", "any"}
                    || (d.allowed != [] && text.value !in d.allowed)
                    || (d.ctyType in {CtyNumber, CtyBool} && convert(d.ctyType, text.value).None?)
                  else name !in extra && d.default.None?)
  {
    OverlayThree(root, entry, cli);
  }
}
