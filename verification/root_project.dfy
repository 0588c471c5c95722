/** Root projects: directories listed in a root.kdef, which may be root projects themselves, loaded
  * one by one and merged. */
module RootProjects {
  import opened Options
  import opened Text
  import opened Seqs
  import opened SortedKeying
  import opened StableSort
  import opened Blocks
  import opened Duplicates
  import opened IngressChecks
  import opened Acceptance
  import opened Loader
  import opened ProjectLoad

  /** What a root.kdef sets for all it lists. */
  datatype Root = Root(namespaces: seq<string>, accounts: seq<Account>, ingressDefaults: Option<IngressDefaults>)

  /** A listed directory, with the namespace and account its blocks get. */
  datatype Entry = Entry(namespace: string, serviceAccount: string, project: Project)

  /** A directory as it is read: missing or with a file of its own that cannot be evaluated, its
    * files with the ingress defaults of the variable walk, or a root.kdef with the files beside it. */
  datatype Project =
    | Broken
    | Single(files: seq<Source>, defaults: Option<IngressDefaults>)
    | Composed(root: Root, files: seq<Source>, entries: map<string, Entry>)

  // ------------------------------------------------- what a project loads to

  /** A sub-project's config with its entry's namespace and account injected. */
  function Injected(c: Config, e: Entry): Config
  {
    var d := if e.namespace != "" then Namespaced(c, e.namespace) else c;
    if e.serviceAccount != "" then Accounted(d, e.serviceAccount) else d
  }

  /** A root config before any block is merged into it. */
  function RootBase(root: Root): Config
  {
    EMPTY.(namespaces := root.namespaces, accounts := root.accounts, ingressDefaults := root.ingressDefaults)
  }

  /** The blocks of a directory's files, merged. */
  function OwnBlocks(files: seq<Source>): Config
  {
    Merged(EMPTY, files)
  }

  function PartSources(parts: map<string, Config>, names: seq<string>): seq<Source>
    requires forall n :: n in names ==> n in parts
  {
    if names == [] then []
    else
      var last := names[|names| - 1];
      PartSources(parts, names[..|names| - 1]) + [Source(parts[last], "root.kdef entry " + last)]
  }

  function RootSources(rootDefs: Config, parts: map<string, Config>, names: seq<string>): seq<Source>
    requires forall n :: n in names ==> n in parts
  {
    [Source(rootDefs, "root-level .kdef files")] + PartSources(parts, names)
  }

  /** The root-level blocks and then the parts' in order, under the root's settings. */
  function RootMerged(root: Root, rootDefs: Config, parts: map<string, Config>, names: seq<string>): Config
    requires forall n :: n in names ==> n in parts
  {
    Merged(RootBase(root), RootSources(rootDefs, parts, names))
  }

  predicate SpaceOk(root: Root, ns: string)
  {
    ns != "" && (root.namespaces == [] || ns in root.namespaces)
  }

  predicate AccountOk(root: Root, name: string)
  {
    name == "" || root.accounts == [] || exists sa :: sa in root.accounts && sa.name == name
  }

  predicate WorkloadsOk(root: Root, ws: seq<Workload>)
  {
    forall w :: w in ws ==> SpaceOk(root, w.namespace) && AccountOk(root, w.serviceAccount)
  }

  predicate NamespacesOk(root: Root, c: Config)
  {
    && WorkloadsOk(root, c.deployments) && WorkloadsOk(root, c.daemonSets) && WorkloadsOk(root, c.statefulSets)
    && (forall x :: x in c.cronJobs ==> SpaceOk(root, x.namespace))
    && (forall x :: x in c.configMaps ==> SpaceOk(root, x.namespace))
    && (forall x :: x in c.ingresses ==> SpaceOk(root, x.namespace))
    && (forall x :: x in c.secrets ==> SpaceOk(root, x.namespace))
    && (forall x :: x in c.sealedSecrets ==> SpaceOk(root, x.namespace))
    && (forall x :: x in c.claims ==> SpaceOk(root, x.namespace))
  }

  method CheckWorkloadSpaces(root: Root, ws: seq<Workload>) returns (ok: bool)
    ensures ok <==> WorkloadsOk(root, ws)
  {
    hide SpaceOk, AccountOk;
    for i := 0 to |ws|
      invariant forall k :: 0 <= k < i ==> SpaceOk(root, ws[k].namespace) && AccountOk(root, ws[k].serviceAccount)
    {
      if !SpaceOk(root, ws[i].namespace) || !AccountOk(root, ws[i].serviceAccount) {
        assert ws[i] in ws;
        return false;
      }
    }
    return true;
  }

  method CheckPlainSpaces(root: Root, ps: seq<Plain>) returns (ok: bool)
    ensures ok <==> forall x :: x in ps ==> SpaceOk(root, x.namespace)
  {
    hide SpaceOk;
    for i := 0 to |ps|
      invariant forall k :: 0 <= k < i ==> SpaceOk(root, ps[k].namespace)
    {
      if !SpaceOk(root, ps[i].namespace) {
        assert ps[i] in ps;
        return false;
      }
    }
    return true;
  }

  /** Every namespaced block has an allowed namespace, every workload a known account. */
  method ValidateNamespaces(root: Root, c: Config) returns (ok: bool)
    ensures ok <==> NamespacesOk(root, c)
  {
    hide SpaceOk, WorkloadsOk;
    ok := CheckWorkloadSpaces(root, c.deployments);
    if !ok { return; }
    ok := CheckWorkloadSpaces(root, c.daemonSets);
    if !ok { return; }
    ok := CheckWorkloadSpaces(root, c.statefulSets);
    if !ok { return; }
    for i := 0 to |c.cronJobs|
      invariant forall k :: 0 <= k < i ==> SpaceOk(root, c.cronJobs[k].namespace)
    {
      if !SpaceOk(root, c.cronJobs[i].namespace) { assert c.cronJobs[i] in c.cronJobs; return false; }
    }
    ok := CheckPlainSpaces(root, c.configMaps);
    if !ok { return; }
    for i := 0 to |c.ingresses|
      invariant forall k :: 0 <= k < i ==> SpaceOk(root, c.ingresses[k].namespace)
    {
      if !SpaceOk(root, c.ingresses[i].namespace) { assert c.ingresses[i] in c.ingresses; return false; }
    }
    ok := CheckPlainSpaces(root, c.secrets);
    if !ok { return; }
    ok := CheckPlainSpaces(root, c.sealedSecrets);
    if !ok { return; }
    ok := CheckPlainSpaces(root, c.claims);
  }

  /** What the loader makes of a project, or nothing if it does not load. */
  ghost function Loaded(p: Project): Option<Config>
    decreases p, 1
  {
    match p
    case Broken => None
    case Single(files, defaults) =>
      if Accepted(SingleResult(files, defaults)) then Some(SingleResult(files, defaults)) else None
    case Composed(root, files, entries) =>
      if RootAccepts(root, files, entries.Keys, Parts(p))
      then Some(WithOwnDefaults(RootMerged(root, OwnBlocks(files), Parts(p), SortedOf(entries.Keys)))) else None
  }

  /** The loaded entries of a root project, namespace and account injected. */
  ghost function Parts(p: Project): map<string, Config>
    requires p.Composed?
    decreases p, 0
  {
    map n | n in p.entries && Loaded(p.entries[n].project).Some? ::
      Injected(Loaded(p.entries[n].project).value, p.entries[n])
  }

  /** Something is listed and all of it loads, the root-level files declare nothing twice, and the
    * merged config passes the checks. */
  ghost predicate RootAccepts(root: Root, files: seq<Source>, listed: set<string>, parts: map<string, Config>)
  {
    && listed != {} && parts.Keys == listed
    && NoDup(AllKeys(ClaimGroups(OwnBlocks(files))))
    && MergedAccepted(root, RootMerged(root, OwnBlocks(files), parts, SortedOf(listed)))
  }

  ghost predicate MergedAccepted(root: Root, merged: Config)
  {
    NamespacesOk(root, merged) && Accepted(WithOwnDefaults(merged))
  }

  lemma LoadedIsAccepted(p: Project)
    ensures Loaded(p).Some? ==> Accepted(Loaded(p).value)
  {
    hide Accepted, NamespacesOk, SingleResult, WithOwnDefaults, RootMerged;
  }

  // ------------------------------------------------------------- the loaders

  /** Injects an entry's namespace and account into its sub-project's config. */
  method InjectEntry(c: Config, e: Entry) returns (blocks: Config)
    ensures blocks == Injected(c, e)
  {
    hide Namespaced, Accounted;
    var sub := new KdefConfig.Of(c);
    if e.namespace != "" {
      sub.InjectNamespace(e.namespace);
    }
    if e.serviceAccount != "" {
      sub.InjectServiceAccount(e.serviceAccount);
    }
    return sub.Snapshot();
  }

  /** Loads any project directory: a root project if it has a root.kdef. */
  method Load(p: Project, printable: set<char>) returns (r: Result<KdefConfig, LoadError>)
    ensures r.Ok? <==> Loaded(p).Some?
    ensures r.Ok? ==> fresh(r.value) && Loaded(p) == Some(r.value.Snapshot())
    decreases p, 2
  {
    hide Accepted, SingleResult, RootAccepts, Parts, WithOwnDefaults, RootMerged;
    match p
    case Broken =>
      r := Err(Unreadable);
    case Single(files, defaults) =>
      r := LoadSingle(files, defaults, printable);
    case Composed(_, _, _) =>
      r := LoadRoot(p, printable);
  }

  /** Loads and merges the entries in order after the root-level blocks, recording every identity;
    * the first entry that does not load ends it. */
  method MergeEntries(p: Project, rootDefs: Config, names: seq<string>, printable: set<char>)
    returns (failed: Option<string>, merged: KdefConfig, dups: DuplicateCheck)
    requires p.Composed? && forall n :: n in names ==> n in p.entries
    ensures fresh(merged) && fresh(dups)
    ensures failed.None? <==> forall n :: n in names ==> n in Parts(p)
    ensures failed.Some? ==> exists i :: 0 <= i < |names| && failed.value == names[i] && names[i] !in Parts(p)
                                         && forall k :: 0 <= k < i ==> names[k] in Parts(p)
    ensures failed.None? ==>
              && merged.Snapshot() == RootMerged(p.root, rootDefs, Parts(p), names)
              && dups.Model() == AddSources(Check(map[], []), RootSources(rootDefs, Parts(p), names), printable)
    decreases p, 0
  {
    hide Appended, AddAll, WrittenAll, DeclaredOf, Injected, RootMerged, AddSources, RootSources, Loaded;
    failed := None;
    merged := new KdefConfig(p.root.namespaces, p.root.accounts, p.root.ingressDefaults);
    dups := new DuplicateCheck(printable);
    merged.Append(rootDefs);
    dups.Add(rootDefs, "root-level .kdef files");
    RootFilesFirst(p.root, rootDefs, Parts(p), printable);
    var i := 0;
    while i < |names|
      invariant 0 <= i <= |names|
      invariant fresh(merged) && fresh(dups) && dups.printable == printable
      invariant forall k :: 0 <= k < i ==> names[k] in Parts(p)
      invariant merged.Snapshot() == RootMerged(p.root, rootDefs, Parts(p), names[..i])
      invariant dups.Model() == AddSources(Check(map[], []), RootSources(rootDefs, Parts(p), names[..i]), printable)
    {
      var name := names[i];
      assert name in names;
      var loaded := Load(p.entries[name].project, printable);
      assert name in Parts(p) <==> loaded.Ok?;
      if loaded.Err? {
        failed := Some(name);
        return;
      }
      var blocks := InjectEntry(loaded.value.Snapshot(), p.entries[name]);
      EntryNext(p.root, rootDefs, Parts(p), names, i, printable);
      dups.Add(blocks, "root.kdef entry " + name);
      merged.Append(blocks);
      i := i + 1;
    }
    assert names[..i] == names;
  }

  lemma RootFilesFirst(root: Root, rootDefs: Config, parts: map<string, Config>, printable: set<char>)
    ensures RootMerged(root, rootDefs, parts, []) == Appended(RootBase(root), rootDefs)
    ensures AddSources(Check(map[], []), RootSources(rootDefs, parts, []), printable) ==
            AddAll(Check(map[], []), WrittenAll(DeclaredOf(rootDefs), printable), "root-level .kdef files")
  {
    hide Appended, AddAll, WrittenAll, DeclaredOf;
    var first := [Source(rootDefs, "root-level .kdef files")];
    assert RootSources(rootDefs, parts, []) == first && first[..0] == [];
    assert Merged(RootBase(root), first) == Appended(Merged(RootBase(root), first[..0]), rootDefs);
  }

  lemma EntryNext(root: Root, rootDefs: Config, parts: map<string, Config>, names: seq<string>, i: nat,
                  printable: set<char>)
    requires i < |names| && forall k :: 0 <= k <= i ==> names[k] in parts
    ensures RootMerged(root, rootDefs, parts, names[..i + 1]) ==
            Appended(RootMerged(root, rootDefs, parts, names[..i]), parts[names[i]])
    ensures AddSources(Check(map[], []), RootSources(rootDefs, parts, names[..i + 1]), printable) ==
            AddAll(AddSources(Check(map[], []), RootSources(rootDefs, parts, names[..i]), printable),
                   WrittenAll(DeclaredOf(parts[names[i]]), printable), "root.kdef entry " + names[i])
  {
    hide Appended, AddAll, WrittenAll, DeclaredOf;
    var before, after := RootSources(rootDefs, parts, names[..i]), RootSources(rootDefs, parts, names[..i + 1]);
    assert names[..i + 1][..i] == names[..i];
    assert after == before + [Source(parts[names[i]], "root.kdef entry " + names[i])];
    assert after[..|after| - 1] == before;
  }

  /** Of the entries in order the named one is the first that does not load. */
  ghost predicate FirstFailing(p: Project, names: seq<string>, name: string)
    requires p.Composed?
  {
    exists i :: 0 <= i < |names| && name == names[i] && names[i] !in Parts(p)
                && forall k :: 0 <= k < i ==> names[k] in Parts(p)
  }

  /** Loads every listed sub-project and merges them under the root's settings. */
  method LoadRoot(p: Project, printable: set<char>) returns (r: Result<KdefConfig, LoadError>)
    requires p.Composed?
    ensures r.Ok? <==> RootAccepts(p.root, p.files, p.entries.Keys, Parts(p))
    ensures r.Ok? ==>
              && fresh(r.value)
              && r.value.Snapshot() ==
                 WithOwnDefaults(RootMerged(p.root, OwnBlocks(p.files), Parts(p), SortedOf(p.entries.Keys)))
    ensures r.Err? ==> (r.error.NoDeployments? <==> p.entries.Keys == {})
    ensures r.Err? && r.error.SubProject? ==> FirstFailing(p, SortedOf(p.entries.Keys), r.error.name)
    ensures r.Err? && (r.error.BadNamespaces? || r.error.IngressConflict?) ==>
              && Parts(p).Keys == p.entries.Keys
              && var m := RootMerged(p.root, OwnBlocks(p.files), Parts(p), SortedOf(p.entries.Keys));
                 && NoDup(AllKeys(ClaimGroups(WithOwnDefaults(m))))
                 && (r.error.BadNamespaces? <==> !NamespacesOk(p.root, m))
    ensures r.Err? ==> !r.error.Unreadable?
    decreases p, 1
  {
    hide ClaimGroups, NoConflict, Slots, NoDup, AllKeys, WithOwnDefaults, NamespacesOk, Sorted, Merged,
         AddSources, PartSources, LexLess, RootBase, Loaded;
    var names := SortedKeys(p.entries.Keys);
    SortedNamesUnique(names, SortedOf(p.entries.Keys), p.entries.Keys);
    if |p.entries| == 0 {
      return Err(NoDeployments);
    }
    var rootDefs, twice := MergeFiles(p.files, None, printable);
    if twice.Some? {
      return Err(DuplicateResources(twice.value));
    }
    var failed, merged, dups := MergeEntries(p, rootDefs.Snapshot(), names, printable);
    if failed.Some? {
      assert FirstFailing(p, names, failed.value);
      return Err(SubProject(failed.value));
    }
    assert Parts(p).Keys == p.entries.Keys;
    BaseIsBlockless(p.root);
    CheckIsExact(RootBase(p.root), RootSources(rootDefs.Snapshot(), Parts(p), names), printable);
    DefaultsKeepClaims(merged.Snapshot());
    var message := dups.Err();
    if message.Some? {
      return Err(DuplicateResources(message.value));
    }
    var ok := ValidateNamespaces(p.root, merged.Snapshot());
    if !ok {
      return Err(BadNamespaces);
    }
    merged.ApplyIngressDefaults();
    var conflict := ValidateIngresses(merged.Snapshot());
    if conflict.Some? {
      return Err(IngressConflict(conflict.value));
    }
    return Ok(merged);
  }

  lemma BaseIsBlockless(root: Root)
    ensures Blockless(RootBase(root))
  {
  }
}
