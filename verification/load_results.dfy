/** What a loaded config holds, block by block and field by field. */
module LoadResults {
  import opened Options
  import opened Seqs
  import opened SortedKeying
  import opened Blocks
  import opened IngressDefaulting
  import opened Loader
  import opened ProjectLoad
  import opened RootProjects

  // ---------------------------------------------------------------- defaults

  /** A block as it was written, with what it leaves open taken from the shared settings; TLS is on
    * if either turns it on, and its own annotations stand over the shared ones. */
  predicate Fills(own: Ingress, d: IngressDefaults, out: Ingress)
  {
    && out.tls == (own.tls || d.tls == Some(true))
    && out.className == (if own.className != "" then own.className else d.className)
    && out.tlsSecret == (if own.tlsSecret != "" then own.tlsSecret else d.tlsSecret)
    && out.issuer == (if own.issuer != "" then own.issuer else d.issuer)
    && out.annotations.Keys == own.annotations.Keys + d.annotations.Keys
    && (forall k :: k in own.annotations ==> out.annotations[k] == own.annotations[k])
    && (forall k :: k in d.annotations && k !in own.annotations ==> out.annotations[k] == d.annotations[k])
    && out.name == own.name && out.namespace == own.namespace && out.serviceName == own.serviceName
    && out.host == own.host && out.hosts == own.hosts
  }

  predicate FillsAll(own: seq<Ingress>, d: Option<IngressDefaults>, out: seq<Ingress>)
  {
    if d.None? then out == own
    else |out| == |own| && forall i :: 0 <= i < |own| ==> Fills(own[i], d.value, out[i])
  }

  /** Workloads change in their ingress blocks only. */
  predicate FillsNested(own: seq<Workload>, d: Option<IngressDefaults>, out: seq<Workload>)
  {
    && |out| == |own|
    && forall i :: 0 <= i < |own| ==>
         out[i].(ingresses := []) == own[i].(ingresses := []) && FillsAll(own[i].ingresses, d, out[i].ingresses)
  }

  predicate FillsConfig(own: Config, d: Option<IngressDefaults>, out: Config)
  {
    && FillsNested(own.deployments, d, out.deployments)
    && FillsNested(own.statefulSets, d, out.statefulSets)
    && FillsAll(own.ingresses, d, out.ingresses)
    && out.(deployments := [], statefulSets := [], ingresses := []) ==
       own.(deployments := [], statefulSets := [], ingresses := [])
  }

  lemma WithDefaultsFills(own: Ingress, d: IngressDefaults)
    ensures Fills(own, d, WithDefaults(own, d))
  {
    WithDefaultsFields(own, d);
    hide WithDefaults;
  }

  lemma DefaultedFills(ings: seq<Ingress>, d: IngressDefaults)
    ensures FillsAll(ings, Some(d), IngressesWithDefaults(ings, d))
  {
    hide WithDefaults, Fills;
    forall i | 0 <= i < |ings| ensures Fills(ings[i], d, WithDefaults(ings[i], d)) {
      WithDefaultsFills(ings[i], d);
    }
  }

  lemma DefaultedFillsNested(ws: seq<Workload>, d: IngressDefaults)
    ensures FillsNested(ws, Some(d), WorkloadsWithDefaults(ws, d))
  {
    hide IngressesWithDefaults, FillsAll;
    forall i | 0 <= i < |ws| ensures FillsAll(ws[i].ingresses, Some(d), IngressesWithDefaults(ws[i].ingresses, d)) {
      DefaultedFills(ws[i].ingresses, d);
    }
  }

  lemma OwnDefaultsFill(c: Config)
    ensures FillsConfig(c, c.ingressDefaults, WithOwnDefaults(c))
  {
    if c.ingressDefaults.Some? {
      hide FillsAll, FillsNested, WorkloadsWithDefaults, IngressesWithDefaults;
      DefaultedFillsNested(c.deployments, c.ingressDefaults.value);
      DefaultedFillsNested(c.statefulSets, c.ingressDefaults.value);
      DefaultedFills(c.ingresses, c.ingressDefaults.value);
    }
  }

  // ----------------------------------------------------------------- merging

  /** All blocks of some configs, list by list in their order, under the given settings. */
  function Together(cs: seq<Config>, settings: Root): Config
  {
    Config(Flatten(Mapped((c: Config) => c.deployments, cs)), Flatten(Mapped((c: Config) => c.daemonSets, cs)),
           Flatten(Mapped((c: Config) => c.statefulSets, cs)), Flatten(Mapped((c: Config) => c.cronJobs, cs)),
           Flatten(Mapped((c: Config) => c.configMaps, cs)), Flatten(Mapped((c: Config) => c.ingresses, cs)),
           Flatten(Mapped((c: Config) => c.secrets, cs)), Flatten(Mapped((c: Config) => c.sealedSecrets, cs)),
           Flatten(Mapped((c: Config) => c.claims, cs)), Flatten(Mapped((c: Config) => c.clusterRoles, cs)),
           Flatten(Mapped((c: Config) => c.clusterRoleBindings, cs)), Flatten(Mapped((c: Config) => c.crds, cs)),
           Flatten(Mapped((c: Config) => c.csiDrivers, cs)),
           settings.namespaces, settings.accounts, settings.ingressDefaults)
  }

  lemma FlattenSnoc<T>(f: Config -> seq<T>, cs: seq<Config>, c: Config)
    ensures Flatten(Mapped(f, cs + [c])) == Flatten(Mapped(f, cs)) + f(c)
  {
    MappedConcat(f, cs, [c]);
    FlattenConcat(Mapped(f, cs), Mapped(f, [c]));
    assert Mapped(f, [c])[1..] == [];
  }

  lemma TogetherSnoc(cs: seq<Config>, c: Config, settings: Root)
    ensures Together(cs + [c], settings) == Appended(Together(cs, settings), c)
  {
    hide Flatten, Mapped;
    FlattenSnoc((x: Config) => x.deployments, cs, c);
    FlattenSnoc((x: Config) => x.daemonSets, cs, c);
    FlattenSnoc((x: Config) => x.statefulSets, cs, c);
    FlattenSnoc((x: Config) => x.cronJobs, cs, c);
    FlattenSnoc((x: Config) => x.configMaps, cs, c);
    FlattenSnoc((x: Config) => x.ingresses, cs, c);
    FlattenSnoc((x: Config) => x.secrets, cs, c);
    FlattenSnoc((x: Config) => x.sealedSecrets, cs, c);
    FlattenSnoc((x: Config) => x.claims, cs, c);
    FlattenSnoc((x: Config) => x.clusterRoles, cs, c);
    FlattenSnoc((x: Config) => x.clusterRoleBindings, cs, c);
    FlattenSnoc((x: Config) => x.crds, cs, c);
    FlattenSnoc((x: Config) => x.csiDrivers, cs, c);
  }

  function BlocksOf(sources: seq<Source>): (r: seq<Config>)
    ensures |r| == |sources|
  {
    seq(|sources|, i requires 0 <= i < |sources| => sources[i].blocks)
  }

  lemma {:induction false} MergedIsTogether(settings: Root, sources: seq<Source>)
    ensures Merged(RootBase(settings), sources) == Together(BlocksOf(sources), settings)
  {
    if sources != [] {
      hide Together, Appended, RootBase;
      var n := |sources| - 1;
      MergedIsTogether(settings, sources[..n]);
      TogetherSnoc(BlocksOf(sources[..n]), sources[n].blocks, settings);
      assert BlocksOf(sources) == BlocksOf(sources[..n]) + [sources[n].blocks];
    }
  }

  const BARE := Root([], [], None)

  /** A single project that loads is all blocks of its files, in order, filled from the ingress
    * defaults of its variable walk. */
  lemma SingleHolds(files: seq<Source>, defaults: Option<IngressDefaults>)
    requires Loaded(Single(files, defaults)).Some?
    ensures FillsConfig(Together(BlocksOf(files), BARE.(ingressDefaults := defaults)), defaults,
                        Loaded(Single(files, defaults)).value)
  {
    hide Together, FillsConfig, WithOwnDefaults, Merged;
    var settings := BARE.(ingressDefaults := defaults);
    assert RootBase(settings) == EMPTY.(ingressDefaults := defaults);
    MergedIsTogether(settings, files);
    TogetherSettings(BlocksOf(files), settings);
    OwnDefaultsFill(Merged(RootBase(settings), files));
  }

  lemma TogetherSettings(cs: seq<Config>, settings: Root)
    ensures var c := Together(cs, settings);
            && c.namespaces == settings.namespaces && c.accounts == settings.accounts
            && c.ingressDefaults == settings.ingressDefaults
  {
    hide Flatten, Mapped;
  }

  // --------------------------------------------------------------- injection

  predicate Placed(own: string, given: string, out: string)
  {
    out == if own != "" then own else given
  }

  predicate PlacesWorkloads(own: seq<Workload>, e: Entry, out: seq<Workload>)
  {
    && |out| == |own|
    && forall i :: 0 <= i < |own| ==>
         && Placed(own[i].namespace, e.namespace, out[i].namespace)
         && Placed(own[i].serviceAccount, e.serviceAccount, out[i].serviceAccount)
         && out[i].(namespace := "", serviceAccount := "") == own[i].(namespace := "", serviceAccount := "")
  }

  predicate PlacesCronJobs(own: seq<CronJob>, e: Entry, out: seq<CronJob>)
  {
    && |out| == |own|
    && forall i :: 0 <= i < |own| ==>
         && Placed(own[i].namespace, e.namespace, out[i].namespace)
         && Placed(own[i].serviceAccount, e.serviceAccount, out[i].serviceAccount)
         && out[i].(namespace := "", serviceAccount := "") == own[i].(namespace := "", serviceAccount := "")
  }

  predicate PlacesPlain(own: seq<Plain>, e: Entry, out: seq<Plain>)
  {
    && |out| == |own|
    && forall i :: 0 <= i < |own| ==>
         && Placed(own[i].namespace, e.namespace, out[i].namespace)
         && out[i].(namespace := "") == own[i].(namespace := "")
  }

  predicate PlacesIngresses(own: seq<Ingress>, e: Entry, out: seq<Ingress>)
  {
    && |out| == |own|
    && forall i :: 0 <= i < |own| ==>
         && Placed(own[i].namespace, e.namespace, out[i].namespace)
         && out[i].(namespace := "") == own[i].(namespace := "")
  }

  /** A sub-project's blocks under an entry: an empty namespace or account becomes the entry's, and
    * nothing else changes. */
  predicate Places(own: Config, e: Entry, out: Config)
  {
    && PlacesWorkloads(own.deployments, e, out.deployments) && PlacesWorkloads(own.daemonSets, e, out.daemonSets)
    && PlacesWorkloads(own.statefulSets, e, out.statefulSets) && PlacesCronJobs(own.cronJobs, e, out.cronJobs)
    && PlacesPlain(own.configMaps, e, out.configMaps) && PlacesPlain(own.secrets, e, out.secrets)
    && PlacesPlain(own.sealedSecrets, e, out.sealedSecrets) && PlacesPlain(own.claims, e, out.claims)
    && PlacesIngresses(own.ingresses, e, out.ingresses)
    && out.clusterRoles == own.clusterRoles && out.clusterRoleBindings == own.clusterRoleBindings
    && out.crds == own.crds && out.csiDrivers == own.csiDrivers
  }

  lemma WorkloadsPlaced(ws: seq<Workload>, e: Entry)
    ensures var d := if e.namespace != "" then NamespacedWorkloads(ws, e.namespace) else ws;
            PlacesWorkloads(ws, e, if e.serviceAccount != "" then AccountedWorkloads(d, e.serviceAccount) else d)
  {
  }

  lemma CronJobsPlaced(cs: seq<CronJob>, e: Entry)
    ensures var d := if e.namespace != "" then NamespacedCronJobs(cs, e.namespace) else cs;
            PlacesCronJobs(cs, e, if e.serviceAccount != "" then AccountedCronJobs(d, e.serviceAccount) else d)
  {
  }

  lemma PlainPlaced(ps: seq<Plain>, e: Entry)
    ensures PlacesPlain(ps, e, if e.namespace != "" then NamespacedPlain(ps, e.namespace) else ps)
  {
  }

  lemma IngressesPlaced(ings: seq<Ingress>, e: Entry)
    ensures PlacesIngresses(ings, e, if e.namespace != "" then NamespacedIngresses(ings, e.namespace) else ings)
  {
  }

  lemma InjectedPlaces(c: Config, e: Entry)
    ensures Places(c, e, Injected(c, e))
  {
    hide PlacesWorkloads, PlacesCronJobs, PlacesPlain, PlacesIngresses, NamespacedWorkloads, NamespacedCronJobs,
         NamespacedPlain, NamespacedIngresses, AccountedWorkloads, AccountedCronJobs;
    WorkloadsPlaced(c.deployments, e);
    WorkloadsPlaced(c.daemonSets, e);
    WorkloadsPlaced(c.statefulSets, e);
    CronJobsPlaced(c.cronJobs, e);
    PlainPlaced(c.configMaps, e);
    PlainPlaced(c.secrets, e);
    PlainPlaced(c.sealedSecrets, e);
    PlainPlaced(c.claims, e);
    IngressesPlaced(c.ingresses, e);
  }

  // ----------------------------------------------------------- root projects

  /** What the entries of a root project loaded to, in the order of their names, each placed. */
  ghost predicate PartsOf(p: Project, parts: seq<Config>)
    requires p.Composed?
  {
    var names := SortedOf(p.entries.Keys);
    && |parts| == |names|
    && forall k | 0 <= k < |names| ::
         && names[k] in p.entries && Loaded(p.entries[names[k]].project).Some?
         && Places(Loaded(p.entries[names[k]].project).value, p.entries[names[k]], parts[k])
  }

  lemma {:induction false} PartBlocks(parts: map<string, Config>, names: seq<string>, rootDefs: Config)
    requires forall n :: n in names ==> n in parts
    ensures |PartSources(parts, names)| == |names|
    ensures forall k :: 0 <= k < |names| ==> PartSources(parts, names)[k].blocks == parts[names[k]]
    ensures BlocksOf(RootSources(rootDefs, parts, names)) == [rootDefs] + BlocksOf(PartSources(parts, names))
  {
    if names != [] { PartBlocks(parts, names[..|names| - 1], rootDefs); }
  }

  /** A root project that loads is the blocks of its own files and then of its entries, placed, in
    * the order of the entries' names, filled from the root's ingress defaults; with the root's
    * namespaces and accounts. */
  lemma RootHolds(p: Project)
    requires p.Composed? && Loaded(p).Some?
    ensures exists parts ::
              && PartsOf(p, parts)
              && FillsConfig(Together([Together(BlocksOf(p.files), BARE)] + parts, p.root), p.root.ingressDefaults,
                             Loaded(p).value)
    ensures Loaded(p).value.accounts == p.root.accounts && Loaded(p).value.namespaces == p.root.namespaces
  {
    hide Together, FillsConfig, WithOwnDefaults, Merged, Places, MergedAccepted, NoDup, AllKeys, Injected;
    var names := SortedOf(p.entries.Keys);
    var own := OwnBlocks(p.files);
    PartBlocks(Parts(p), names, own);
    var parts := BlocksOf(PartSources(Parts(p), names));
    forall k | 0 <= k < |names|
      ensures names[k] in p.entries && Loaded(p.entries[names[k]].project).Some?
      ensures Places(Loaded(p.entries[names[k]].project).value, p.entries[names[k]], parts[k])
    {
      assert names[k] in names && names[k] in Parts(p);
      InjectedPlaces(Loaded(p.entries[names[k]].project).value, p.entries[names[k]]);
    }
    assert PartsOf(p, parts);
    assert RootBase(BARE) == EMPTY;
    MergedIsTogether(BARE, p.files);
    MergedIsTogether(p.root, RootSources(own, Parts(p), names));
    TogetherSettings([own] + parts, p.root);
    OwnDefaultsFill(RootMerged(p.root, own, Parts(p), names));
    FilledSettings(Together([own] + parts, p.root), p.root.ingressDefaults, Loaded(p).value);
  }

  lemma FilledSettings(own: Config, d: Option<IngressDefaults>, out: Config)
    requires FillsConfig(own, d, out)
    ensures out.accounts == own.accounts && out.namespaces == own.namespaces && out.ingressDefaults == own.ingressDefaults
  {
    hide FillsAll, FillsNested;
  }

  // -------------------------------------------------------------- namespaces

  predicate SpaceAllowed(root: Root, namespace: string)
  {
    namespace != "" && (|root.namespaces| > 0 ==> namespace in root.namespaces)
  }

  predicate AccountKnown(root: Root, account: string)
  {
    account != "" && |root.accounts| > 0 ==> exists sa :: sa in root.accounts && sa.name == account
  }

  predicate WorkloadsAllowed(root: Root, ws: seq<Workload>)
  {
    forall w :: w in ws ==> SpaceAllowed(root, w.namespace) && AccountKnown(root, w.serviceAccount)
  }

  /** In what a root project loads to, every namespaced block has a namespace, one of those the
    * root declares if it declares any; and every workload's account is declared likewise. */
  lemma RootAllows(p: Project)
    requires p.Composed? && Loaded(p).Some?
    ensures var c := Loaded(p).value;
            && WorkloadsAllowed(p.root, c.deployments) && WorkloadsAllowed(p.root, c.daemonSets)
            && WorkloadsAllowed(p.root, c.statefulSets)
            && (forall x :: x in c.cronJobs ==> SpaceAllowed(p.root, x.namespace))
            && (forall x :: x in c.configMaps + c.secrets + c.sealedSecrets + c.claims ==>
                  SpaceAllowed(p.root, x.namespace))
            && (forall x :: x in c.ingresses ==> SpaceAllowed(p.root, x.namespace))
  {
    hide FillsConfig, WithOwnDefaults, RootMerged, Parts, OwnBlocks, FillsAll, FillsNested, SpaceAllowed;
    var m := RootMerged(p.root, OwnBlocks(p.files), Parts(p), SortedOf(p.entries.Keys));
    assert NamespacesOk(p.root, m) && Loaded(p).value == WithOwnDefaults(m);
    OwnDefaultsFill(m);
    AllowedStays(p.root, m, WithOwnDefaults(m));
  }

  lemma AllowedStays(root: Root, own: Config, out: Config)
    requires NamespacesOk(root, own) && FillsConfig(own, own.ingressDefaults, out)
    ensures && WorkloadsAllowed(root, out.deployments) && WorkloadsAllowed(root, out.daemonSets)
            && WorkloadsAllowed(root, out.statefulSets)
            && (forall x :: x in out.cronJobs ==> SpaceAllowed(root, x.namespace))
            && (forall x :: x in out.configMaps + out.secrets + out.sealedSecrets + out.claims ==>
                  SpaceAllowed(root, x.namespace))
            && (forall x :: x in out.ingresses ==> SpaceAllowed(root, x.namespace))
  {
    AllowedNested(root, own.deployments, own.ingressDefaults, out.deployments);
    AllowedNested(root, own.statefulSets, own.ingressDefaults, out.statefulSets);
    hide FillsNested;
    forall x | x in out.ingresses ensures SpaceAllowed(root, x.namespace) {
      var i :| 0 <= i < |out.ingresses| && out.ingresses[i] == x;
      assert own.ingresses[i] in own.ingresses && own.ingresses[i].namespace == x.namespace;
    }
  }

  lemma AllowedNested(root: Root, own: seq<Workload>, d: Option<IngressDefaults>, out: seq<Workload>)
    requires WorkloadsOk(root, own) && FillsNested(own, d, out)
    ensures WorkloadsAllowed(root, out)
  {
    hide FillsAll;
    forall w | w in out ensures SpaceAllowed(root, w.namespace) && AccountKnown(root, w.serviceAccount) {
      var i :| 0 <= i < |out| && out[i] == w;
      assert own[i] in own;
      assert out[i].(ingresses := []).namespace == own[i].namespace;
      assert out[i].(ingresses := []).serviceAccount == own[i].serviceAccount;
    }
  }
}
