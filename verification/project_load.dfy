/** The two loaders: what they accept, and what they hand to the generator. */
module ProjectLoad {
  import opened Options
  import opened Seqs
  import opened Blocks
  import opened Duplicates
  import opened IngressChecks
  import opened IngressDefaulting
  import opened Acceptance
  import opened Loader

  /** Parsed blocks and where they came from. */
  datatype Source = Source(blocks: Config, origin: string)

  datatype LoadError =
    | DuplicateResources(messages: seq<string>)
    | IngressConflict(conflict: Conflict)
    | BadNamespaces
    | NoDeployments
    | Unreadable
    | SubProject(name: string)

  function Merged(base: Config, sources: seq<Source>): Config
  {
    if sources == [] then base
    else Appended(Merged(base, sources[..|sources| - 1]), sources[|sources| - 1].blocks)
  }

  function AddSources(c: Check, sources: seq<Source>, printable: set<char>): Check
  {
    if sources == [] then c
    else
      var n := |sources| - 1;
      AddAll(AddSources(c, sources[..n], printable),
             WrittenAll(DeclaredOf(sources[n].blocks), printable), sources[n].origin)
  }

  // ------------------------------------- merging adds up what is declared

  lemma {:induction false} WorkloadPairsConcat(a: seq<Workload>, b: seq<Workload>)
    ensures WorkloadPairs(a + b) == WorkloadPairs(a) + WorkloadPairs(b)
    ensures ServicePairs(a + b) == ServicePairs(a) + ServicePairs(b)
  {
    if a == [] {
      assert a + b == b;
    } else {
      hide WorkloadPairs, ServicePairs;
      assert (a + b)[1..] == a[1..] + b;
      WorkloadsSplit(a);
      WorkloadsSplit(a + b);
      ServicesSplit(a);
      ServicesSplit(a + b);
      WorkloadPairsConcat(a[1..], b);
    }
  }

  lemma {:induction false} CronJobPairsConcat(a: seq<CronJob>, b: seq<CronJob>)
    ensures CronJobPairs(a + b) == CronJobPairs(a) + CronJobPairs(b)
  {
    if a == [] {
      assert a + b == b;
    } else {
      assert (a + b)[1..] == a[1..] + b;
      CronJobPairsConcat(a[1..], b);
    }
  }

  lemma {:induction false} PlainPairsConcat(a: seq<Plain>, b: seq<Plain>)
    ensures PlainPairs(a + b) == PlainPairs(a) + PlainPairs(b)
  {
    if a == [] {
      assert a + b == b;
    } else {
      assert (a + b)[1..] == a[1..] + b;
      PlainPairsConcat(a[1..], b);
    }
  }

  lemma {:induction false} ScopelessPairsConcat(a: seq<Scopeless>, b: seq<Scopeless>)
    ensures ScopelessPairs(a + b) == ScopelessPairs(a) + ScopelessPairs(b)
  {
    if a == [] {
      assert a + b == b;
    } else {
      assert (a + b)[1..] == a[1..] + b;
      ScopelessPairsConcat(a[1..], b);
    }
  }

  lemma {:induction false} IngressPairsConcat(a: seq<Ingress>, b: seq<Ingress>)
    ensures IngressPairs(a + b) == IngressPairs(a) + IngressPairs(b)
  {
    if a == [] {
      assert a + b == b;
    } else {
      assert (a + b)[1..] == a[1..] + b;
      IngressPairsConcat(a[1..], b);
    }
  }

  /** g is group by group the union of a and b. */
  ghost predicate Zipped(a: seq<Group>, b: seq<Group>, g: seq<Group>)
  {
    && |a| == |b| == |g|
    && forall i :: 0 <= i < |g| ==> a[i].kind == b[i].kind == g[i].kind && g[i].pairs == a[i].pairs + b[i].pairs
  }

  lemma {:induction false} ZippedKeys(a: seq<Group>, b: seq<Group>, g: seq<Group>)
    requires Zipped(a, b, g)
    ensures multiset(AllKeys(g)) == multiset(AllKeys(a)) + multiset(AllKeys(b))
  {
    hide Label;
    if g != [] {
      ZippedKeys(a[1..], b[1..], g[1..]);
      LabelConcat(g[0].kind, a[0].pairs, b[0].pairs);
    }
  }

  lemma AppendedWorkloadGroups(a: Config, b: Config)
    ensures Zipped(WorkloadGroups(a), WorkloadGroups(b), WorkloadGroups(Appended(a, b)))
  {
    hide WorkloadPairs, ServicePairs;
    WorkloadPairsConcat(a.deployments, b.deployments);
    WorkloadPairsConcat(a.daemonSets, b.daemonSets);
    WorkloadPairsConcat(a.statefulSets, b.statefulSets);
  }

  lemma AppendedPlainGroups(a: Config, b: Config)
    ensures Zipped(PlainGroups(a), PlainGroups(b), PlainGroups(Appended(a, b)))
  {
    hide CronJobPairs, PlainPairs, ScopelessPairs, IngressPairs;
    CronJobPairsConcat(a.cronJobs, b.cronJobs);
    PlainPairsConcat(a.configMaps, b.configMaps);
    PlainPairsConcat(a.secrets, b.secrets);
    PlainPairsConcat(a.sealedSecrets, b.sealedSecrets);
    PlainPairsConcat(a.claims, b.claims);
    IngressPairsConcat(a.ingresses, b.ingresses);
    ScopelessPairsConcat(a.clusterRoles, b.clusterRoles);
    ScopelessPairsConcat(a.clusterRoleBindings, b.clusterRoleBindings);
    ScopelessPairsConcat(a.crds, b.crds);
    ScopelessPairsConcat(a.csiDrivers, b.csiDrivers);
  }

  function ClaimBag(c: Config): multiset<Key>
  {
    multiset(AllKeys(ClaimGroups(c)))
  }

  lemma AppendedClaims(a: Config, b: Config)
    ensures ClaimBag(Appended(a, b)) == ClaimBag(a) + ClaimBag(b)
  {
    hide Appended, AllKeys, WorkloadGroups, PlainGroups, ClaimGroups, Zipped;
    var c := Appended(a, b);
    ClaimGroupsSplit(a);
    ClaimGroupsSplit(b);
    ClaimGroupsSplit(c);
    AppendedWorkloadGroups(a, b);
    AppendedPlainGroups(a, b);
    ZippedKeys(WorkloadGroups(a), WorkloadGroups(b), WorkloadGroups(c));
    ZippedKeys(PlainGroups(a), PlainGroups(b), PlainGroups(c));
  }

  /** What the check records over all sources. */
  function RecordedKeys(sources: seq<Source>): seq<Key>
  {
    if sources == [] then []
    else RecordedKeys(sources[..|sources| - 1]) + Claims(DeclaredOf(sources[|sources| - 1].blocks))
  }

  predicate Blockless(c: Config)
  {
    c == EMPTY.(namespaces := c.namespaces, accounts := c.accounts, ingressDefaults := c.ingressDefaults)
  }

  lemma BlocklessClaims(c: Config)
    requires Blockless(c)
    ensures ClaimBag(c) == multiset{}
  {
    var g := ClaimGroups(c);
    NoPairs(g);
  }

  lemma {:induction false} NoPairs(groups: seq<Group>)
    requires forall i :: 0 <= i < |groups| ==> groups[i].pairs == []
    ensures AllKeys(groups) == []
  {
    if groups != [] { NoPairs(groups[1..]); }
  }

  lemma {:induction false} RecordedIsMerged(base: Config, sources: seq<Source>)
    requires Blockless(base)
    ensures multiset(RecordedKeys(sources)) == ClaimBag(Merged(base, sources))
    ensures forall k :: k in RecordedKeys(sources) ==> ' ' !in k.kind
  {
    hide ClaimBag, Claims, DeclaredOf, Appended;
    if sources == [] {
      BlocklessClaims(base);
    } else {
      var n := |sources| - 1;
      var last := sources[n].blocks;
      RecordedIsMerged(base, sources[..n]);
      AppendedClaims(Merged(base, sources[..n]), last);
      ClaimsBag(last);
      ClaimsSpaceless(last);
    }
  }

  lemma ClaimsBag(c: Config)
    ensures multiset(Claims(DeclaredOf(c))) == ClaimBag(c)
  {
    ClaimsAreGroups(c);
  }

  lemma {:induction false} AddSourcesLaw(sources: seq<Source>, printable: set<char>)
    requires forall k :: k in RecordedKeys(sources) ==> ' ' !in k.kind
    ensures var e := AddSources(Check(map[], []), sources, printable);
            && (e.errs == [] <==> NoDup(RecordedKeys(sources)))
            && (e.errs == [] ==> e.origins.Keys == Texts(RecordedKeys(sources), printable))
  {
    hide Claims, DeclaredOf, AddAll, WrittenAll;
    if sources != [] {
      var n := |sources| - 1;
      AddSourcesLaw(sources[..n], printable);
      var e := AddSources(Check(map[], []), sources[..n], printable);
      AddAllLaw(e, RecordedKeys(sources[..n]), DeclaredOf(sources[n].blocks), sources[n].origin, printable);
      NoDupConcat(RecordedKeys(sources[..n]), Claims(DeclaredOf(sources[n].blocks)));
    } else {
      assert RecordedKeys(sources) == [];
    }
  }

  /** Over any sequence of additions, and however the blocks are spread over the
    * sources: the check stays silent exactly when no two declared resources, Services
    * of workloads included, share kind, namespace and name in the merged config. */
  lemma CheckIsExact(base: Config, sources: seq<Source>, printable: set<char>)
    requires Blockless(base)
    ensures AddSources(Check(map[], []), sources, printable).errs == [] <==>
            NoDup(AllKeys(ClaimGroups(Merged(base, sources))))
  {
    hide AllKeys, ClaimGroups, Merged, RecordedKeys, NoDup;
    RecordedIsMerged(base, sources);
    AddSourcesLaw(sources, printable);
    NoDupPermuted(RecordedKeys(sources), AllKeys(ClaimGroups(Merged(base, sources))));
  }

  // ------------------------------------------------- defaults change no identity

  lemma {:induction false} DefaultedPairs(ws: seq<Workload>, d: IngressDefaults)
    ensures WorkloadPairs(WorkloadsWithDefaults(ws, d)) == WorkloadPairs(ws)
    ensures ServicePairs(WorkloadsWithDefaults(ws, d)) == ServicePairs(ws)
  {
    hide IngressesWithDefaults;
    if ws != [] {
      assert WorkloadsWithDefaults(ws, d)[1..] == WorkloadsWithDefaults(ws[1..], d);
      DefaultedPairs(ws[1..], d);
    }
  }

  lemma {:induction false} DefaultedIngressPairs(ings: seq<Ingress>, d: IngressDefaults)
    ensures IngressPairs(IngressesWithDefaults(ings, d)) == IngressPairs(ings)
  {
    hide WithDefaults;
    if ings != [] {
      assert IngressesWithDefaults(ings, d)[1..] == IngressesWithDefaults(ings[1..], d);
      DefaultedIngressPairs(ings[1..], d);
      WithDefaultsFields(ings[0], d);
    }
  }

  lemma DefaultsKeepClaims(c: Config)
    ensures ClaimGroups(WithOwnDefaults(c)) == ClaimGroups(c)
  {
    hide WorkloadsWithDefaults, IngressesWithDefaults, WorkloadPairs, ServicePairs, IngressPairs,
         CronJobPairs, PlainPairs, ScopelessPairs;
    if c.ingressDefaults.Some? {
      var d := c.ingressDefaults.value;
      DefaultedPairs(c.deployments, d);
      DefaultedPairs(c.daemonSets, d);
      DefaultedPairs(c.statefulSets, d);
      DefaultedIngressPairs(c.ingresses, d);
    }
  }

  // ------------------------------------------------------------ one project

  function SingleResult(files: seq<Source>, defaults: Option<IngressDefaults>): Config
  {
    WithOwnDefaults(Merged(EMPTY.(ingressDefaults := defaults), files))
  }

  /** Merges the files of one directory and records every identity. */
  method MergeFiles(files: seq<Source>, defaults: Option<IngressDefaults>, printable: set<char>)
    returns (config: KdefConfig, duplicates: Option<seq<string>>)
    ensures fresh(config) && config.Snapshot() == Merged(EMPTY.(ingressDefaults := defaults), files)
    ensures duplicates.None? <==> NoDup(AllKeys(ClaimGroups(config.Snapshot())))
  {
    hide Appended, ClaimGroups, AddAll, WrittenAll, DeclaredOf, NoDup, AllKeys;
    config := new KdefConfig([], [], defaults);
    var dups := new DuplicateCheck(printable);
    ghost var base := config.Snapshot();
    var i := 0;
    while i < |files|
      invariant 0 <= i <= |files|
      invariant fresh(config) && fresh(dups) && dups.printable == printable
      invariant config.Snapshot() == Merged(base, files[..i])
      invariant dups.Model() == AddSources(Check(map[], []), files[..i], printable)
    {
      assert files[..i + 1][..i] == files[..i];
      dups.Add(files[i].blocks, files[i].origin);
      config.Append(files[i].blocks);
      i := i + 1;
    }
    assert files[..i] == files;
    CheckIsExact(base, files, printable);
    duplicates := dups.Err();
  }

  /** Merges the files of one project; checks identities, fills defaults, checks ingresses. */
  method LoadSingle(files: seq<Source>, defaults: Option<IngressDefaults>, printable: set<char>)
    returns (r: Result<KdefConfig, LoadError>)
    ensures r.Ok? <==> Accepted(SingleResult(files, defaults))
    ensures r.Err? ==> if NoDup(AllKeys(ClaimGroups(SingleResult(files, defaults)))) then r.error.IngressConflict?
                       else r.error.DuplicateResources?
    ensures r.Ok? ==> fresh(r.value) && r.value.Snapshot() == SingleResult(files, defaults)
  {
    hide ClaimGroups, NoConflict, Slots, NoDup, AllKeys, WithOwnDefaults, Merged;
    var config, duplicates := MergeFiles(files, defaults, printable);
    DefaultsKeepClaims(config.Snapshot());
    if duplicates.Some? {
      return Err(DuplicateResources(duplicates.value));
    }
    config.ApplyIngressDefaults();
    var conflict := ValidateIngresses(config.Snapshot());
    if conflict.Some? {
      return Err(IngressConflict(conflict.value));
    }
    return Ok(config);
  }
}
