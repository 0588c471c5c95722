/** A tree of projects seen at once: which of the checks on the way down matter. */
module FlatLoading {
  import opened Options
  import opened Seqs
  import opened SortedKeying
  import opened Blocks
  import opened Duplicates
  import opened IngressChecks
  import opened IngressDefaulting
  import opened Loader
  import opened ProjectLoad
  import opened RootProjects

  /** All blocks of a tree of projects, merged, injected and defaulted with no check on the way. */
  ghost function Flat(p: Project): Config
    decreases p, 2
  {
    match p
    case Broken => EMPTY
    case Single(files, defaults) => SingleResult(files, defaults)
    case Composed(root, files, entries) => WithOwnDefaults(FlatMerged(p))
  }

  ghost function FlatParts(p: Project): map<string, Config>
    requires p.Composed?
    decreases p, 0
  {
    map n | n in p.entries :: Injected(Flat(p.entries[n].project), p.entries[n])
  }

  ghost function FlatMerged(p: Project): Config
    requires p.Composed?
    decreases p, 1
  {
    RootMerged(p.root, OwnBlocks(p.files), FlatParts(p), SortedOf(p.entries.Keys))
  }

  /** Everything the loaders ask for but that identities are distinct: every directory is readable
    * and every root.kdef lists one; namespaces, accounts and ingresses pass at every level. */
  ghost predicate PassesOtherChecks(p: Project)
  {
    match p
    case Broken => false
    case Single(_, _) => NoConflict(Slots(Flat(p)))
    case Composed(root, _, entries) =>
      && entries.Keys != {}
      && (forall n :: n in entries ==> PassesOtherChecks(entries[n].project))
      && NamespacesOk(root, FlatMerged(p)) && NoConflict(Slots(Flat(p)))
  }

  // ------------------------------------------- injection merges no identities

  function Filled(p: (string, string), ns: string): (string, string)
  {
    if p.0 == "" then (ns, p.1) else p
  }

  function FilledAll(pairs: seq<(string, string)>, ns: string): seq<(string, string)>
  {
    Mapped((p: (string, string)) => Filled(p, ns), pairs)
  }

  lemma FilledFirst(p: (string, string), pairs: seq<(string, string)>, ns: string)
    ensures FilledAll([p] + pairs, ns) == [Filled(p, ns)] + FilledAll(pairs, ns)
    ensures FilledAll([], ns) == []
  {
  }

  lemma {:induction false} FilledWorkloads(ws: seq<Workload>, ns: string)
    ensures WorkloadPairs(NamespacedWorkloads(ws, ns)) == FilledAll(WorkloadPairs(ws), ns)
  {
    hide FilledAll;
    FilledFirst(("", ""), [], ns);
    if ws != [] {
      assert NamespacedWorkloads(ws, ns)[1..] == NamespacedWorkloads(ws[1..], ns);
      FilledWorkloads(ws[1..], ns);
      FilledFirst((ws[0].namespace, ws[0].name), WorkloadPairs(ws[1..]), ns);
    }
  }

  lemma {:induction false} FilledServices(ws: seq<Workload>, ns: string)
    ensures ServicePairs(NamespacedWorkloads(ws, ns)) == FilledAll(ServicePairs(ws), ns)
  {
    hide FilledAll, ServiceName;
    FilledFirst(("", ""), [], ns);
    if ws != [] {
      var out := NamespacedWorkloads(ws, ns);
      assert out[1..] == NamespacedWorkloads(ws[1..], ns);
      FilledServices(ws[1..], ns);
      if ws[0].service.Some? {
        var p := (ws[0].namespace, ServiceName(ws[0]));
        NamedAlike(ws[0], out[0]);
        assert ServicePairs(out) == [Filled(p, ns)] + ServicePairs(out[1..]);
        FilledFirst(p, ServicePairs(ws[1..]), ns);
      } else {
        assert ServicePairs(out) == ServicePairs(out[1..]) && ServicePairs(ws) == ServicePairs(ws[1..]);
      }
    }
  }

  lemma NamedAlike(w: Workload, v: Workload)
    requires w.service.Some? && v.service == w.service && v.name == w.name
    ensures ServiceName(v) == ServiceName(w)
  {
  }

  lemma {:induction false} FilledCronJobs(cs: seq<CronJob>, ns: string)
    ensures CronJobPairs(NamespacedCronJobs(cs, ns)) == FilledAll(CronJobPairs(cs), ns)
  {
    hide FilledAll;
    FilledFirst(("", ""), [], ns);
    if cs != [] {
      assert NamespacedCronJobs(cs, ns)[1..] == NamespacedCronJobs(cs[1..], ns);
      FilledCronJobs(cs[1..], ns);
      FilledFirst((cs[0].namespace, cs[0].name), CronJobPairs(cs[1..]), ns);
    }
  }

  lemma {:induction false} FilledPlain(ps: seq<Plain>, ns: string)
    ensures PlainPairs(NamespacedPlain(ps, ns)) == FilledAll(PlainPairs(ps), ns)
  {
    hide FilledAll;
    FilledFirst(("", ""), [], ns);
    if ps != [] {
      assert NamespacedPlain(ps, ns)[1..] == NamespacedPlain(ps[1..], ns);
      FilledPlain(ps[1..], ns);
      FilledFirst((ps[0].namespace, ps[0].name), PlainPairs(ps[1..]), ns);
    }
  }

  lemma {:induction false} FilledIngresses(ings: seq<Ingress>, ns: string)
    ensures IngressPairs(NamespacedIngresses(ings, ns)) == FilledAll(IngressPairs(ings), ns)
  {
    hide FilledAll;
    FilledFirst(("", ""), [], ns);
    if ings != [] {
      assert NamespacedIngresses(ings, ns)[1..] == NamespacedIngresses(ings[1..], ns);
      FilledIngresses(ings[1..], ns);
      FilledFirst((ings[0].namespace, ings[0].name), IngressPairs(ings[1..]), ns);
    }
  }

  lemma FilledConcat(a: seq<(string, string)>, b: seq<(string, string)>, ns: string)
    ensures FilledAll(a + b, ns) == FilledAll(a, ns) + FilledAll(b, ns)
  {
    MappedConcat((p: (string, string)) => Filled(p, ns), a, b);
  }

  lemma NamespacedGroups(c: Config, ns: string)
    ensures |ClaimGroups(Namespaced(c, ns))| == |ClaimGroups(c)|
    ensures forall i :: 0 <= i < |ClaimGroups(c)| ==>
              var p, q := ClaimGroups(c)[i].pairs, ClaimGroups(Namespaced(c, ns))[i].pairs;
              q == p || q == FilledAll(p, ns)
  {
    hide WorkloadPairs, ServicePairs, CronJobPairs, PlainPairs, IngressPairs, ScopelessPairs, FilledAll,
         NamespacedWorkloads, NamespacedCronJobs, NamespacedPlain, NamespacedIngresses;
    FilledWorkloads(c.deployments, ns);
    FilledServices(c.deployments, ns);
    FilledWorkloads(c.daemonSets, ns);
    FilledServices(c.daemonSets, ns);
    FilledWorkloads(c.statefulSets, ns);
    FilledServices(c.statefulSets, ns);
    FilledConcat(ServicePairs(c.deployments), ServicePairs(c.daemonSets), ns);
    FilledConcat(ServicePairs(c.deployments) + ServicePairs(c.daemonSets), ServicePairs(c.statefulSets), ns);
    FilledCronJobs(c.cronJobs, ns);
    FilledPlain(c.configMaps, ns);
    FilledPlain(c.secrets, ns);
    FilledPlain(c.sealedSecrets, ns);
    FilledPlain(c.claims, ns);
    FilledIngresses(c.ingresses, ns);
  }

  lemma {:induction false} AccountedPairs(ws: seq<Workload>, sa: string)
    ensures WorkloadPairs(AccountedWorkloads(ws, sa)) == WorkloadPairs(ws)
    ensures ServicePairs(AccountedWorkloads(ws, sa)) == ServicePairs(ws)
  {
    if ws != [] {
      assert AccountedWorkloads(ws, sa)[1..] == AccountedWorkloads(ws[1..], sa);
      AccountedPairs(ws[1..], sa);
    }
  }

  lemma {:induction false} AccountedCronJobPairs(cs: seq<CronJob>, sa: string)
    ensures CronJobPairs(AccountedCronJobs(cs, sa)) == CronJobPairs(cs)
  {
    if cs != [] {
      assert AccountedCronJobs(cs, sa)[1..] == AccountedCronJobs(cs[1..], sa);
      AccountedCronJobPairs(cs[1..], sa);
    }
  }

  lemma AccountedGroups(c: Config, sa: string)
    ensures ClaimGroups(Accounted(c, sa)) == ClaimGroups(c)
  {
    hide WorkloadPairs, ServicePairs, CronJobPairs, PlainPairs, IngressPairs, ScopelessPairs, AccountedWorkloads,
         AccountedCronJobs;
    AccountedPairs(c.deployments, sa);
    AccountedPairs(c.daemonSets, sa);
    AccountedPairs(c.statefulSets, sa);
    AccountedCronJobPairs(c.cronJobs, sa);
  }

  ghost predicate ClaimsDistinct(c: Config)
  {
    NoDup(AllKeys(ClaimGroups(c)))
  }

  /** What two blocks share before an injection they share after it. */
  lemma InjectionMerges(c: Config, e: Entry)
    requires ClaimsDistinct(Injected(c, e))
    ensures ClaimsDistinct(c)
  {
    hide ClaimGroups, AllKeys, FilledAll, NoDup, Namespaced, Accounted;
    var d := if e.namespace != "" then Namespaced(c, e.namespace) else c;
    AccountedGroups(d, e.serviceAccount);
    ClaimsApart(d);
    ClaimsApart(c);
    NamespacedGroups(c, e.namespace);
    forall i | 0 <= i < |ClaimGroups(c)| ensures NoDup(ClaimGroups(c)[i].pairs) {
      FilledNoDup(ClaimGroups(c)[i].pairs, e.namespace);
    }
  }

  lemma FilledNoDup(pairs: seq<(string, string)>, ns: string)
    ensures NoDup(FilledAll(pairs, ns)) ==> NoDup(pairs)
  {
    if NoDup(FilledAll(pairs, ns)) {
      NoDupMapped((p: (string, string)) => Filled(p, ns), pairs);
    }
  }

  // --------------------------------------------- merging keeps what is claimed

  lemma {:induction false} PartSourcesAre(parts: map<string, Config>, names: seq<string>)
    requires forall n :: n in names ==> n in parts
    ensures |PartSources(parts, names)| == |names|
    ensures forall k :: 0 <= k < |names| ==> PartSources(parts, names)[k].blocks == parts[names[k]]
  {
    if names != [] {
      PartSourcesAre(parts, names[..|names| - 1]);
    }
  }

  lemma {:induction false} SourceClaims(base: Config, sources: seq<Source>, i: nat)
    requires i < |sources|
    ensures ClaimBag(sources[i].blocks) <= ClaimBag(Merged(base, sources))
    decreases |sources|
  {
    hide ClaimBag, Appended;
    var n := |sources| - 1;
    AppendedClaims(Merged(base, sources[..n]), sources[n].blocks);
    if i < n {
      SourceClaims(base, sources[..n], i);
    }
  }

  lemma FewerClaims(c: Config, d: Config)
    requires ClaimBag(c) <= ClaimBag(d) && ClaimsDistinct(d)
    ensures ClaimsDistinct(c)
  {
    hide AllKeys, ClaimGroups, NoDup;
    NoDupByCount(AllKeys(ClaimGroups(c)));
    NoDupByCount(AllKeys(ClaimGroups(d)));
    assert forall k :: ClaimBag(c)[k] <= ClaimBag(d)[k];
  }

  /** A merge without a duplicate has none in the root-level files or in any part. */
  lemma MergedClaims(root: Root, rootDefs: Config, parts: map<string, Config>, names: seq<string>)
    requires forall n :: n in names ==> n in parts
    requires ClaimsDistinct(RootMerged(root, rootDefs, parts, names))
    ensures ClaimsDistinct(rootDefs)
    ensures forall n :: n in names ==> ClaimsDistinct(parts[n])
  {
    hide ClaimBag, Merged, ClaimsDistinct, PartSources;
    var sources := RootSources(rootDefs, parts, names);
    PartSourcesAre(parts, names);
    SourceClaims(RootBase(root), sources, 0);
    FewerClaims(rootDefs, Merged(RootBase(root), sources));
    forall n | n in names ensures ClaimsDistinct(parts[n]) {
      var k :| 0 <= k < |names| && names[k] == n;
      assert sources[k + 1] == PartSources(parts, names)[k];
      SourceClaims(RootBase(root), sources, k + 1);
      FewerClaims(parts[n], Merged(RootBase(root), sources));
    }
  }

  // ------------------------------------------------------------- the theorem

  /** What the theorem says of one project. */
  ghost predicate LoadsFlat(p: Project)
  {
    Loaded(p) == if PassesOtherChecks(p) && ClaimsDistinct(Flat(p)) then Some(Flat(p)) else None
  }

  /** With its entries loading to all their blocks, a root project's own checks decide. */
  lemma PartsAreFlat(p: Project)
    requires p.Composed? && forall n :: n in p.entries ==> Loaded(p.entries[n].project) == Some(Flat(p.entries[n].project))
    ensures Parts(p) == FlatParts(p)
    ensures Loaded(p) ==
            if p.entries.Keys != {} && ClaimsDistinct(OwnBlocks(p.files)) && MergedAccepted(p.root, FlatMerged(p))
            then Some(Flat(p)) else None
  {
    hide NoDup, AllKeys, ClaimGroups, SingleResult, MergedAccepted, WithOwnDefaults, RootMerged, OwnBlocks, Injected;
  }

  lemma PartsLoad(p: Project)
    requires p.Composed? && Loaded(p).Some?
    ensures p.entries.Keys != {} && forall n :: n in p.entries ==> Loaded(p.entries[n].project).Some?
  {
    hide NoDup, AllKeys, ClaimGroups, SingleResult, MergedAccepted, WithOwnDefaults, RootMerged, OwnBlocks, Injected;
    forall n | n in p.entries ensures Loaded(p.entries[n].project).Some? {
      assert n in Parts(p);
    }
  }

  /** A merge without duplicates comes from sub-projects and root-level files without. */
  lemma DistinctBelow(p: Project)
    requires p.Composed? && ClaimsDistinct(Flat(p))
    ensures ClaimsDistinct(FlatMerged(p)) && ClaimsDistinct(OwnBlocks(p.files))
    ensures forall n :: n in p.entries ==> ClaimsDistinct(Flat(p.entries[n].project))
  {
    DefaultsKeepClaims(FlatMerged(p));
    assert ClaimsDistinct(FlatMerged(p));
    hide ClaimsDistinct, RootMerged, OwnBlocks, Injected, WithOwnDefaults;
    MergedClaims(p.root, OwnBlocks(p.files), FlatParts(p), SortedOf(p.entries.Keys));
    forall n | n in p.entries ensures ClaimsDistinct(Flat(p.entries[n].project)) {
      assert n in SortedOf(p.entries.Keys) && n in FlatParts(p);
      InjectionMerges(Flat(p.entries[n].project), p.entries[n]);
    }
  }

  lemma RootChecks(p: Project)
    requires p.Composed?
    ensures MergedAccepted(p.root, FlatMerged(p)) <==>
            NamespacesOk(p.root, FlatMerged(p)) && ClaimsDistinct(Flat(p)) && NoConflict(Slots(Flat(p)))
  {
    hide NoDup, AllKeys, ClaimGroups, NoConflict, Slots, NamespacesOk, FlatMerged, WithOwnDefaults;
  }

  /** A tree of projects loads exactly when it passes all other checks at every level and the
    * identities of all its blocks, merged, injected and defaulted, are distinct at the top: the
    * duplicate checks of the sub-projects and of the root-level files reject nothing more. What
    * it loads to is all its blocks. */
  lemma {:induction false} OneDuplicateCheckSuffices(p: Project)
    ensures Loaded(p) == if PassesOtherChecks(p) && ClaimsDistinct(Flat(p)) then Some(Flat(p)) else None
    decreases p
  {
    if p.Composed? {
      hide Loaded, ClaimsDistinct, Flat, FlatMerged, NoConflict, Slots, NamespacesOk, MergedAccepted, OwnBlocks;
      forall n | n in p.entries ensures LoadsFlat(p.entries[n].project) {
        OneDuplicateCheckSuffices(p.entries[n].project);
      }
      RootChecks(p);
      if ClaimsDistinct(Flat(p)) {
        DistinctBelow(p);
      }
      if Loaded(p).Some? {
        PartsLoad(p);
      }
      if forall n :: n in p.entries ==> Loaded(p.entries[n].project) == Some(Flat(p.entries[n].project)) {
        PartsAreFlat(p);
      }
    } else {
      hide NoDup, AllKeys, ClaimGroups, NoConflict, Slots, SingleResult;
    }
  }

  const FIRST := Ingress("a", "n", "app", "h.io", [], true, "", "", "", map[])
  const SECOND := FIRST.(name := "b")

  /** The ingress checks are not implied in this way: two blocks that would fill one generated
    * secret conflict in their own project, and no longer do under a root that shares a secret. */
  lemma SharedSecretHides(d: IngressDefaults)
    requires d.tlsSecret != ""
    ensures var c := EMPTY.(ingresses := [FIRST, SECOND]);
            !NoConflict(Slots(c)) && NoConflict(Slots(Defaulted(c, d)))
  {
    OneSecret(d);
    WithDefaultsFields(FIRST, d);
    WithDefaultsFields(SECOND, d);
    hide CertificateSecretName, WithDefaults, NoConflict;
    var c := EMPTY.(ingresses := [FIRST, SECOND]);
    var slots, after := Slots(c), Slots(Defaulted(c, d));
    assert slots == [slots[0], slots[1]] && after == [after[0], after[1]];
    PairConflict(slots[0], slots[1]);
    PairConflict(after[0], after[1]);
    assert NameKey(after[0])[2..] == "a" && NameKey(after[1])[2..] == "b";
  }

  /** Two blocks conflict when they share a key or a generated secret. */
  lemma PairConflict(s: Slot, t: Slot)
    requires s.namespace == t.namespace
    ensures NoConflict([s, t]) <==>
              && NameKey(s) != NameKey(t)
              && (CertificateSecretName(s.ingress) == CertificateSecretName(t.ingress) ==>
                    CertificateSecretName(s.ingress) == "")
  {
    hide CertificateSecretName;
    var x, y := CertificateSecretName(s.ingress), CertificateSecretName(t.ingress);
    NoConflictSnoc([], s);
    NoConflictSnoc([s], t);
    KeysGrow([], s);
    assert [] + [s] == [s] && [s] + [t] == [s, t];
    assert s.namespace + "/" + x == t.namespace + "/" + y ==> x == y by {
      assert (s.namespace + "/" + x)[|s.namespace| + 1..] == x && (t.namespace + "/" + y)[|t.namespace| + 1..] == y;
    }
  }

  lemma OneSecret(d: IngressDefaults)
    requires d.tlsSecret != ""
    ensures CertificateSecretName(FIRST) == CertificateSecretName(SECOND) != ""
    ensures CertificateSecretName(WithDefaults(FIRST, d)) == CertificateSecretName(WithDefaults(SECOND, d)) == ""
  {
    WithDefaultsFields(FIRST, d);
    WithDefaultsFields(SECOND, d);
    hide WithDefaults;
    AllHostsIs(FIRST, []);
    AllHostsIs(SECOND, []);
    assert "h.io" in AllHosts(FIRST) && AllHosts(FIRST) == AllHosts(SECOND);
  }
}
