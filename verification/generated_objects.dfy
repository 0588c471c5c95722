/** What a config's result holds, kind by kind: how many objects of a namespace and name, in terms
  * of the blocks. */
module GeneratedObjects {
  import opened Text
  import opened Seqs
  import opened Blocks
  import opened Duplicates
  import opened IngressChecks
  import opened Generator
  import opened Assembly
  import opened Uniqueness
  import opened CollisionFree
  import opened Conservation

  /** How many of the objects are of this kind, namespace and name. */
  function Objects(ms: seq<Manifest>, kind: string, ns: string, name: string): nat
  {
    Count(ms, (m: Manifest) => m.kind == kind && m.namespace == ns && m.name == name)
  }

  /** All that Generate returns, in some order. */
  ghost predicate Returned(c: Config, order: seq<(string, string)>, ms: seq<Manifest>)
  {
    Enumerates(order, UsedAccounts(c)) && multiset(ms) == Total(Generated(c, order))
  }

  // ----------------------------------------------- from objects to the groups

  lemma ObjectsAreKeys(ms: seq<Manifest>, kind: string, ns: string, name: string)
    ensures Objects(ms, kind, ns, name) == multiset(Keys(ms))[Key(kind, ns, name)]
  {
    var f := (m: Manifest) => KeyOf(m);
    assert Keys(ms) == Mapped(f, ms);
    CountImages(f, ms, Key(kind, ns, name), (m: Manifest) => m.kind == kind && m.namespace == ns && m.name == name);
  }

  function Pairs(pairs: seq<(string, string)>, ns: string, name: string): nat
  {
    Count(pairs, (p: (string, string)) => p.0 == ns && p.1 == name)
  }

  lemma LabelCount(kind: string, pairs: seq<(string, string)>, k: Key)
    ensures multiset(Label(kind, pairs))[k] == if k.kind == kind then Pairs(pairs, k.namespace, k.name) else 0
  {
    var f := (p: (string, string)) => Key(kind, p.0, p.1);
    assert Label(kind, pairs) == Mapped(f, pairs);
    if k.kind == kind {
      CountImages(f, pairs, k, (p: (string, string)) => p.0 == k.namespace && p.1 == k.name);
    } else {
      CountImages(f, pairs, k, (p: (string, string)) => false);
      CountNone(pairs, (p: (string, string)) => false);
    }
  }

  lemma {:induction false} GroupCount(groups: seq<Group>, k: Key, i: nat)
    requires forall j, l :: 0 <= j < l < |groups| ==> groups[j].kind != groups[l].kind
    requires i < |groups| && groups[i].kind == k.kind
    ensures GroupsBag(groups)[k] == Pairs(groups[i].pairs, k.namespace, k.name)
  {
    hide Label, Pairs;
    LabelCount(groups[0].kind, groups[0].pairs, k);
    if i > 0 {
      GroupCount(groups[1..], k, i - 1);
    } else {
      OtherGroups(groups[1..], k);
    }
  }

  lemma {:induction false} OtherGroups(groups: seq<Group>, k: Key)
    requires forall j :: 0 <= j < |groups| ==> groups[j].kind != k.kind
    ensures GroupsBag(groups)[k] == 0
  {
    hide Label, Pairs;
    if groups != [] {
      LabelCount(groups[0].kind, groups[0].pairs, k);
      OtherGroups(groups[1..], k);
    }
  }

  /** Never more objects of a kind than pairs in its group, and as many when nothing is lost. */
  lemma ObjectsOfGroup(c: Config, order: seq<(string, string)>, ms: seq<Manifest>, i: nat, ns: string, name: string)
    requires Returned(c, order, ms) && i < 18
    ensures |ObjectGroups(c, order)| == 18
    ensures var g := ObjectGroups(c, order)[i];
            && Objects(ms, g.kind, ns, name) <= Pairs(g.pairs, ns, name)
            && (Lossless(c, order) ==> Objects(ms, g.kind, ns, name) == Pairs(g.pairs, ns, name))
  {
    hide ObjectGroups, GroupsBag, Objects, Pairs, Total, Generated, Expected, Lossless, KeyOf;
    ObjectGroupKinds(c, order);
    ObjectGroupsApart(c, order);
    var g := ObjectGroups(c, order)[i];
    var k := Key(g.kind, ns, name);
    GroupCount(ObjectGroups(c, order), k, i);
    ExpectedKeys(c, order);
    ConservationExact(c, order);
    FewerKeys(ms, Expected(c, order));
    if Lossless(c, order) { FewerKeys(Expected(c, order), ms); }
    ObjectsAreKeys(ms, g.kind, ns, name);
  }

  lemma FewerKeys(a: seq<Manifest>, b: seq<Manifest>)
    requires multiset(a) <= multiset(b)
    ensures multiset(Keys(a)) <= multiset(Keys(b))
  {
    hide KeyOf;
    var f := (m: Manifest) => KeyOf(m);
    MappedFewer(f, a, b);
    assert Keys(a) == Mapped(f, a) && Keys(b) == Mapped(f, b);
  }

  /** A kind that is in no group has no objects. */
  lemma ObjectsOfNoGroup(c: Config, order: seq<(string, string)>, ms: seq<Manifest>, kind: string, ns: string, name: string)
    requires Returned(c, order, ms)
    requires forall i :: 0 <= i < |ObjectGroups(c, order)| ==> ObjectGroups(c, order)[i].kind != kind
    ensures Objects(ms, kind, ns, name) == 0
  {
    hide ObjectGroups, GroupsBag, Objects, Total, Generated, Expected, Lossless, KeyOf;
    OtherGroups(ObjectGroups(c, order), Key(kind, ns, name));
    ExpectedKeys(c, order);
    ConservationExact(c, order);
    FewerKeys(ms, Expected(c, order));
    ObjectsAreKeys(ms, kind, ns, name);
  }

  // ------------------------------------------------------- from groups to blocks

  lemma PairsConcat(a: seq<(string, string)>, b: seq<(string, string)>, ns: string, name: string)
    ensures Pairs(a + b, ns, name) == Pairs(a, ns, name) + Pairs(b, ns, name)
    ensures Pairs([], ns, name) == 0
  {
    CountConcat(a, b, (p: (string, string)) => p.0 == ns && p.1 == name);
  }

  lemma PairsOne(p: (string, string), ns: string, name: string)
    ensures Pairs([p], ns, name) == if p.0 == ns && p.1 == name then 1 else 0
  {
    var q := (p: (string, string)) => p.0 == ns && p.1 == name;
    assert Count([p], q) == (if q(p) then 1 else 0) + Count([p][1..], q);
  }

  function Named(ws: seq<Workload>, ns: string, name: string): nat
  {
    Count(ws, (w: Workload) => w.namespace == ns && w.name == name)
  }

  /** Workloads with a service block, by the name their Service gets. */
  function Serving(ws: seq<Workload>, ns: string, name: string): nat
  {
    Count(ws, (w: Workload) => w.service.Some? && w.namespace == ns
                               && name == if w.service.value.name != "" then w.service.value.name else w.name)
  }

  function Scaling(ws: seq<Workload>, ns: string, name: string): nat
  {
    Count(ws, (w: Workload) => w.autoscale && w.namespace == ns && w.name == name)
  }

  lemma {:induction false} WorkloadsCounted(ws: seq<Workload>, ns: string, name: string)
    ensures Pairs(WorkloadPairs(ws), ns, name) == Named(ws, ns, name)
  {
    hide Pairs;
    PairsConcat([], [], ns, name);
    if ws != [] {
      var p := (ws[0].namespace, ws[0].name);
      WorkloadsCounted(ws[1..], ns, name);
      PairsConcat([p], WorkloadPairs(ws[1..]), ns, name);
      PairsOne(p, ns, name);
    }
  }

  lemma {:induction false} ServicesCounted(ws: seq<Workload>, ns: string, name: string)
    ensures Pairs(ServicePairs(ws), ns, name) == Serving(ws, ns, name)
  {
    hide Pairs;
    PairsConcat([], [], ns, name);
    if ws != [] {
      ServicesCounted(ws[1..], ns, name);
      if ws[0].service.Some? {
        var p := (ws[0].namespace, ServiceName(ws[0]));
        PairsConcat([p], ServicePairs(ws[1..]), ns, name);
        PairsOne(p, ns, name);
      } else {
        PairsConcat([], ServicePairs(ws[1..]), ns, name);
      }
    }
  }

  lemma {:induction false} ScalersCounted(ws: seq<Workload>, ns: string, name: string)
    ensures Pairs(ScalerPairs(ws), ns, name) == Scaling(ws, ns, name)
  {
    hide Pairs;
    PairsConcat([], [], ns, name);
    if ws != [] {
      ScalersCounted(ws[1..], ns, name);
      var p := (ws[0].namespace, ws[0].name);
      PairsConcat(if ws[0].autoscale then [p] else [], ScalerPairs(ws[1..]), ns, name);
      PairsOne(p, ns, name);
    }
  }

  function CronJobs(cs: seq<CronJob>, ns: string, name: string): nat
  {
    Count(cs, (j: CronJob) => j.namespace == ns && j.name == name)
  }

  lemma {:induction false} CronJobsCounted(cs: seq<CronJob>, ns: string, name: string)
    ensures Pairs(CronJobPairs(cs), ns, name) == CronJobs(cs, ns, name)
  {
    hide Pairs;
    PairsConcat([], [], ns, name);
    if cs != [] {
      var p := (cs[0].namespace, cs[0].name);
      CronJobsCounted(cs[1..], ns, name);
      PairsConcat([p], CronJobPairs(cs[1..]), ns, name);
      PairsOne(p, ns, name);
    }
  }

  function Plains(ps: seq<Plain>, ns: string, name: string): nat
  {
    Count(ps, (p: Plain) => p.namespace == ns && p.name == name)
  }

  lemma {:induction false} PlainsCounted(ps: seq<Plain>, ns: string, name: string)
    ensures Pairs(PlainPairs(ps), ns, name) == Plains(ps, ns, name)
  {
    hide Pairs;
    PairsConcat([], [], ns, name);
    if ps != [] {
      var p := (ps[0].namespace, ps[0].name);
      PlainsCounted(ps[1..], ns, name);
      PairsConcat([p], PlainPairs(ps[1..]), ns, name);
      PairsOne(p, ns, name);
    }
  }

  /** Cluster-scoped blocks, whose objects have no namespace. */
  function Scopelesses(ss: seq<Scopeless>, ns: string, name: string): nat
  {
    if ns == "" then Count(ss, (s: Scopeless) => s.name == name) else 0
  }

  lemma {:induction false} ScopelessesCounted(ss: seq<Scopeless>, ns: string, name: string)
    ensures Pairs(ScopelessPairs(ss), ns, name) == Scopelesses(ss, ns, name)
  {
    hide Pairs;
    PairsConcat([], [], ns, name);
    if ss != [] {
      ScopelessesCounted(ss[1..], ns, name);
      PairsConcat([("", ss[0].name)], ScopelessPairs(ss[1..]), ns, name);
      PairsOne(("", ss[0].name), ns, name);
    }
  }

  // ------------------------------------------------------ routes and certificates

  predicate HasHost(ing: Ingress)
  {
    ing.host != "" || exists h :: h in ing.hosts && h != ""
  }

  function FirstNonEmpty(hosts: seq<string>): string
  {
    if hosts == [] then "" else if hosts[0] != "" then hosts[0] else FirstNonEmpty(hosts[1..])
  }

  function FirstHost(ing: Ingress): string
  {
    if ing.host != "" then ing.host else FirstNonEmpty(ing.hosts)
  }

  lemma {:induction false} FirstOfDistinct(s: seq<string>)
    ensures DistinctHostList(s) == [] <==> FirstNonEmpty(s) == ""
    ensures FirstNonEmpty(s) == "" <==> forall h :: h in s ==> h == ""
    ensures DistinctHostList(s) != [] ==> DistinctHostList(s)[0] == FirstNonEmpty(s)
  {
    DistinctHosts(s);
    if s != [] {
      FirstOfDistinct(s[1..]);
      assert forall h :: h in s <==> h == s[0] || h in s[1..];
      if s[0] == "" {
        assert s == [""] + s[1..];
        LeadingBlank(s[1..]);
      } else {
        DistinctHostsGrow([s[0]], s[1..]);
        assert s[0] in s;
        assert s == [s[0]] + s[1..] && [s[0]][..0] == [] && DistinctHostList([s[0]]) == [s[0]];
      }
    }
  }

  lemma {:induction false} LeadingBlank(s: seq<string>)
    ensures DistinctHostList([""] + s) == DistinctHostList(s)
  {
    if s == [] {
      assert [""] + s == [""] && [""][..0] == [];
    } else {
      assert ([""] + s)[..|s|] == [""] + s[..|s| - 1];
      LeadingBlank(s[..|s| - 1]);
    }
  }

  lemma HostsAre(ing: Ingress)
    ensures AllHosts(ing) != [] <==> HasHost(ing)
    ensures HasHost(ing) ==> AllHosts(ing)[0] == FirstHost(ing) != ""
  {
    FirstOfDistinct([ing.host] + ing.hosts);
    assert ([ing.host] + ing.hosts)[1..] == ing.hosts;
    assert forall h :: h in [ing.host] + ing.hosts <==> h == ing.host || h in ing.hosts;
  }

  /** The name of a workload's i-th ingress block. */
  function BlockName(w: Workload, i: nat): string
    requires i < |w.ingresses|
  {
    if w.ingresses[i].name != "" then w.ingresses[i].name
    else if i == 0 then w.name else w.name + "-" + Decimal(i + 1)
  }

  /** The name of a top-level block's route: its own, or that of the service it points at. */
  function RouteOf(ing: Ingress): string
  {
    if ing.name != "" then ing.name else ing.serviceName
  }

  /** A block gets a certificate if TLS is on, it names no secret and has a host. */
  predicate Certifies(ing: Ingress, name: string)
  {
    ing.tls && ing.tlsSecret == "" && HasHost(ing) && name == Replaced(FirstHost(ing), '.', '-') + "-tls"
  }

  /** Of a workload's first n ingress blocks those with a route, or a certificate, of that name. */
  function RoutedBlocks(w: Workload, n: nat, ns: string, name: string): nat
    requires n <= |w.ingresses|
  {
    if n == 0 then 0
    else RoutedBlocks(w, n - 1, ns, name)
         + if HasHost(w.ingresses[n - 1]) && w.namespace == ns && BlockName(w, n - 1) == name then 1 else 0
  }

  function CertifiedBlocks(w: Workload, n: nat, ns: string, name: string): nat
    requires n <= |w.ingresses|
  {
    if n == 0 then 0
    else CertifiedBlocks(w, n - 1, ns, name)
         + if w.namespace == ns && Certifies(w.ingresses[n - 1], name) then 1 else 0
  }

  function Routed(ws: seq<Workload>, ns: string, name: string): nat
  {
    if ws == [] then 0 else RoutedBlocks(ws[0], |ws[0].ingresses|, ns, name) + Routed(ws[1..], ns, name)
  }

  function Certified(ws: seq<Workload>, ns: string, name: string): nat
  {
    if ws == [] then 0 else CertifiedBlocks(ws[0], |ws[0].ingresses|, ns, name) + Certified(ws[1..], ns, name)
  }

  function RoutesDue(c: Config, ns: string, name: string): nat
  {
    Routed(c.deployments, ns, name) + Routed(c.statefulSets, ns, name)
    + Count(c.ingresses, (ing: Ingress) => HasHost(ing) && ing.namespace == ns && RouteOf(ing) == name)
  }

  function CertificatesDue(c: Config, ns: string, name: string): nat
  {
    Certified(c.deployments, ns, name) + Certified(c.statefulSets, ns, name)
    + Count(c.ingresses, (ing: Ingress) => ing.namespace == ns && Certifies(ing, name))
  }

  function SlotRoute(s: Slot): seq<(string, string)>
  {
    if Routes(s) then [(s.namespace, RouteName(s))] else []
  }

  function SlotCertificate(s: Slot): seq<(string, string)>
  {
    if CertificateSecretName(s.ingress) == "" then [] else [(s.namespace, CertificateSecretName(s.ingress))]
  }

  lemma SlotStep(slots: seq<Slot>, s: Slot, ns: string, name: string)
    ensures Pairs(RoutePairs(slots + [s]), ns, name) ==
            Pairs(RoutePairs(slots), ns, name)
            + if HasHost(s.ingress) && s.namespace == ns && RouteName(s) == name then 1 else 0
    ensures Pairs(CertificatePairs(slots + [s]), ns, name) ==
            Pairs(CertificatePairs(slots), ns, name)
            + if s.namespace == ns && Certifies(s.ingress, name) then 1 else 0
    ensures Pairs(RoutePairs([]), ns, name) == 0 && Pairs(CertificatePairs([]), ns, name) == 0
  {
    hide Pairs, RouteName, HasHost;
    assert (slots + [s])[..|slots|] == slots;
    HostsAre(s.ingress);
    CertificateIs(s.ingress, name);
    PairsConcat(RoutePairs(slots), SlotRoute(s), ns, name);
    PairsConcat(CertificatePairs(slots), SlotCertificate(s), ns, name);
    PairsOne((s.namespace, RouteName(s)), ns, name);
    PairsOne((s.namespace, CertificateSecretName(s.ingress)), ns, name);
  }

  lemma CertificateIs(ing: Ingress, name: string)
    ensures CertificateSecretName(ing) != "" && CertificateSecretName(ing) == name <==> Certifies(ing, name)
  {
    HostsAre(ing);
    hide HasHost, AllHosts, FirstHost;
    assert HasHost(ing) ==> (Replaced(FirstHost(ing), '.', '-') + "-tls")[|FirstHost(ing)|] == '-';
  }

  lemma {:induction false} NestedCounted(kind: string, w: Workload, n: nat, ns: string, name: string)
    requires n <= |w.ingresses|
    ensures Pairs(RoutePairs(NestedSlots(kind, w)[..n]), ns, name) == RoutedBlocks(w, n, ns, name)
    ensures Pairs(CertificatePairs(NestedSlots(kind, w)[..n]), ns, name) == CertifiedBlocks(w, n, ns, name)
  {
    hide Pairs, HasHost, Certifies, RoutePairs, CertificatePairs;
    var slots := NestedSlots(kind, w);
    if n == 0 {
      SlotStep([], Slot(TopLevel(""), "", "", Ingress("", "", "", "", [], false, "", "", "", map[])), ns, name);
    } else {
      NestedCounted(kind, w, n - 1, ns, name);
      SlotStep(slots[..n - 1], slots[n - 1], ns, name);
      assert slots[..n] == slots[..n - 1] + [slots[n - 1]];
    }
  }

  lemma {:induction false} WorkloadSlotsCounted(kind: string, ws: seq<Workload>, ns: string, name: string)
    ensures Pairs(RoutePairs(WorkloadSlots(kind, ws)), ns, name) == Routed(ws, ns, name)
    ensures Pairs(CertificatePairs(WorkloadSlots(kind, ws)), ns, name) == Certified(ws, ns, name)
  {
    hide Pairs, NestedSlots, RoutedBlocks, CertifiedBlocks;
    if ws == [] {
      PairsConcat([], [], ns, name);
    } else {
      hide RoutePairs, CertificatePairs;
      var slots, rest := NestedSlots(kind, ws[0]), WorkloadSlots(kind, ws[1..]);
      WorkloadSlotsCounted(kind, ws[1..], ns, name);
      NestedCounted(kind, ws[0], |ws[0].ingresses|, ns, name);
      assert slots[..|ws[0].ingresses|] == slots;
      RoutePairsConcat(slots, rest);
      CertificatePairsConcat(slots, rest);
      PairsConcat(RoutePairs(slots), RoutePairs(rest), ns, name);
      PairsConcat(CertificatePairs(slots), CertificatePairs(rest), ns, name);
    }
  }

  lemma RouteOfIs(ing: Ingress)
    ensures RouteName(TopLevelSlots([ing])[0]) == RouteOf(ing)
  {
  }

  lemma {:induction false} TopLevelCounted(ings: seq<Ingress>, ns: string, name: string)
    ensures Pairs(RoutePairs(TopLevelSlots(ings)), ns, name) ==
            Count(ings, (ing: Ingress) => HasHost(ing) && ing.namespace == ns && RouteOf(ing) == name)
    ensures Pairs(CertificatePairs(TopLevelSlots(ings)), ns, name) ==
            Count(ings, (ing: Ingress) => ing.namespace == ns && Certifies(ing, name))
  {
    hide Pairs, HasHost, Certifies;
    if ings == [] {
      PairsConcat([], [], ns, name);
    } else {
      hide RoutePairs, CertificatePairs, RouteName;
      RouteOfIs(ings[0]);
      var one, rest := TopLevelSlots([ings[0]]), TopLevelSlots(ings[1..]);
      TopLevelCounted(ings[1..], ns, name);
      assert TopLevelSlots(ings) == one + rest && one == [] + [one[0]];
      RoutePairsConcat(one, rest);
      CertificatePairsConcat(one, rest);
      PairsConcat(RoutePairs(one), RoutePairs(rest), ns, name);
      PairsConcat(CertificatePairs(one), CertificatePairs(rest), ns, name);
      SlotStep([], one[0], ns, name);
    }
  }

  lemma SlotsCounted(c: Config, ns: string, name: string)
    ensures Pairs(RoutePairs(Slots(c)), ns, name) == RoutesDue(c, ns, name)
    ensures Pairs(CertificatePairs(Slots(c)), ns, name) == CertificatesDue(c, ns, name)
  {
    hide Pairs, RoutePairs, CertificatePairs, WorkloadSlots, TopLevelSlots, Routed, Certified, HasHost, Certifies, RouteOf;
    var a, b, t := WorkloadSlots("deployment", c.deployments), WorkloadSlots("statefulset", c.statefulSets),
                   TopLevelSlots(c.ingresses);
    WorkloadSlotsCounted("deployment", c.deployments, ns, name);
    WorkloadSlotsCounted("statefulset", c.statefulSets, ns, name);
    TopLevelCounted(c.ingresses, ns, name);
    RoutePairsConcat(a + b, t);
    RoutePairsConcat(a, b);
    CertificatePairsConcat(a + b, t);
    CertificatePairsConcat(a, b);
    PairsConcat(RoutePairs(a) + RoutePairs(b), RoutePairs(t), ns, name);
    PairsConcat(RoutePairs(a), RoutePairs(b), ns, name);
    PairsConcat(CertificatePairs(a) + CertificatePairs(b), CertificatePairs(t), ns, name);
    PairsConcat(CertificatePairs(a), CertificatePairs(b), ns, name);
  }

  // ------------------------------------------------- accounts and namespaces

  lemma PairsNoDup(pairs: seq<(string, string)>, ns: string, name: string)
    requires NoDup(pairs)
    ensures Pairs(pairs, ns, name) == if (ns, name) in pairs then 1 else 0
  {
    var f := (p: (string, string)) => p;
    assert Mapped(f, pairs) == pairs;
    CountImages(f, pairs, (ns, name), (p: (string, string)) => p.0 == ns && p.1 == name);
    NoDupByCount(pairs);
    assert (ns, name) in pairs <==> (ns, name) in multiset(pairs);
  }

  /** Some workload or cronjob runs under the account in the namespace. */
  predicate UsesAccount(c: Config, ns: string, name: string)
  {
    && name != ""
    && (|| (exists w :: w in c.deployments + c.daemonSets + c.statefulSets && w.serviceAccount == name && w.namespace == ns)
        || (exists j :: j in c.cronJobs && j.serviceAccount == name && j.namespace == ns))
  }

  /** There is a declaration of the account for the namespace, or for all. */
  predicate DeclaresAccount(c: Config, ns: string, name: string)
  {
    exists sa :: sa in c.accounts && sa.name == name && (sa.namespace == ns || sa.namespace == "")
  }

  lemma UsedIs(c: Config, ns: string, name: string)
    ensures (name, ns) in UsedAccounts(c) <==> UsesAccount(c, ns, name)
  {
    assert forall w :: w in c.deployments + c.daemonSets + c.statefulSets <==>
                       w in c.deployments || w in c.daemonSets || w in c.statefulSets;
  }

  lemma {:induction false} AccountPairsAre(accounts: seq<Account>, order: seq<(string, string)>, p: (string, string))
    ensures p in AccountPairs(accounts, order) <==> (p.1, p.0) in order && Resolve(accounts, p.1, p.0).Some?
  {
    hide Resolve;
    if order != [] {
      var n := |order| - 1;
      AccountPairsAre(accounts, order[..n], p);
      assert order == order[..n] + [order[n]];
    }
  }

  lemma AccountsCounted(c: Config, order: seq<(string, string)>, ns: string, name: string)
    requires Enumerates(order, UsedAccounts(c))
    ensures Pairs(AccountPairs(c.accounts, order), ns, name) ==
            if UsesAccount(c, ns, name) && DeclaresAccount(c, ns, name) then 1 else 0
  {
    hide Resolve, Pairs, AccountPairs, UsesAccount, UsedAccounts;
    UsedIs(c, ns, name);
    AccountPairsNoDup(c.accounts, order);
    AccountPairsAre(c.accounts, order, (ns, name));
    PairsNoDup(AccountPairs(c.accounts, order), ns, name);
    ResolveIs(c.accounts, name, ns);
  }

  lemma NamespacesCounted(nss: seq<string>, ns: string, name: string)
    ensures Pairs(NamespacePairs(Distinct(nss)), ns, name) == if ns == "" && name in nss then 1 else 0
  {
    hide Pairs, Distinct;
    DistinctIs(nss);
    NamespacesApart(nss);
    var d, pairs := Distinct(nss), NamespacePairs(Distinct(nss));
    PairsNoDup(pairs, ns, name);
    if name in d {
      var i :| 0 <= i < |d| && d[i] == name;
      assert pairs[i] == ("", name);
    }
  }

  // ------------------------------------------------------------- the theorem

  predicate Gateway(c: Config)
  {
    c.ingressDefaults.Some? && c.ingressDefaults.value.mode == "gateway"
  }

  /** How many objects of a kind, namespace and name a config calls for. */
  function Due(c: Config, kind: string, ns: string, name: string): nat
  {
    match kind
    case "Deployment" => Named(c.deployments, ns, name)
    case "DaemonSet" => Named(c.daemonSets, ns, name)
    case "StatefulSet" => Named(c.statefulSets, ns, name)
    case "Service" => Serving(c.deployments, ns, name) + Serving(c.daemonSets, ns, name) + Serving(c.statefulSets, ns, name)
    case "CronJob" => CronJobs(c.cronJobs, ns, name)
    case "ConfigMap" => Plains(c.configMaps, ns, name)
    case "Secret" => Plains(c.secrets, ns, name)
    case "SealedSecret" => Plains(c.sealedSecrets, ns, name)
    case "PersistentVolumeClaim" => Plains(c.claims, ns, name)
    case "ClusterRole" => Scopelesses(c.clusterRoles, ns, name)
    case "ClusterRoleBinding" => Scopelesses(c.clusterRoleBindings, ns, name)
    case "CustomResourceDefinition" => Scopelesses(c.crds, ns, name)
    case "CSIDriver" => Scopelesses(c.csiDrivers, ns, name)
    case "HorizontalPodAutoscaler" => Scaling(c.deployments, ns, name)
    case "HTTPRoute" => if Gateway(c) then RoutesDue(c, ns, name) else 0
    case "Ingress" => if Gateway(c) then 0 else RoutesDue(c, ns, name)
    case "Certificate" => CertificatesDue(c, ns, name)
    case "ServiceAccount" => if UsesAccount(c, ns, name) && DeclaresAccount(c, ns, name) then 1 else 0
    case "Namespace" => if ns == "" && name in c.namespaces then 1 else 0
    case _ => 0
  }

  lemma ServicesDue(c: Config, ns: string, name: string)
    ensures Pairs(AllServicePairs(c), ns, name) == Due(c, "Service", ns, name)
  {
    hide Pairs, ServicePairs, Serving;
    ServicesCounted(c.deployments, ns, name);
    ServicesCounted(c.daemonSets, ns, name);
    ServicesCounted(c.statefulSets, ns, name);
    PairsConcat(ServicePairs(c.deployments) + ServicePairs(c.daemonSets), ServicePairs(c.statefulSets), ns, name);
    PairsConcat(ServicePairs(c.deployments), ServicePairs(c.daemonSets), ns, name);
  }

  lemma BlocksDue(c: Config, order: seq<(string, string)>, i: nat, ns: string, name: string)
    requires i < 14
    ensures Pairs(ObjectGroups(c, order)[i].pairs, ns, name) == Due(c, ObjectGroups(c, order)[i].kind, ns, name)
  {
    hide Pairs, WorkloadPairs, ServicePairs, AllServicePairs, CronJobPairs, PlainPairs, ScopelessPairs, ScalerPairs,
         RoutePairs, CertificatePairs, AccountPairs, NamespacePairs, Slots, ModeOf, Named, Serving, Scaling, CronJobs,
         Plains, Scopelesses, RoutesDue, CertificatesDue, UsesAccount, DeclaresAccount, Distinct;
    match i
    case 0 => WorkloadsCounted(c.deployments, ns, name);
    case 1 => WorkloadsCounted(c.daemonSets, ns, name);
    case 2 => WorkloadsCounted(c.statefulSets, ns, name);
    case 3 => ServicesDue(c, ns, name);
    case 4 => CronJobsCounted(c.cronJobs, ns, name);
    case 5 => PlainsCounted(c.configMaps, ns, name);
    case 6 => PlainsCounted(c.secrets, ns, name);
    case 7 => PlainsCounted(c.sealedSecrets, ns, name);
    case 8 => PlainsCounted(c.claims, ns, name);
    case 9 => ScopelessesCounted(c.clusterRoles, ns, name);
    case 10 => ScopelessesCounted(c.clusterRoleBindings, ns, name);
    case 11 => ScopelessesCounted(c.crds, ns, name);
    case 12 => ScopelessesCounted(c.csiDrivers, ns, name);
    case 13 => ScalersCounted(c.deployments, ns, name);
  }

  lemma LastGroups(c: Config, order: seq<(string, string)>)
    ensures var g := ObjectGroups(c, order);
            && g[14] == Group(if Gateway(c) then "HTTPRoute" else "Ingress", RoutePairs(Slots(c)))
            && g[15] == Group("Certificate", CertificatePairs(Slots(c)))
            && g[16] == Group("ServiceAccount", AccountPairs(c.accounts, order))
            && g[17] == Group("Namespace", NamespacePairs(Distinct(c.namespaces)))
  {
    hide WorkloadPairs, ServicePairs, AllServicePairs, CronJobPairs, PlainPairs, ScopelessPairs, ScalerPairs,
         RoutePairs, CertificatePairs, AccountPairs, NamespacePairs, Slots, Distinct;
  }

  lemma GroupDue(c: Config, order: seq<(string, string)>, i: nat, ns: string, name: string)
    requires Enumerates(order, UsedAccounts(c)) && i < 18 && |ObjectGroups(c, order)| == 18
    ensures Pairs(ObjectGroups(c, order)[i].pairs, ns, name) == Due(c, ObjectGroups(c, order)[i].kind, ns, name)
  {
    hide ObjectGroups, Pairs, RoutePairs, CertificatePairs, AccountPairs, NamespacePairs, Slots, RoutesDue,
         CertificatesDue, UsesAccount, DeclaresAccount, Distinct, Named, Serving, Scaling, CronJobs, Plains, Scopelesses,
         Enumerates, UsedAccounts;
    LastGroups(c, order);
    if i < 14 {
      BlocksDue(c, order, i, ns, name);
    } else if i < 16 {
      SlotsCounted(c, ns, name);
    } else if i == 16 {
      AccountsCounted(c, order, ns, name);
    } else {
      NamespacesCounted(c.namespaces, ns, name);
    }
  }

  lemma ReturnedEnumerates(c: Config, order: seq<(string, string)>, ms: seq<Manifest>)
    requires Returned(c, order, ms)
    ensures Enumerates(order, UsedAccounts(c))
  {
  }

  lemma OtherKindsDue(c: Config, order: seq<(string, string)>, kind: string, ns: string, name: string)
    requires |ObjectGroups(c, order)| == 18
    requires forall i :: 0 <= i < 18 ==> ObjectGroups(c, order)[i].kind != kind
    ensures Due(c, kind, ns, name) == 0
  {
    hide ObjectGroups, Named, Serving, Scaling, CronJobs, Plains, Scopelesses, RoutesDue, CertificatesDue, UsesAccount,
         DeclaresAccount;
    ObjectGroupKinds(c, order);
    LastGroups(c, order);
    var g := ObjectGroups(c, order);
    forall i | 0 <= i < 14 ensures OBJECT_KINDS[i] != kind { assert g[i].kind != kind; }
    assert g[14].kind != kind && g[15].kind != kind && g[16].kind != kind && g[17].kind != kind;
    NotAmong(kind);
  }

  lemma NotAmong(kind: string)
    requires forall i :: 0 <= i < 14 ==> OBJECT_KINDS[i] != kind
    ensures kind !in {"Deployment", "DaemonSet", "StatefulSet", "Service", "CronJob", "ConfigMap", "Secret",
                      "SealedSecret", "PersistentVolumeClaim", "ClusterRole", "ClusterRoleBinding",
                      "CustomResourceDefinition", "CSIDriver", "HorizontalPodAutoscaler"}
  {
    assert forall i :: 0 <= i < |OBJECT_KINDS| ==> OBJECT_KINDS[i] != kind;
    assert kind !in OBJECT_KINDS[0..7] && kind !in OBJECT_KINDS[7..14];
    assert OBJECT_KINDS[0..7] == ["Deployment", "DaemonSet", "StatefulSet", "Service", "CronJob", "ConfigMap", "Secret"];
    assert OBJECT_KINDS[7..14] == ["SealedSecret", "PersistentVolumeClaim", "ClusterRole", "ClusterRoleBinding",
                                   "CustomResourceDefinition", "CSIDriver", "HorizontalPodAutoscaler"];
  }

  /** What Generate returns: of every kind, namespace and name never more objects than the blocks
    * call for, and exactly as many where nothing is lost. */
  lemma ObjectsAreDue(c: Config, order: seq<(string, string)>, ms: seq<Manifest>, kind: string, ns: string, name: string)
    requires Returned(c, order, ms)
    ensures Objects(ms, kind, ns, name) <= Due(c, kind, ns, name)
    ensures Lossless(c, order) ==> Objects(ms, kind, ns, name) == Due(c, kind, ns, name)
  {
    hide ObjectGroups, Pairs, Objects, Due, Total, Generated, Lossless, UsedAccounts, Returned;
    ObjectsOfGroup(c, order, ms, 0, ns, name);
    if i :| 0 <= i < 18 && ObjectGroups(c, order)[i].kind == kind {
      ObjectsOfGroup(c, order, ms, i, ns, name);
      ReturnedEnumerates(c, order, ms);
      GroupDue(c, order, i, ns, name);
    } else {
      ObjectsOfNoGroup(c, order, ms, kind, ns, name);
      OtherKindsDue(c, order, kind, ns, name);
    }
  }

  /** With any defaults but those of gateway mode every route is an Ingress, in gateway mode an
    * HTTPRoute; and where nothing is lost each block with a host has its one route. */
  lemma RoutesAreDue(c: Config, order: seq<(string, string)>, ms: seq<Manifest>, ns: string, name: string)
    requires Returned(c, order, ms)
    ensures forall m :: m in ms && m.kind == "HTTPRoute" ==>
              c.ingressDefaults.Some? && c.ingressDefaults.value.mode == "gateway"
    ensures forall m :: m in ms && m.kind == "Ingress" ==>
              !(c.ingressDefaults.Some? && c.ingressDefaults.value.mode == "gateway")
    ensures Lossless(c, order) ==>
              Objects(ms, "HTTPRoute", ns, name) + Objects(ms, "Ingress", ns, name) == RoutesDue(c, ns, name)
  {
    hide Objects, Total, Generated, Lossless, UsedAccounts, RoutesDue, Returned;
    forall m | m in ms && m.kind in {"HTTPRoute", "Ingress"} ensures Due(c, m.kind, m.namespace, m.name) > 0 {
      ObjectsAreDue(c, order, ms, m.kind, m.namespace, m.name);
      ObjectCounts(ms, m);
    }
    ObjectsAreDue(c, order, ms, "HTTPRoute", ns, name);
    ObjectsAreDue(c, order, ms, "Ingress", ns, name);
  }

  lemma {:induction false} ObjectCounts(ms: seq<Manifest>, m: Manifest)
    requires m in ms
    ensures Objects(ms, m.kind, m.namespace, m.name) > 0
  {
    if ms[0] != m { ObjectCounts(ms[1..], m); }
  }

  // -------------------------------------------------------------- result keys

  /** The key an object stands under in the result: workloads and cronjobs under their own name, and
    * with them all that comes of their blocks; everything else under a prefix. */
  predicate KeyFits(key: string, m: Manifest)
  {
    && (m.kind in {"Deployment", "DaemonSet", "StatefulSet", "CronJob"} ==> key == m.name)
    && (m.origin.OfWorkload? ==> key == m.origin.workload.name && m.namespace == m.origin.workload.namespace)
    && (m.origin.OfIngress? ==> key == m.origin.app || key == "ingress-" + m.origin.ingress.name)
    && (m.kind == "Namespace" ==> key == "namespace-" + m.name)
    && (m.kind == "ServiceAccount" ==> key == "sa-" + m.name + "-" + m.namespace)
    && (m.kind == "ConfigMap" ==> key == "configmap-" + m.name)
    && (m.kind == "Secret" ==> key == "secret-" + m.name)
    && (m.kind == "SealedSecret" ==> key == "sealedsecret-" + m.name)
    && (m.kind == "PersistentVolumeClaim" ==> key == "pvc-" + m.name)
    && (m.kind == "ClusterRole" ==> key == "clusterrole-" + m.name)
    && (m.kind == "ClusterRoleBinding" ==> key == "clusterrolebinding-" + m.name)
    && (m.kind == "CustomResourceDefinition" ==> key == "crd-" + m.name)
    && (m.kind == "CSIDriver" ==> key == "csidriver-" + m.name)
  }

  ghost predicate WritesFit(ws: seq<Write>)
  {
    forall w, m :: w in ws && m in w.objs ==> KeyFits(w.key, m)
  }

  lemma WritesFitConcat(a: seq<Write>, b: seq<Write>)
    requires WritesFit(a) && WritesFit(b)
    ensures WritesFit(a + b)
  {
    hide KeyFits;
  }

  lemma {:induction false} SlotsFit(slots: seq<Slot>, mode: string, key: string)
    requires forall s :: s in slots ==> key == AppName(s)
    ensures forall m :: m in SlotsManifests(slots, mode) ==> KeyFits(key, m)
  {
    if slots != [] {
      var n := |slots| - 1;
      assert slots[n] in slots;
      SlotsFit(slots[..n], mode, key);
      SlotFits(slots[n], mode);
    }
  }

  lemma SlotFits(s: Slot, mode: string)
    ensures forall m :: m in SlotManifests(s, mode) ==>
              m.kind in {"HTTPRoute", "Ingress", "Certificate"} && m.origin.OfIngress?
              && m.origin.app == AppName(s) && m.origin.ingress.name == s.name
  {
    hide AllHosts, CertificateSecretName;
  }

  lemma OwnFit(kind: string, w: Workload)
    requires kind in {"Deployment", "DaemonSet", "StatefulSet"}
    ensures forall m :: m in WorkloadManifest(kind, w) + ServiceManifest(w) + ScalerManifest(w) ==> KeyFits(w.name, m)
  {
  }

  lemma BlocksFit(w: Workload, mode: string)
    ensures forall m :: m in DeploymentManifests(w, mode) ==> KeyFits(w.name, m)
    ensures forall m :: m in DaemonSetManifests(w) ==> KeyFits(w.name, m)
    ensures forall m :: m in StatefulSetManifests(w, mode) ==> KeyFits(w.name, m)
  {
    hide KeyFits, WorkloadManifest, ServiceManifest, ScalerManifest, SlotsManifests, NestedSlots;
    OwnFit("Deployment", w);
    OwnFit("DaemonSet", w);
    OwnFit("StatefulSet", w);
    NestedFit("deployment", w, mode);
    NestedFit("statefulset", w, mode);
  }

  lemma WorkloadsFit(c: Config)
    ensures WritesFit(DeploymentWrites(c.deployments, ModeOf(c.ingressDefaults)))
    ensures WritesFit(DaemonSetWrites(c.daemonSets))
    ensures WritesFit(StatefulSetWrites(c.statefulSets, ModeOf(c.ingressDefaults)))
  {
    hide WritesFit;
    var mode := ModeOf(c.ingressDefaults);
    DeploymentsFit(c.deployments, mode);
    DaemonSetsFit(c.daemonSets);
    StatefulSetsFit(c.statefulSets, mode);
  }

  lemma DeploymentsFit(ws: seq<Workload>, mode: string)
    ensures WritesFit(DeploymentWrites(ws, mode))
  {
    hide KeyFits, DeploymentManifests;
    forall w | w in ws ensures forall m :: m in DeploymentManifests(w, mode) ==> KeyFits(w.name, m) {
      BlocksFit(w, mode);
    }
  }

  lemma DaemonSetsFit(ws: seq<Workload>)
    ensures WritesFit(DaemonSetWrites(ws))
  {
    hide KeyFits, DaemonSetManifests;
    forall w | w in ws ensures forall m :: m in DaemonSetManifests(w) ==> KeyFits(w.name, m) {
      BlocksFit(w, "");
    }
  }

  lemma StatefulSetsFit(ws: seq<Workload>, mode: string)
    ensures WritesFit(StatefulSetWrites(ws, mode))
  {
    hide KeyFits, StatefulSetManifests;
    forall w | w in ws ensures forall m :: m in StatefulSetManifests(w, mode) ==> KeyFits(w.name, m) {
      BlocksFit(w, mode);
    }
  }

  lemma CronJobsFit(cs: seq<CronJob>)
    ensures WritesFit(CronJobWrites(cs))
  {
  }

  lemma NestedFit(kind: string, w: Workload, mode: string)
    ensures forall m :: m in SlotsManifests(NestedSlots(kind, w), mode) ==> KeyFits(w.name, m)
  {
    hide KeyFits, SlotsManifests, ResourceName;
    SlotsFit(NestedSlots(kind, w), mode, w.name);
  }

  lemma PrefixedFit(c: Config)
    ensures WritesFit(PrefixedWrites(c))
  {
    hide SlotManifests;
    var mode := ModeOf(c.ingressDefaults);
    forall w, m | w in IngressWrites(c.ingresses, mode) && m in w.objs ensures KeyFits(w.key, m) {
      var i :| 0 <= i < |c.ingresses| && IngressWrites(c.ingresses, mode)[i] == w;
      SlotFits(TopLevelSlots([c.ingresses[i]])[0], mode);
    }
    PlainsFit(c);
    assert WritesFit(IngressWrites(c.ingresses, mode));
    hide WritesFit, PlainWrites, IngressWrites;
    WritesFitConcat(PlainWrites("configmap-", "ConfigMap", c.configMaps), IngressWrites(c.ingresses, mode));
    WritesFitConcat(PlainWrites("configmap-", "ConfigMap", c.configMaps) + IngressWrites(c.ingresses, mode),
                    PlainWrites("secret-", "Secret", c.secrets));
    WritesFitConcat(PlainWrites("configmap-", "ConfigMap", c.configMaps) + IngressWrites(c.ingresses, mode)
                    + PlainWrites("secret-", "Secret", c.secrets),
                    PlainWrites("sealedsecret-", "SealedSecret", c.sealedSecrets));
    WritesFitConcat(PlainWrites("configmap-", "ConfigMap", c.configMaps) + IngressWrites(c.ingresses, mode)
                    + PlainWrites("secret-", "Secret", c.secrets)
                    + PlainWrites("sealedsecret-", "SealedSecret", c.sealedSecrets),
                    PlainWrites("pvc-", "PersistentVolumeClaim", c.claims));
  }

  lemma PlainsFit(c: Config)
    ensures WritesFit(PlainWrites("configmap-", "ConfigMap", c.configMaps))
    ensures WritesFit(PlainWrites("secret-", "Secret", c.secrets))
    ensures WritesFit(PlainWrites("sealedsecret-", "SealedSecret", c.sealedSecrets))
    ensures WritesFit(PlainWrites("pvc-", "PersistentVolumeClaim", c.claims))
  {
  }

  lemma ClusterFit(c: Config)
    ensures WritesFit(ClusterWrites(c))
  {
  }

  lemma NamespacesFit(nss: seq<string>)
    ensures WritesFit(NamespaceWrites(nss))
  {
  }

  lemma {:induction false} AccountsFit(accounts: seq<Account>, order: seq<(string, string)>)
    ensures WritesFit(AccountWrites(accounts, order))
  {
    hide Resolve;
    if order != [] {
      var n := |order| - 1;
      AccountsFit(accounts, order[..n]);
      ResolveIs(accounts, order[n].0, order[n].1);
      var sa := Resolve(accounts, order[n].0, order[n].1);
      if sa.Some? {
        assert KeyFits(AccountKey(order[n].0, order[n].1), AccountWrite(sa.value, order[n].0, order[n].1).objs[0]);
      }
    }
  }

  lemma AllFit(c: Config, order: seq<(string, string)>)
    ensures WritesFit(AllWrites(c, order))
  {
    NamespacesFit(Distinct(c.namespaces));
    AccountsFit(c.accounts, order);
    WorkloadsFit(c);
    CronJobsFit(c.cronJobs);
    PrefixedFit(c);
    ClusterFit(c);
    hide WritesFit, NamespaceWrites, AccountWrites, PrefixedWrites, ClusterWrites, DeploymentWrites, DaemonSetWrites,
         StatefulSetWrites, CronJobWrites, Distinct;
    var mode := ModeOf(c.ingressDefaults);
    var d, e, s, j := DeploymentWrites(c.deployments, mode), DaemonSetWrites(c.daemonSets),
                      StatefulSetWrites(c.statefulSets, mode), CronJobWrites(c.cronJobs);
    WritesFitConcat(d, e);
    WritesFitConcat(d + e, s);
    WritesFitConcat(d + e + s, j);
    var n, a := NamespaceWrites(Distinct(c.namespaces)), AccountWrites(c.accounts, order);
    WritesFitConcat(n, a);
    WritesFitConcat(n + a, NamedWrites(c));
    WritesFitConcat(n + a + NamedWrites(c), PrefixedWrites(c));
    WritesFitConcat(n + a + NamedWrites(c) + PrefixedWrites(c), ClusterWrites(c));
  }

  lemma {:induction false} PutFits(ws: seq<Write>)
    requires WritesFit(ws)
    ensures forall k, m :: k in PutAll(map[], ws) && m in PutAll(map[], ws)[k] ==> KeyFits(k, m)
  {
    hide KeyFits;
    if ws != [] {
      PutFits(ws[..|ws| - 1]);
      assert ws[|ws| - 1] in ws;
    }
  }

  /** Every object of the result stands under the key of its block. */
  lemma ResultKeys(c: Config, order: seq<(string, string)>)
    ensures forall k, m :: k in Generated(c, order) && m in Generated(c, order)[k] ==> KeyFits(k, m)
  {
    hide WritesFit, KeyFits, AllWrites;
    AllFit(c, order);
    PutFits(AllWrites(c, order));
  }
}
