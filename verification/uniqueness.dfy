/** What the loader accepts, the generator turns into objects no two of which share
  * kind, namespace and name. */
module Uniqueness {
  import opened Seqs
  import opened Blocks
  import opened Duplicates
  import opened IngressChecks
  import opened Generator
  import opened Assembly

  function Keys(ms: seq<Manifest>): (r: seq<Key>)
    ensures |r| == |ms|
  {
    seq(|ms|, i requires 0 <= i < |ms| => KeyOf(ms[i]))
  }

  function Emitted(ws: seq<Write>): seq<Manifest>
  {
    if ws == [] then [] else ws[0].objs + Emitted(ws[1..])
  }

  /** Every object generated for any block, before the result map merges keys. */
  function Expected(c: Config, order: seq<(string, string)>): seq<Manifest>
  {
    Emitted(AllWrites(c, order))
  }

  lemma {:induction false} EmittedConcat(a: seq<Write>, b: seq<Write>)
    ensures Emitted(a + b) == Emitted(a) + Emitted(b)
  {
    if a == [] {
      assert a + b == b;
    } else {
      assert (a + b)[1..] == a[1..] + b;
      EmittedConcat(a[1..], b);
    }
  }

  lemma KeysConcat(a: seq<Manifest>, b: seq<Manifest>)
    ensures Keys(a + b) == Keys(a) + Keys(b)
  {
  }

  function KeyBag(ws: seq<Write>): multiset<Key>
  {
    multiset(Keys(Emitted(ws)))
  }

  lemma KeyBagConcat(a: seq<Write>, b: seq<Write>)
    ensures KeyBag(a + b) == KeyBag(a) + KeyBag(b)
  {
    EmittedConcat(a, b);
    KeysConcat(Emitted(a), Emitted(b));
  }

  function Bag(kind: string, pairs: seq<(string, string)>): multiset<Key>
  {
    multiset(Label(kind, pairs))
  }

  lemma BagConcat(kind: string, a: seq<(string, string)>, b: seq<(string, string)>)
    ensures Bag(kind, a + b) == Bag(kind, a) + Bag(kind, b)
  {
    LabelConcat(kind, a, b);
  }

  // -------------------------------------------------- routes and certificates

  predicate Routes(s: Slot)
  {
    AllHosts(s.ingress) != []
  }

  function RouteName(s: Slot): string
  {
    if s.name != "" then s.name else AppName(s)
  }

  function RoutePairs(slots: seq<Slot>): seq<(string, string)>
  {
    if slots == [] then []
    else
      var n := |slots| - 1;
      RoutePairs(slots[..n]) + if Routes(slots[n]) then [(slots[n].namespace, RouteName(slots[n]))] else []
  }

  lemma {:induction false} RoutePairsConcat(a: seq<Slot>, b: seq<Slot>)
    ensures RoutePairs(a + b) == RoutePairs(a) + RoutePairs(b)
  {
    hide Routes, RouteName;
    if b == [] {
      assert a + b == a;
    } else {
      var n := |b| - 1;
      assert (a + b)[..|a + b| - 1] == a + b[..n];
      RoutePairsConcat(a, b[..n]);
    }
  }

  lemma {:induction false} CertificatePairsConcat(a: seq<Slot>, b: seq<Slot>)
    ensures CertificatePairs(a + b) == CertificatePairs(a) + CertificatePairs(b)
  {
    hide CertificateSecretName;
    if b == [] {
      assert a + b == a;
    } else {
      var n := |b| - 1;
      assert (a + b)[..|a + b| - 1] == a + b[..n];
      CertificatePairsConcat(a, b[..n]);
    }
  }

  /** The objects of an ingress block: its route under the route's name, its
    * certificate under the secret's name. */
  lemma SlotKeys(s: Slot, mode: string)
    ensures Keys(SlotManifests(s, mode)) ==
            (if Routes(s) then [Key(RouteKind(mode), s.namespace, RouteName(s))] else [])
            + (if CertificateSecretName(s.ingress) == "" then []
               else [Key("Certificate", s.namespace, CertificateSecretName(s.ingress))])
  {
    hide RouteKind, DistinctHostList;
    var ing := s.ingress.(name := s.name);
    assert AllHosts(ing) == AllHosts(s.ingress) && CertificateSecretName(ing) == CertificateSecretName(s.ingress);
  }

  lemma SlotKeysBag(s: Slot, mode: string)
    ensures multiset(Keys(SlotManifests(s, mode))) == SlotBag([s], mode)
  {
    hide Routes, RouteName, CertificateSecretName, SlotManifests, RouteKind, Keys, Label;
    SlotKeys(s, mode);
    var secret := CertificateSecretName(s.ingress);
    assert RoutePairs([s]) == if Routes(s) then [(s.namespace, RouteName(s))] else [];
    assert CertificatePairs([s]) == if secret == "" then [] else [(s.namespace, secret)];
    LabelOne(RouteKind(mode), s.namespace, RouteName(s));
    LabelOne("Certificate", s.namespace, CertificateSecretName(s.ingress));
  }

  lemma {:induction false} SlotsKeys(slots: seq<Slot>, mode: string)
    ensures multiset(Keys(SlotsManifests(slots, mode))) == SlotBag(slots, mode)
  {
    hide SlotManifests, Keys, SlotBag;
    if slots == [] {
      EmptyBags(mode);
    } else {
      var n := |slots| - 1;
      assert slots == slots[..n] + [slots[n]];
      SlotsKeys(slots[..n], mode);
      SlotKeysBag(slots[n], mode);
      KeysConcat(SlotsManifests(slots[..n], mode), SlotManifests(slots[n], mode));
      SlotBagConcat(slots[..n], [slots[n]], mode);
    }
  }

  lemma LabelOne(kind: string, namespace: string, name: string)
    ensures Label(kind, [(namespace, name)]) == [Key(kind, namespace, name)]
    ensures Label(kind, []) == []
  {
  }

  // ------------------------------------------------------------ each loop

  function ScalerPairs(ws: seq<Workload>): seq<(string, string)>
  {
    if ws == [] then [] else (if ws[0].autoscale then [(ws[0].namespace, ws[0].name)] else []) + ScalerPairs(ws[1..])
  }

  lemma KeysOfService(w: Workload)
    ensures Keys(ServiceManifest(w)) == Label("Service", ServicePairs([w]))
    ensures Keys(ScalerManifest(w)) == Label("HorizontalPodAutoscaler", ScalerPairs([w]))
    ensures forall kind :: Keys(WorkloadManifest(kind, w)) == Label(kind, WorkloadPairs([w]))
  {
    hide ServiceName;
    assert [w][1..] == [];
  }

  lemma ScalersSplit(ws: seq<Workload>)
    requires ws != []
    ensures ScalerPairs(ws) == ScalerPairs([ws[0]]) + ScalerPairs(ws[1..])
  {
    assert [ws[0]][1..] == [];
  }

  lemma PairsSplit(ws: seq<Workload>)
    requires ws != []
    ensures WorkloadPairs(ws) == WorkloadPairs([ws[0]]) + WorkloadPairs(ws[1..])
    ensures ServicePairs(ws) == ServicePairs([ws[0]]) + ServicePairs(ws[1..])
    ensures ScalerPairs(ws) == ScalerPairs([ws[0]]) + ScalerPairs(ws[1..])
  {
    hide WorkloadPairs, ServicePairs, ScalerPairs;
    WorkloadsSplit(ws);
    ServicesSplit(ws);
    ScalersSplit(ws);
  }

  function SlotBag(slots: seq<Slot>, mode: string): multiset<Key>
  {
    Bag(RouteKind(mode), RoutePairs(slots)) + Bag("Certificate", CertificatePairs(slots))
  }

  lemma SlotBagConcat(a: seq<Slot>, b: seq<Slot>, mode: string)
    ensures SlotBag(a + b, mode) == SlotBag(a, mode) + SlotBag(b, mode)
  {
    hide Bag, RoutePairs, CertificatePairs, RouteKind;
    RoutePairsConcat(a, b);
    CertificatePairsConcat(a, b);
    BagConcat(RouteKind(mode), RoutePairs(a), RoutePairs(b));
    BagConcat("Certificate", CertificatePairs(a), CertificatePairs(b));
  }

  lemma KeysConcat4(a: seq<Manifest>, b: seq<Manifest>, c: seq<Manifest>, d: seq<Manifest>)
    ensures multiset(Keys(a + b + c + d)) ==
            multiset(Keys(a)) + multiset(Keys(b)) + multiset(Keys(c)) + multiset(Keys(d))
  {
    hide Keys;
    KeysConcat(a + b + c, d);
    KeysConcat(a + b, c);
    KeysConcat(a, b);
  }

  lemma OneDeploymentKeys(w: Workload, mode: string)
    ensures multiset(Keys(DeploymentManifests(w, mode))) ==
            Bag("Deployment", WorkloadPairs([w])) + Bag("Service", ServicePairs([w]))
            + SlotBag(NestedSlots("deployment", w), mode) + Bag("HorizontalPodAutoscaler", ScalerPairs([w]))
  {
    hide ServiceManifest, ScalerManifest, WorkloadManifest, SlotsManifests, NestedSlots, SlotBag, Label, Keys,
         WorkloadPairs, ServicePairs, ScalerPairs;
    var slots := NestedSlots("deployment", w);
    KeysConcat4(WorkloadManifest("Deployment", w), ServiceManifest(w), SlotsManifests(slots, mode), ScalerManifest(w));
    KeysOfService(w);
    SlotsKeys(slots, mode);
  }

  lemma {:induction false} FirstWrite(ws: seq<Write>)
    requires ws != []
    ensures KeyBag(ws) == multiset(Keys(ws[0].objs)) + KeyBag(ws[1..])
  {
    hide Keys;
    KeysConcat(ws[0].objs, Emitted(ws[1..]));
  }

  lemma {:induction false} DeploymentKeys(ws: seq<Workload>, mode: string)
    ensures KeyBag(DeploymentWrites(ws, mode)) ==
            Bag("Deployment", WorkloadPairs(ws)) + Bag("Service", ServicePairs(ws))
            + SlotBag(WorkloadSlots("deployment", ws), mode)
            + Bag("HorizontalPodAutoscaler", ScalerPairs(ws))
  {
    hide DeploymentManifests, NestedSlots, SlotBag, Bag, KeyBag, Keys, WorkloadPairs, ServicePairs, ScalerPairs;
    if ws == [] {
      NoWorkloads();
      EmptyBags(mode);
    } else {
      var w, rest := ws[0], ws[1..];
      var writes := DeploymentWrites(ws, mode);
      assert writes[1..] == DeploymentWrites(rest, mode);
      FirstWrite(writes);
      DeploymentKeys(rest, mode);
      OneDeploymentKeys(w, mode);
      PairsSplit(ws);
      SlotBagConcat(NestedSlots("deployment", w), WorkloadSlots("deployment", rest), mode);
      BagConcat("Deployment", WorkloadPairs([w]), WorkloadPairs(rest));
      BagConcat("Service", ServicePairs([w]), ServicePairs(rest));
      BagConcat("HorizontalPodAutoscaler", ScalerPairs([w]), ScalerPairs(rest));
    }
  }

  lemma NoWorkloads()
    ensures WorkloadPairs([]) == ServicePairs([]) == ScalerPairs([]) == [] && KeyBag([]) == multiset{}
  {
  }

  lemma EmptyBags(mode: string)
    ensures forall kind :: Bag(kind, []) == multiset{}
    ensures SlotBag([], mode) == multiset{}
    ensures Keys([]) == []
  {
    assert forall kind :: Label(kind, []) == [];
  }

  lemma OneStatefulSetKeys(w: Workload, mode: string)
    ensures multiset(Keys(StatefulSetManifests(w, mode))) ==
            Bag("StatefulSet", WorkloadPairs([w])) + Bag("Service", ServicePairs([w]))
            + SlotBag(NestedSlots("statefulset", w), mode)
  {
    hide ServiceManifest, WorkloadManifest, SlotsManifests, NestedSlots, SlotBag, Label, Keys, WorkloadPairs, ServicePairs;
    var slots := NestedSlots("statefulset", w);
    KeysConcat(WorkloadManifest("StatefulSet", w) + ServiceManifest(w), SlotsManifests(slots, mode));
    KeysConcat(WorkloadManifest("StatefulSet", w), ServiceManifest(w));
    KeysOfService(w);
    SlotsKeys(slots, mode);
  }

  lemma {:induction false} StatefulSetKeys(ws: seq<Workload>, mode: string)
    ensures KeyBag(StatefulSetWrites(ws, mode)) ==
            Bag("StatefulSet", WorkloadPairs(ws)) + Bag("Service", ServicePairs(ws))
            + SlotBag(WorkloadSlots("statefulset", ws), mode)
  {
    hide StatefulSetManifests, NestedSlots, SlotBag, Bag, KeyBag, Keys, WorkloadPairs, ServicePairs, ScalerPairs;
    if ws == [] {
      NoWorkloads();
      EmptyBags(mode);
    } else {
      var w, rest := ws[0], ws[1..];
      var writes := StatefulSetWrites(ws, mode);
      assert writes[1..] == StatefulSetWrites(rest, mode);
      FirstWrite(writes);
      StatefulSetKeys(rest, mode);
      OneStatefulSetKeys(w, mode);
      PairsSplit(ws);
      SlotBagConcat(NestedSlots("statefulset", w), WorkloadSlots("statefulset", rest), mode);
      BagConcat("StatefulSet", WorkloadPairs([w]), WorkloadPairs(rest));
      BagConcat("Service", ServicePairs([w]), ServicePairs(rest));
    }
  }

  lemma {:induction false} DaemonSetKeys(ws: seq<Workload>)
    ensures KeyBag(DaemonSetWrites(ws)) == Bag("DaemonSet", WorkloadPairs(ws)) + Bag("Service", ServicePairs(ws))
  {
    hide ServiceManifest, ScalerManifest, WorkloadManifest, Label, Keys;
    if ws == [] {
      EmptyBags("");
    } else {
      var w, rest := ws[0], ws[1..];
      var writes := DaemonSetWrites(ws);
      assert writes[1..] == DaemonSetWrites(rest);
      DaemonSetKeys(rest);
      PairsSplit(ws);
      KeysOfService(w);
      BagConcat("DaemonSet", WorkloadPairs([w]), WorkloadPairs(rest));
      BagConcat("Service", ServicePairs([w]), ServicePairs(rest));
      KeysConcat(WorkloadManifest("DaemonSet", w), ServiceManifest(w));
      KeysConcat(WorkloadManifest("DaemonSet", w) + ServiceManifest(w), Emitted(writes[1..]));
    }
  }

  lemma {:induction false} IngressKeys(ings: seq<Ingress>, mode: string)
    ensures KeyBag(IngressWrites(ings, mode)) == SlotBag(TopLevelSlots(ings), mode)
  {
    hide SlotManifests, RouteKind, Label, Keys, AppName, Routes, CertificateSecretName, RouteName, Bag;
    if ings == [] {
      EmptyBags(mode);
    } else {
      var ing, rest := ings[0], ings[1..];
      var writes := IngressWrites(ings, mode);
      assert writes[1..] == IngressWrites(rest, mode);
      IngressKeys(rest, mode);
      var one := TopLevelSlots([ing]);
      assert TopLevelSlots(ings) == one + TopLevelSlots(rest);
      SlotBagConcat(one, TopLevelSlots(rest), mode);
      SlotsKeys(one, mode);
      assert one[..0] == [] && one == [one[0]];
      assert SlotsManifests(one, mode) == SlotsManifests([], mode) + SlotManifests(one[0], mode) == SlotManifests(one[0], mode);
      KeysConcat(SlotManifests(one[0], mode), Emitted(writes[1..]));
    }
  }

  lemma {:induction false} CronJobKeys(cs: seq<CronJob>)
    ensures Keys(Emitted(CronJobWrites(cs))) == Label("CronJob", CronJobPairs(cs))
  {
    if cs != [] {
      var writes := CronJobWrites(cs);
      assert writes[1..] == CronJobWrites(cs[1..]);
      CronJobKeys(cs[1..]);
      KeysConcat(writes[0].objs, Emitted(writes[1..]));
      LabelConcat("CronJob", [(cs[0].namespace, cs[0].name)], CronJobPairs(cs[1..]));
      assert Keys(writes[0].objs) == Label("CronJob", [(cs[0].namespace, cs[0].name)]);
    }
  }

  lemma {:induction false} PlainKeys(prefix: string, kind: string, ps: seq<Plain>)
    ensures Keys(Emitted(PlainWrites(prefix, kind, ps))) == Label(kind, PlainPairs(ps))
  {
    if ps != [] {
      var writes := PlainWrites(prefix, kind, ps);
      assert writes[1..] == PlainWrites(prefix, kind, ps[1..]);
      PlainKeys(prefix, kind, ps[1..]);
      KeysConcat(writes[0].objs, Emitted(writes[1..]));
      LabelConcat(kind, [(ps[0].namespace, ps[0].name)], PlainPairs(ps[1..]));
      assert Keys(writes[0].objs) == Label(kind, [(ps[0].namespace, ps[0].name)]);
    }
  }

  lemma {:induction false} ScopelessKeys(prefix: string, kind: string, ss: seq<Scopeless>)
    ensures Keys(Emitted(ScopelessWrites(prefix, kind, ss))) == Label(kind, ScopelessPairs(ss))
  {
    if ss != [] {
      var writes := ScopelessWrites(prefix, kind, ss);
      assert writes[1..] == ScopelessWrites(prefix, kind, ss[1..]);
      ScopelessKeys(prefix, kind, ss[1..]);
      KeysConcat(writes[0].objs, Emitted(writes[1..]));
      LabelConcat(kind, [("", ss[0].name)], ScopelessPairs(ss[1..]));
      assert Keys(writes[0].objs) == Label(kind, [("", ss[0].name)]);
    }
  }

  function NamespacePairs(nss: seq<string>): (r: seq<(string, string)>)
    ensures |r| == |nss|
  {
    seq(|nss|, i requires 0 <= i < |nss| => ("", nss[i]))
  }

  lemma {:induction false} NamespaceKeys(nss: seq<string>)
    ensures Keys(Emitted(NamespaceWrites(nss))) == Label("Namespace", NamespacePairs(nss))
  {
    if nss != [] {
      assert NamespaceWrites(nss)[1..] == NamespaceWrites(nss[1..]);
      NamespaceKeys(nss[1..]);
      assert NamespacePairs(nss) == [("", nss[0])] + NamespacePairs(nss[1..]);
      LabelConcat("Namespace", [("", nss[0])], NamespacePairs(nss[1..]));
    }
  }

  /** The used pairs that have a declaration, as (namespace, account). */
  function AccountPairs(accounts: seq<Account>, order: seq<(string, string)>): seq<(string, string)>
  {
    if order == [] then []
    else
      var n := |order| - 1;
      AccountPairs(accounts, order[..n])
      + if Resolve(accounts, order[n].0, order[n].1).None? then [] else [(order[n].1, order[n].0)]
  }

  lemma {:induction false} AccountKeys(accounts: seq<Account>, order: seq<(string, string)>)
    ensures Keys(Emitted(AccountWrites(accounts, order))) == Label("ServiceAccount", AccountPairs(accounts, order))
  {
    hide Resolve;
    if order != [] {
      var n := |order| - 1;
      var name, ns := order[n].0, order[n].1;
      AccountKeys(accounts, order[..n]);
      var sa := Resolve(accounts, name, ns);
      var more := if sa.None? then [] else [AccountWrite(sa.value, name, ns)];
      EmittedConcat(AccountWrites(accounts, order[..n]), more);
      KeysConcat(Emitted(AccountWrites(accounts, order[..n])), Emitted(more));
      var pair := if sa.None? then [] else [(ns, name)];
      LabelConcat("ServiceAccount", AccountPairs(accounts, order[..n]), pair);
      if sa.Some? {
        ResolveIs(accounts, name, ns);
        assert more[1..] == [];
        assert Emitted(more) == more[0].objs;
        assert Keys(Emitted(more)) == Label("ServiceAccount", pair);
      }
    }
  }

  lemma {:induction false} AccountPairsNoDup(accounts: seq<Account>, order: seq<(string, string)>)
    requires NoDup(order)
    ensures NoDup(AccountPairs(accounts, order))
    ensures forall p :: p in AccountPairs(accounts, order) ==> (p.1, p.0) in order
  {
    hide Resolve;
    if order != [] {
      var n := |order| - 1;
      assert order == order[..n] + [order[n]];
      NoDupSnoc(order[..n], order[n]);
      AccountPairsNoDup(accounts, order[..n]);
      NoDupSnoc(AccountPairs(accounts, order[..n]), (order[n].1, order[n].0));
    }
  }

  // ------------------------------------------------------- the whole config

  /** Kinds and identities of everything generated for a config, one group a kind. */
  function ObjectGroups(c: Config, order: seq<(string, string)>): seq<Group>
  {
    [Group("Deployment", WorkloadPairs(c.deployments)),
     Group("DaemonSet", WorkloadPairs(c.daemonSets)),
     Group("StatefulSet", WorkloadPairs(c.statefulSets)),
     Group("Service", AllServicePairs(c)),
     Group("CronJob", CronJobPairs(c.cronJobs)),
     Group("ConfigMap", PlainPairs(c.configMaps)),
     Group("Secret", PlainPairs(c.secrets)),
     Group("SealedSecret", PlainPairs(c.sealedSecrets)),
     Group("PersistentVolumeClaim", PlainPairs(c.claims)),
     Group("ClusterRole", ScopelessPairs(c.clusterRoles)),
     Group("ClusterRoleBinding", ScopelessPairs(c.clusterRoleBindings)),
     Group("CustomResourceDefinition", ScopelessPairs(c.crds)),
     Group("CSIDriver", ScopelessPairs(c.csiDrivers)),
     Group("HorizontalPodAutoscaler", ScalerPairs(c.deployments)),
     Group(RouteKind(ModeOf(c.ingressDefaults)), RoutePairs(Slots(c))),
     Group("Certificate", CertificatePairs(Slots(c))),
     Group("ServiceAccount", AccountPairs(c.accounts, order)),
     Group("Namespace", NamespacePairs(Distinct(c.namespaces)))]
  }

  /** The groups' identities as one bag. */
  function GroupsBag(groups: seq<Group>): multiset<Key>
  {
    multiset(AllKeys(groups))
  }

  lemma NamedKeys(c: Config)
    ensures var mode := ModeOf(c.ingressDefaults);
            KeyBag(NamedWrites(c)) ==
            Bag("Deployment", WorkloadPairs(c.deployments)) + Bag("DaemonSet", WorkloadPairs(c.daemonSets))
            + Bag("StatefulSet", WorkloadPairs(c.statefulSets)) + Bag("Service", AllServicePairs(c))
            + Bag("HorizontalPodAutoscaler", ScalerPairs(c.deployments))
            + SlotBag(WorkloadSlots("deployment", c.deployments) + WorkloadSlots("statefulset", c.statefulSets), mode)
            + Bag("CronJob", CronJobPairs(c.cronJobs))
  {
    hide Bag, KeyBag, SlotBag, DeploymentWrites, DaemonSetWrites, StatefulSetWrites, CronJobWrites,
         WorkloadPairs, ServicePairs, ScalerPairs, CronJobPairs, WorkloadSlots;
    var mode := ModeOf(c.ingressDefaults);
    var d, e, s, j := DeploymentWrites(c.deployments, mode), DaemonSetWrites(c.daemonSets),
                      StatefulSetWrites(c.statefulSets, mode), CronJobWrites(c.cronJobs);
    KeyBagConcat(d + e + s, j);
    KeyBagConcat(d + e, s);
    KeyBagConcat(d, e);
    DeploymentKeys(c.deployments, mode);
    DaemonSetKeys(c.daemonSets);
    StatefulSetKeys(c.statefulSets, mode);
    CronJobBag(c.cronJobs);
    BagConcat("Service", ServicePairs(c.deployments) + ServicePairs(c.daemonSets), ServicePairs(c.statefulSets));
    BagConcat("Service", ServicePairs(c.deployments), ServicePairs(c.daemonSets));
    SlotBagConcat(WorkloadSlots("deployment", c.deployments), WorkloadSlots("statefulset", c.statefulSets), mode);
  }

  lemma CronJobBag(cs: seq<CronJob>)
    ensures KeyBag(CronJobWrites(cs)) == Bag("CronJob", CronJobPairs(cs))
  {
    CronJobKeys(cs);
  }

  lemma PlainBag(prefix: string, kind: string, ps: seq<Plain>)
    ensures KeyBag(PlainWrites(prefix, kind, ps)) == Bag(kind, PlainPairs(ps))
  {
    PlainKeys(prefix, kind, ps);
  }

  lemma ScopelessBag(prefix: string, kind: string, ss: seq<Scopeless>)
    ensures KeyBag(ScopelessWrites(prefix, kind, ss)) == Bag(kind, ScopelessPairs(ss))
  {
    ScopelessKeys(prefix, kind, ss);
  }

  lemma PrefixedKeys(c: Config)
    ensures KeyBag(PrefixedWrites(c)) ==
            Bag("ConfigMap", PlainPairs(c.configMaps)) + Bag("Secret", PlainPairs(c.secrets))
            + Bag("SealedSecret", PlainPairs(c.sealedSecrets)) + Bag("PersistentVolumeClaim", PlainPairs(c.claims))
            + SlotBag(TopLevelSlots(c.ingresses), ModeOf(c.ingressDefaults))
  {
    hide Bag, KeyBag, SlotBag, PlainWrites, IngressWrites, PlainPairs, TopLevelSlots, ModeOf;
    var a, b := PlainWrites("configmap-", "ConfigMap", c.configMaps), IngressWrites(c.ingresses, ModeOf(c.ingressDefaults));
    var s, t := PlainWrites("secret-", "Secret", c.secrets), PlainWrites("sealedsecret-", "SealedSecret", c.sealedSecrets);
    var p := PlainWrites("pvc-", "PersistentVolumeClaim", c.claims);
    KeyBagConcat(a + b + s + t, p);
    KeyBagConcat(a + b + s, t);
    KeyBagConcat(a + b, s);
    KeyBagConcat(a, b);
    PlainBag("configmap-", "ConfigMap", c.configMaps);
    PlainBag("secret-", "Secret", c.secrets);
    PlainBag("sealedsecret-", "SealedSecret", c.sealedSecrets);
    PlainBag("pvc-", "PersistentVolumeClaim", c.claims);
    IngressKeys(c.ingresses, ModeOf(c.ingressDefaults));
  }

  lemma ClusterKeys(c: Config)
    ensures KeyBag(ClusterWrites(c)) ==
            Bag("ClusterRole", ScopelessPairs(c.clusterRoles))
            + Bag("ClusterRoleBinding", ScopelessPairs(c.clusterRoleBindings))
            + Bag("CustomResourceDefinition", ScopelessPairs(c.crds)) + Bag("CSIDriver", ScopelessPairs(c.csiDrivers))
  {
    hide Bag, KeyBag, ScopelessWrites, ScopelessPairs;
    var a, b := ScopelessWrites("clusterrole-", "ClusterRole", c.clusterRoles),
                ScopelessWrites("clusterrolebinding-", "ClusterRoleBinding", c.clusterRoleBindings);
    var s, t := ScopelessWrites("crd-", "CustomResourceDefinition", c.crds),
                ScopelessWrites("csidriver-", "CSIDriver", c.csiDrivers);
    KeyBagConcat(a + b + s, t);
    KeyBagConcat(a + b, s);
    KeyBagConcat(a, b);
    ScopelessBag("clusterrole-", "ClusterRole", c.clusterRoles);
    ScopelessBag("clusterrolebinding-", "ClusterRoleBinding", c.clusterRoleBindings);
    ScopelessBag("crd-", "CustomResourceDefinition", c.crds);
    ScopelessBag("csidriver-", "CSIDriver", c.csiDrivers);
  }

  lemma FirstKeys(c: Config, order: seq<(string, string)>)
    ensures KeyBag(NamespaceWrites(Distinct(c.namespaces)) + AccountWrites(c.accounts, order)) ==
            Bag("Namespace", NamespacePairs(Distinct(c.namespaces)))
            + Bag("ServiceAccount", AccountPairs(c.accounts, order))
  {
    KeyBagConcat(NamespaceWrites(Distinct(c.namespaces)), AccountWrites(c.accounts, order));
    NamespaceKeys(Distinct(c.namespaces));
    AccountKeys(c.accounts, order);
  }

  lemma {:induction false} GroupsBagConcat(a: seq<Group>, b: seq<Group>)
    ensures GroupsBag(a + b) == GroupsBag(a) + GroupsBag(b)
  {
    AllKeysConcat(a, b);
  }

  lemma GroupsBag4(a: Group, b: Group, c: Group, d: Group)
    ensures GroupsBag([a, b, c, d]) ==
            Bag(a.kind, a.pairs) + Bag(b.kind, b.pairs) + Bag(c.kind, c.pairs) + Bag(d.kind, d.pairs)
  {
    hide Label, AllKeys;
    AllKeysOf4(a, b, c, d);
  }

  lemma ObjectGroupsBag(c: Config, order: seq<(string, string)>)
    ensures GroupsBag(ObjectGroups(c, order)) ==
            Bag("Deployment", WorkloadPairs(c.deployments)) + Bag("DaemonSet", WorkloadPairs(c.daemonSets))
            + Bag("StatefulSet", WorkloadPairs(c.statefulSets)) + Bag("Service", AllServicePairs(c))
            + Bag("CronJob", CronJobPairs(c.cronJobs))
            + Bag("ConfigMap", PlainPairs(c.configMaps)) + Bag("Secret", PlainPairs(c.secrets))
            + Bag("SealedSecret", PlainPairs(c.sealedSecrets)) + Bag("PersistentVolumeClaim", PlainPairs(c.claims))
            + Bag("ClusterRole", ScopelessPairs(c.clusterRoles))
            + Bag("ClusterRoleBinding", ScopelessPairs(c.clusterRoleBindings))
            + Bag("CustomResourceDefinition", ScopelessPairs(c.crds)) + Bag("CSIDriver", ScopelessPairs(c.csiDrivers))
            + Bag("HorizontalPodAutoscaler", ScalerPairs(c.deployments))
            + SlotBag(Slots(c), ModeOf(c.ingressDefaults))
            + Bag("ServiceAccount", AccountPairs(c.accounts, order))
            + Bag("Namespace", NamespacePairs(Distinct(c.namespaces)))
  {
    hide Bag, GroupsBag, WorkloadPairs, ServicePairs, CronJobPairs, PlainPairs, ScopelessPairs, ScalerPairs,
         AllServicePairs, RouteKind, RoutePairs, CertificatePairs, Slots, AccountPairs, NamespacePairs, ModeOf;
    var g := ObjectGroups(c, order);
    GroupsBag4(g[0], g[1], g[2], g[3]);
    GroupsBag4(g[4], g[5], g[6], g[7]);
    GroupsBag4(g[8], g[9], g[10], g[11]);
    GroupsBag4(g[12], g[13], g[14], g[15]);
    GroupsBag2(g[16], g[17]);
    var a, b, d, e, f := g[..4], g[4..8], g[8..12], g[12..16], g[16..];
    GroupsBagConcat(a, b);
    GroupsBagConcat(a + b, d);
    GroupsBagConcat(a + b + d, e);
    GroupsBagConcat(a + b + d + e, f);
    assert g == a + b + d + e + f;
    assert a == [g[0], g[1], g[2], g[3]] && b == [g[4], g[5], g[6], g[7]] && d == [g[8], g[9], g[10], g[11]];
    assert e == [g[12], g[13], g[14], g[15]] && f == [g[16], g[17]];
  }

  lemma GroupsBag2(a: Group, b: Group)
    ensures GroupsBag([a, b]) == Bag(a.kind, a.pairs) + Bag(b.kind, b.pairs)
  {
    hide Label, AllKeys;
    AllKeysOfOne(a);
    AllKeysOfOne(b);
    AllKeysConcat([a], [b]);
    assert [a, b] == [a] + [b];
  }

  /** The identities of all generated objects are those of the groups. */
  lemma ExpectedKeys(c: Config, order: seq<(string, string)>)
    ensures multiset(Keys(Expected(c, order))) == GroupsBag(ObjectGroups(c, order))
  {
    hide Bag, KeyBag, SlotBag, GroupsBag, WorkloadPairs, ServicePairs, CronJobPairs, PlainPairs, ScopelessPairs,
         ScalerPairs, AllServicePairs, AccountPairs, NamespacePairs, ModeOf, NamespaceWrites, AccountWrites,
         NamedWrites, PrefixedWrites, ClusterWrites, ObjectGroups, WorkloadSlots, TopLevelSlots;
    var a := NamespaceWrites(Distinct(c.namespaces)) + AccountWrites(c.accounts, order);
    KeyBagConcat(a + NamedWrites(c) + PrefixedWrites(c), ClusterWrites(c));
    KeyBagConcat(a + NamedWrites(c), PrefixedWrites(c));
    KeyBagConcat(a, NamedWrites(c));
    FirstKeys(c, order);
    NamedKeys(c);
    PrefixedKeys(c);
    ClusterKeys(c);
    ObjectGroupsBag(c, order);
    SlotBagConcat(WorkloadSlots("deployment", c.deployments) + WorkloadSlots("statefulset", c.statefulSets),
                  TopLevelSlots(c.ingresses), ModeOf(c.ingressDefaults));
    KeyBagIs(c, order);
  }

  lemma KeyBagIs(c: Config, order: seq<(string, string)>)
    ensures multiset(Keys(Expected(c, order))) == KeyBag(AllWrites(c, order))
  {
  }
}
