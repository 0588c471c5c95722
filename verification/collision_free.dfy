/** The main result: the loader's string-key checks make the generator's output
  * collision-free, but for top-level ingress blocks with an empty name. */
module CollisionFree {
  import opened Seqs
  import opened Blocks
  import opened Acceptance
  import opened Duplicates
  import opened IngressChecks
  import opened Generator
  import opened Uniqueness

  // ------------------------------------------------------- routes by name

  /** The routes of blocks i and j would be one object. */
  predicate SameRoute(slots: seq<Slot>, i: nat, j: nat)
    requires i < |slots| && j < |slots|
  {
    && Routes(slots[i]) && Routes(slots[j])
    && slots[i].namespace == slots[j].namespace
    && RouteName(slots[i]) == RouteName(slots[j])
  }

  lemma {:induction false} RoutePairsMembers(slots: seq<Slot>, p: (string, string))
    ensures p in RoutePairs(slots) <==>
            exists i :: 0 <= i < |slots| && Routes(slots[i]) && (slots[i].namespace, RouteName(slots[i])) == p
  {
    hide Routes, RouteName;
    if slots != [] {
      var n := |slots| - 1;
      RoutePairsMembers(slots[..n], p);
      if i :| 0 <= i < |slots| && Routes(slots[i]) && (slots[i].namespace, RouteName(slots[i])) == p {
        if i < n { assert slots[..n][i] == slots[i]; }
      }
    }
  }

  lemma {:induction false} RoutePairsNoDup(slots: seq<Slot>)
    ensures NoDup(RoutePairs(slots)) <==> forall i, j :: 0 <= i < j < |slots| ==> !SameRoute(slots, i, j)
  {
    hide Routes, RouteName;
    if slots != [] {
      var n := |slots| - 1;
      var init := slots[..n];
      var p := (slots[n].namespace, RouteName(slots[n]));
      RoutePairsNoDup(init);
      RoutePairsMembers(init, p);
      NoDupSnoc(RoutePairs(init), p);
      assert Routes(slots[n]) ==> RoutePairs(slots) == RoutePairs(init) + [p];
      assert !Routes(slots[n]) ==> RoutePairs(slots) == RoutePairs(init);
      assert forall i, j :: 0 <= i < j < n ==> SameRoute(slots, i, j) == SameRoute(init, i, j);
      assert forall i :: 0 <= i < n ==> init[i] == slots[i];
      if NoDup(RoutePairs(init)) && p !in RoutePairs(init) {
        forall i, j | 0 <= i < j < |slots| ensures !SameRoute(slots, i, j) {
          if j == n { assert init[i] == slots[i]; }
        }
      }
      if forall i, j :: 0 <= i < j < |slots| ==> !SameRoute(slots, i, j) {
        forall i, j | 0 <= i < j < n ensures !SameRoute(init, i, j) { assert !SameRoute(slots, i, j); }
        if Routes(slots[n]) {
          forall i | 0 <= i < n && Routes(init[i]) ensures (init[i].namespace, RouteName(init[i])) != p {
            assert !SameRoute(slots, i, n);
          }
        }
      }
    }
  }

  /** A top-level block without a name, whose route goes by its backend service. */
  predicate Nameless(s: Slot)
  {
    s.place.TopLevel? && s.name == ""
  }

  /** No nameless block with hosts takes, under its service's name, the route of a
    * named block with hosts in its namespace. */
  ghost predicate NoStandIn(slots: seq<Slot>)
  {
    forall i, j | 0 <= i < |slots| && 0 <= j < |slots| ::
      (&& Nameless(slots[i]) && !Nameless(slots[j]) && Routes(slots[i]) && Routes(slots[j])
       && slots[i].namespace == slots[j].namespace) ==> slots[j].name != AppName(slots[i])
  }

  predicate NestedNamed(s: Slot)
  {
    !Nameless(s) ==> RouteName(s) == s.name
  }

  lemma {:induction false} WorkloadSlotsNamed(kind: string, ws: seq<Workload>)
    ensures forall s :: s in WorkloadSlots(kind, ws) ==> NestedNamed(s)
  {
    if ws != [] {
      WorkloadSlotsNamed(kind, ws[1..]);
      forall s | s in NestedSlots(kind, ws[0]) ensures NestedNamed(s) {
        var i :| 0 <= i < |ws[0].ingresses| && NestedSlots(kind, ws[0])[i] == s;
      }
    }
  }

  /** Every block with a name is generated under the name it was checked under. */
  lemma SlotsNamed(c: Config)
    ensures forall s :: s in Slots(c) ==> NestedNamed(s)
  {
    hide WorkloadSlots;
    WorkloadSlotsNamed("deployment", c.deployments);
    WorkloadSlotsNamed("statefulset", c.statefulSets);
    forall s | s in TopLevelSlots(c.ingresses) ensures NestedNamed(s) {
    }
  }

  /** On checked blocks, routes collide exactly through a nameless block. */
  lemma RoutesApart(slots: seq<Slot>)
    requires NoDup(NamePairs(slots))
    requires forall s :: s in slots ==> NestedNamed(s)
    ensures NoDup(RoutePairs(slots)) <==> NoStandIn(slots)
  {
    hide Routes, AppName, RoutePairs;
    RoutePairsNoDup(slots);
    var names := NamePairs(slots);
    if NoStandIn(slots) {
      forall i, j | 0 <= i < j < |slots| ensures !SameRoute(slots, i, j) {
        assert names[i] != names[j];
        assert NestedNamed(slots[i]) && NestedNamed(slots[j]);
      }
    }
    if forall i, j :: 0 <= i < j < |slots| ==> !SameRoute(slots, i, j) {
      forall i, j | 0 <= i < |slots| && 0 <= j < |slots|
                    && Nameless(slots[i]) && !Nameless(slots[j]) && Routes(slots[i]) && Routes(slots[j])
                    && slots[i].namespace == slots[j].namespace
        ensures slots[j].name != AppName(slots[i])
      {
        assert NestedNamed(slots[j]);
        assert !SameRoute(slots, if i < j then i else j, if i < j then j else i);
      }
    }
  }

  // ---------------------------------------------------------- kinds apart

  const OBJECT_KINDS := ["Deployment", "DaemonSet", "StatefulSet", "Service", "CronJob", "ConfigMap", "Secret",
                         "SealedSecret", "PersistentVolumeClaim", "ClusterRole", "ClusterRoleBinding",
                         "CustomResourceDefinition", "CSIDriver", "HorizontalPodAutoscaler"]

  lemma ObjectKindsApart()
    ensures NoDup(OBJECT_KINDS)
    ensures forall k :: k in OBJECT_KINDS ==> k !in ["Ingress", "HTTPRoute", "Certificate", "ServiceAccount", "Namespace"]
  {
  }

  lemma ObjectGroupKinds(c: Config, order: seq<(string, string)>)
    ensures var g := ObjectGroups(c, order);
            && |g| == 18
            && (forall i :: 0 <= i < 14 ==> g[i].kind == OBJECT_KINDS[i])
            && g[14].kind in ["Ingress", "HTTPRoute"]
            && g[15].kind == "Certificate" && g[16].kind == "ServiceAccount" && g[17].kind == "Namespace"
  {
    hide WorkloadPairs, ServicePairs, CronJobPairs, PlainPairs, ScopelessPairs, ScalerPairs,
         AllServicePairs, RoutePairs, CertificatePairs, Slots, AccountPairs, NamespacePairs, ModeOf;
  }

  lemma ObjectGroupsApart(c: Config, order: seq<(string, string)>)
    ensures forall i, j :: 0 <= i < j < |ObjectGroups(c, order)| ==>
              ObjectGroups(c, order)[i].kind != ObjectGroups(c, order)[j].kind
  {
    hide ObjectGroups;
    var g := ObjectGroups(c, order);
    ObjectGroupKinds(c, order);
    ObjectKindsApart();
    forall i, j | 0 <= i < j < |g| ensures g[i].kind != g[j].kind {
      if i < 14 { assert g[i].kind in OBJECT_KINDS; }
    }
  }

  lemma {:induction false} ScalersApart(ws: seq<Workload>)
    requires NoDup(WorkloadPairs(ws))
    ensures NoDup(ScalerPairs(ws))
    ensures forall p :: p in ScalerPairs(ws) ==> p in WorkloadPairs(ws)
  {
    if ws != [] {
      var p := (ws[0].namespace, ws[0].name);
      NoDupConcat([p], WorkloadPairs(ws[1..]));
      ScalersApart(ws[1..]);
      NoDupConcat([p], ScalerPairs(ws[1..]));
    }
  }

  lemma NamespacesApart(nss: seq<string>)
    ensures NoDup(NamespacePairs(Distinct(nss)))
  {
    DistinctIs(nss);
    var d, pairs := Distinct(nss), NamespacePairs(Distinct(nss));
    forall i, j | 0 <= i < j < |pairs| ensures pairs[i] != pairs[j] { assert d[i] != d[j]; }
  }

  /** The same lists under the object kinds. */
  lemma ObjectListsApart(c: Config, order: seq<(string, string)>)
    requires Accepted(c) && NoDup(order)
    ensures forall i :: 0 <= i < 18 && i != 14 ==> NoDup(ObjectGroups(c, order)[i].pairs)
    ensures NoDup(ObjectGroups(c, order)[14].pairs) <==> NoStandIn(Slots(c))
  {
    hide WorkloadPairs, ServicePairs, CronJobPairs, PlainPairs, IngressPairs, ScopelessPairs, ScalerPairs,
         AllServicePairs, RoutePairs, CertificatePairs, Slots, AccountPairs, NamespacePairs, ModeOf, NoConflict;
    var g := ClaimGroups(c);
    ClaimsApart(c);
    assert NoDup(g[0].pairs) && NoDup(g[1].pairs) && NoDup(g[2].pairs) && NoDup(g[3].pairs);
    assert NoDup(g[4].pairs) && NoDup(g[5].pairs) && NoDup(g[6].pairs) && NoDup(g[7].pairs) && NoDup(g[8].pairs);
    assert NoDup(g[10].pairs) && NoDup(g[11].pairs) && NoDup(g[12].pairs) && NoDup(g[13].pairs);
    ScalersApart(c.deployments);
    NamespacesApart(c.namespaces);
    AccountPairsNoDup(c.accounts, order);
    NoConflictMeans(Slots(c));
    SlotsNamed(c);
    RoutesApart(Slots(c));
  }

  /** No two of the objects generated for an accepted config share kind, namespace
    * and name, for any order of the service accounts; exactly when no nameless
    * top-level ingress stands in under its service's name for another block's route. */
  lemma ObjectsCollisionFree(c: Config, order: seq<(string, string)>)
    requires Accepted(c) && NoDup(order)
    ensures NoDup(Keys(Expected(c, order))) <==> NoStandIn(Slots(c))
  {
    hide ObjectGroups, Expected, Keys, NoStandIn;
    var g := ObjectGroups(c, order);
    ObjectGroupKinds(c, order);
    ObjectGroupsApart(c, order);
    ObjectListsApart(c, order);
    AllKeysNoDup(g);
    ExpectedKeys(c, order);
    NoDupPermuted(Keys(Expected(c, order)), AllKeys(g));
    assert NoStandIn(Slots(c)) ==> forall i :: 0 <= i < 18 ==> NoDup(g[i].pairs);
  }

  /** The loader accepts a nameless block beside the named one it collides with. */
  lemma NamelessStandsIn(named: Ingress, nameless: Ingress)
    requires named.name != "" && named.host != "" && !named.tls
    requires nameless == named.(name := "", serviceName := named.name)
    ensures var c := EMPTY.(ingresses := [named, nameless]);
            Accepted(c) && !NoStandIn(Slots(c))
  {
    hide NoConflict, DistinctHostList, ClaimGroups, AllKeys;
    var c := EMPTY.(ingresses := [named, nameless]);
    var slots := Slots(c);
    assert slots == TopLevelSlots([named, nameless]);
    var first, second := slots[0], slots[1];
    assert slots == [] + [first] + [second];
    NoSlots();
    NoConflictSnoc([], first);
    NoConflictSnoc([first], second);
    assert |NameKey(first)| != |NameKey(second)|;
    assert [] + [first] == [first] && NameKeys([first]) == [NameKey(first)];
    assert CertificateSecretName(first.ingress) == "" && CertificateSecretName(second.ingress) == "";
    AllHostsIs(named, []);
    AllHostsIs(nameless, []);
    assert named.host in AllHosts(named) && nameless.host in AllHosts(nameless);
    assert Routes(slots[0]) && Routes(slots[1]);
    assert Nameless(slots[1]) && !Nameless(slots[0]) && AppName(slots[1]) == slots[0].name;
    NamelessClaims(c, named, nameless);
  }

  lemma NoSlots()
    ensures NoConflict([])
  {
  }

  lemma NamelessGroups(c: Config, a: Ingress, b: Ingress)
    requires c == EMPTY.(ingresses := [a, b])
    ensures |ClaimGroups(c)| == 14
    ensures ClaimGroups(c)[9].pairs == [(a.namespace, a.name), (b.namespace, b.name)]
    ensures forall i :: 0 <= i < 14 && i != 9 ==> ClaimGroups(c)[i].pairs == []
  {
    assert [a, b][1..] == [b] && [b][1..] == [];
    assert IngressPairs([b]) == [(b.namespace, b.name)] + IngressPairs([]);
  }

  lemma NamelessClaims(c: Config, a: Ingress, b: Ingress)
    requires c == EMPTY.(ingresses := [a, b]) && a.name != b.name
    ensures NoDup(AllKeys(ClaimGroups(c)))
  {
    hide AllKeys, NoDup, ClaimGroups;
    NamelessGroups(c, a, b);
    ClaimKindsDiffer(c);
    AllKeysNoDup(ClaimGroups(c));
    TwoPairs((a.namespace, a.name), (b.namespace, b.name));
  }

  lemma TwoPairs(p: (string, string), q: (string, string))
    requires p != q
    ensures NoDup([p, q])
    ensures forall s: seq<(string, string)> :: s == [] ==> NoDup(s)
  {
  }
}
