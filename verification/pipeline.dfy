/** From a loaded project to the objects the controller applies. */
module Pipeline {
  import opened Options
  import opened Seqs
  import opened StableSort
  import opened ResourceIds
  import opened Blocks
  import opened Acceptance
  import opened IngressChecks
  import opened Generator
  import opened Assembly
  import opened CollisionFree
  import opened Conservation
  import opened GenerateTheorems
  import opened RangeOrder
  import opened ReleaseController
  import opened ReleaseSafety
  import opened ReleaseRecovery
  import opened Duplicates
  import opened Uniqueness
  import opened ProjectLoad
  import opened RootProjects
  import opened Render

  function Manifests(docs: seq<Doc>): (r: seq<Manifest>)
    ensures |r| == |docs|
  {
    seq(|docs|, i requires 0 <= i < |docs| => docs[i].manifest)
  }

  /** The documents are what the result map holds, each once. */
  lemma {:induction false} CollectedIsTotal(m: ResultMap, keys: seq<string>)
    requires Enumerates(keys, m.Keys)
    ensures multiset(Manifests(Collected(m, keys))) == Total(m)
    decreases |keys|
  {
    hide DocOf, Total, NoDup, DocsOf;
    if keys == [] {
      assert m == map[];
      NothingInTotal();
    } else {
      var n := |keys| - 1;
      var k, init := keys[n], keys[..n];
      assert keys == init + [k];
      NoDupSnoc(init, k);
      CollectedWithout(m, k, init);
      assert (m - {k}).Keys == m.Keys - {k};
      CollectedIsTotal(m - {k}, init);
      TotalPick(m, k);
      ManifestsOfDocs(k, m[k]);
      ManifestsConcat(Collected(m, init), DocsOf(k, m[k]));
    }
  }

  lemma ManifestsConcat(a: seq<Doc>, b: seq<Doc>)
    ensures Manifests(a + b) == Manifests(a) + Manifests(b)
  {
  }

  lemma ManifestsOfDocs(key: string, ms: seq<Manifest>)
    ensures Manifests(DocsOf(key, ms)) == ms
  {
  }

  lemma {:induction false} CollectedWithout(m: ResultMap, k: string, keys: seq<string>)
    requires k !in keys && forall x :: x in keys ==> x in m
    ensures Collected(m - {k}, keys) == Collected(m, keys)
  {
    if keys != [] {
      CollectedWithout(m, k, keys[..|keys| - 1]);
    }
  }

  /** No two documents share kind, namespace and name. */
  ghost predicate Apart(docs: seq<Doc>)
  {
    forall i, j | 0 <= i < j < |docs| :: KeyOf(docs[i].manifest) != KeyOf(docs[j].manifest)
  }

  lemma ApartPermuted(a: seq<Doc>, b: seq<Doc>)
    requires multiset(a) == multiset(b) && Apart(a)
    ensures Apart(b)
  {
    NoDupPermuted(a, b);
    forall i, j | 0 <= i < j < |b| ensures KeyOf(b[i].manifest) != KeyOf(b[j].manifest) {
      assert b[i] in multiset(b) && b[j] in multiset(b);
      var p :| 0 <= p < |a| && a[p] == b[i];
      var q :| 0 <= q < |a| && a[q] == b[j];
      assert p != q;
    }
  }

  lemma CollisionlessDocs(docs: seq<Doc>)
    ensures Collisionless(multiset(Manifests(docs))) <==> Apart(docs)
  {
    hide Collisionless;
    var keys := Keys(Manifests(docs));
    CollisionlessIsNoDup(Manifests(docs));
    assert forall i :: 0 <= i < |docs| ==> keys[i] == KeyOf(docs[i].manifest);
  }

  lemma OrderedApart(m: ResultMap, keys: seq<string>)
    requires Enumerates(keys, m.Keys)
    ensures Apart(Ordered(m, keys)) <==> Collisionless(Total(m))
    ensures multiset(Manifests(Ordered(m, keys))) == Total(m)
  {
    hide Collected, Total, Manifests, Collisionless, Apart, DocLess, KeyOf;
    CollectedIsTotal(m, keys);
    CollisionlessDocs(Collected(m, keys));
    DocLessIsWeakOrder();
    SortIsStable(DocLess, Collected(m, keys));
    if Apart(Collected(m, keys)) {
      ApartPermuted(Collected(m, keys), Ordered(m, keys));
    }
    if Apart(Ordered(m, keys)) {
      ApartPermuted(Ordered(m, keys), Collected(m, keys));
    }
    ManifestsPermuted(Collected(m, keys), Ordered(m, keys));
  }

  lemma ManifestsPermuted(a: seq<Doc>, b: seq<Doc>)
    requires multiset(a) == multiset(b)
    ensures multiset(Manifests(a)) == multiset(Manifests(b))
  {
    var f := (d: Doc) => d.manifest;
    MappedPermuted(f, a, b);
    assert Manifests(a) == Mapped(f, a) && Manifests(b) == Mapped(f, b);
  }

  // -------------------------------------------------------- the applied list

  /** The list is what a config renders to, for some orders of the maps Go ranges over. */
  ghost predicate RenderOf(c: Config, objs: seq<Object>)
  {
    exists order, keys :: Renders(c, order, keys, objs)
  }

  ghost predicate Renders(c: Config, order: seq<(string, string)>, keys: seq<string>, objs: seq<Object>)
  {
    RendersWith(c, order, keys) && objs == Objects(Ordered(Generated(c, order), keys))
  }

  /** Every block's objects, one Namespace per namespace and one ServiceAccount per used declared
    * pair, each once and nothing else. */
  ghost predicate AllHeld(c: Config, order: seq<(string, string)>, objs: seq<Object>)
  {
    multiset(objs) == multiset(ObjectsOf(Expected(c, order)))
  }

  ghost predicate RendersWith(c: Config, order: seq<(string, string)>, keys: seq<string>)
  {
    Enumerates(order, UsedAccounts(c)) && Grouped(order) && Enumerates(keys, Generated(c, order).Keys)
  }

  /** The objects of manifests, in their order. */
  function ObjectsOf(ms: seq<Manifest>): (r: seq<Object>)
    ensures |r| == |ms|
  {
    seq(|ms|, i requires 0 <= i < |ms| => ObjectOf(DocOf("", ms[i])))
  }

  lemma ObjectsOfPermuted(a: seq<Manifest>, b: seq<Manifest>)
    requires multiset(a) == multiset(b)
    ensures multiset(ObjectsOf(a)) == multiset(ObjectsOf(b))
  {
    hide ObjectOf, DocOf;
    var f := (m: Manifest) => ObjectOf(DocOf("", m));
    MappedPermuted(f, a, b);
    assert ObjectsOf(a) == Mapped(f, a) && ObjectsOf(b) == Mapped(f, b);
  }

  /** The list holds all that the config calls for exactly when nothing is lost in the map. */
  lemma RenderHoldsAll(c: Config, order: seq<(string, string)>, keys: seq<string>, objs: seq<Object>)
    requires Renders(c, order, keys, objs)
    ensures AllHeld(c, order, objs) <==> Lossless(c, order)
  {
    hide Generated, Expected, Total, Lossless, Ordered, UsedAccounts, Grouped;
    var docs := Ordered(Generated(c, order), keys);
    OrderedApart(Generated(c, order), keys);
    ConservationExact(c, order);
    assert Objects(docs) == ObjectsOf(Manifests(docs));
    var all := Expected(c, order);
    if Lossless(c, order) {
      ObjectsOfPermuted(Manifests(docs), all);
    } else {
      var t := Total(Generated(c, order));
      assert multiset(all) == t + (multiset(all) - t);
      assert multiset(all) - t != multiset{};
      assert |multiset(Objects(docs))| == |docs| == |t| && |multiset(ObjectsOf(all))| == |all|;
    }
  }

  /** No two objects of the list are one object of the cluster, for an accepted config in which no
    * nameless block stands in for another's route; where nothing is lost, only then. */
  lemma RenderApartExact(c: Config, order: seq<(string, string)>, keys: seq<string>, objs: seq<Object>)
    requires Accepted(c) && Renders(c, order, keys, objs)
    ensures NoStandIn(Slots(c)) ==> Distinguished(objs)
    ensures Lossless(c, order) ==> (Distinguished(objs) <==> NoStandIn(Slots(c)))
  {
    hide Generated, Accepted, NoStandIn, Total, UsedAccounts, Collisionless, Apart, Lossless, Ordered, Distinguished;
    var m := Generated(c, order);
    OrderedApart(m, keys);
    RenderScope(c, order, keys, objs);
    ApartObjects(Ordered(m, keys));
    if NoStandIn(Slots(c)) {
      GeneratedCollisionFree(c, order);
    }
    if Lossless(c, order) {
      CollisionsExact(c, order);
    }
  }

  /** Pairwise different for the API server. */
  ghost predicate Distinguished(objs: seq<Object>)
  {
    forall i, j | 0 <= i < j < |objs| :: IdentityOf(objs[i]) != IdentityOf(objs[j])
  }

  /** Cluster-scoped objects have no namespace field. */
  predicate Scoped(objs: seq<Object>)
  {
    forall o :: o in objs && ClusterScoped(o.kind) ==> o.namespace == ""
  }

  lemma ApartObjects(docs: seq<Doc>)
    ensures Distinguished(Objects(docs)) ==> Apart(docs)
    ensures Scoped(Objects(docs)) ==> (Distinguished(Objects(docs)) <==> Apart(docs))
  {
    hide GroupVersion, ClusterScoped;
    var objs := Objects(docs);
    forall i, j | 0 <= i < j < |docs|
      ensures KeyOf(docs[i].manifest) == KeyOf(docs[j].manifest) ==> IdentityOf(objs[i]) == IdentityOf(objs[j])
      ensures Scoped(objs) && IdentityOf(objs[i]) == IdentityOf(objs[j]) ==>
                KeyOf(docs[i].manifest) == KeyOf(docs[j].manifest)
    {
      assert objs[i] in objs && objs[j] in objs;
    }
  }

  /** Then their inventory ids are different too. */
  lemma DistinguishedIds(objs: seq<Object>, i: nat, j: nat)
    requires Distinguished(objs) && i < j < |objs| && Sound(objs[i]) && Sound(objs[j])
    ensures ResourceId(objs[i]) != ResourceId(objs[j])
  {
    IdInjective(objs[i], objs[j]);
  }

  predicate NameSharedAt(objs: seq<Object>, i: nat, j: nat)
    requires i < |objs| && j < |objs|
  {
    objs[i].name == objs[j].name && objs[i].group == objs[j].group && objs[i].kind == objs[j].kind
  }

  /** Under a target namespace objects stay apart exactly when no two share kind and name. */
  lemma RetargetedApart(objs: seq<Object>, namespace: string)
    requires namespace != ""
    ensures Distinguished(Retarget(objs, namespace)) <==>
            forall i, j | 0 <= i < j < |objs| :: !NameSharedAt(objs, i, j)
  {
    hide ClusterScoped;
    var r := Retarget(objs, namespace);
    assert forall i, j | 0 <= i < j < |objs| :: IdentityOf(r[i]) == IdentityOf(r[j]) <==> NameSharedAt(objs, i, j);
  }

  // -------------------------------------------- what a render's objects are called

  function NameOf(o: Object): Key
  {
    Key(o.kind, o.namespace, o.name)
  }

  function NamesOf(objs: seq<Object>): set<Key>
  {
    set o | o in objs :: NameOf(o)
  }

  /** Kind, namespace and name of all that the blocks stand for. */
  function BlockKeys(c: Config, order: seq<(string, string)>): set<Key>
  {
    set k | k in AllKeys(ObjectGroups(c, order))
  }

  /** A render's objects are among what the blocks stand for, and are all of it when nothing is lost. */
  lemma RenderNames(c: Config, order: seq<(string, string)>, keys: seq<string>, objs: seq<Object>)
    requires Renders(c, order, keys, objs)
    ensures NamesOf(objs) <= BlockKeys(c, order)
    ensures Lossless(c, order) ==> NamesOf(objs) == BlockKeys(c, order)
    ensures forall o :: o in objs ==> (o.group, o.version) == GroupVersion(o.kind)
  {
    hide Generated, Expected, Total, Lossless, Ordered, UsedAccounts, Grouped, ObjectGroups, AllKeys, KeyOf, Manifests,
         GroupVersion, ObjectOf;
    var docs, all := Ordered(Generated(c, order), keys), Expected(c, order);
    OrderedApart(Generated(c, order), keys);
    ConservationExact(c, order);
    ExpectedKeys(c, order);
    DocNames(docs);
    KeysAre(Manifests(docs));
    KeysAre(all);
    assert forall k :: k in AllKeys(ObjectGroups(c, order)) <==> k in multiset(Keys(all));
    assert forall m :: m in multiset(Manifests(docs)) ==> m in multiset(all);
  }

  lemma KeysAre(ms: seq<Manifest>)
    ensures forall k :: k in multiset(Keys(ms)) <==> exists m :: m in multiset(ms) && KeyOf(m) == k
  {
    hide KeyOf;
    forall k | k in multiset(Keys(ms)) ensures exists m :: m in multiset(ms) && KeyOf(m) == k {
      var i :| 0 <= i < |ms| && Keys(ms)[i] == k;
      assert ms[i] in multiset(ms);
    }
    forall m | m in multiset(ms) ensures KeyOf(m) in multiset(Keys(ms)) {
      var i :| 0 <= i < |ms| && ms[i] == m;
      assert Keys(ms)[i] in Keys(ms);
    }
  }

  lemma DocNames(docs: seq<Doc>)
    ensures forall k :: k in NamesOf(Objects(docs)) <==> exists m :: m in multiset(Manifests(docs)) && KeyOf(m) == k
    ensures forall o :: o in Objects(docs) ==> (o.group, o.version) == GroupVersion(o.kind)
  {
    hide GroupVersion;
    var objs, ms := Objects(docs), Manifests(docs);
    assert forall i :: 0 <= i < |docs| ==> NameOf(objs[i]) == KeyOf(ms[i]);
    forall k | k in NamesOf(objs) ensures exists m :: m in multiset(ms) && KeyOf(m) == k {
      var i :| 0 <= i < |objs| && NameOf(objs[i]) == k;
      assert ms[i] in multiset(ms);
    }
    forall m | m in multiset(ms) ensures KeyOf(m) in NamesOf(objs) {
      var i :| 0 <= i < |ms| && ms[i] == m;
      assert objs[i] in objs;
    }
  }

  const FURTHER_KINDS := ["Ingress", "HTTPRoute", "Certificate", "ServiceAccount", "Namespace"]

  lemma {:induction false} KeysOfGroups(groups: seq<Group>, k: Key)
    requires k in AllKeys(groups)
    ensures exists i :: 0 <= i < |groups| && k.kind == groups[i].kind && (k.namespace, k.name) in groups[i].pairs
  {
    if k in AllKeys(groups[1..]) {
      KeysOfGroups(groups[1..], k);
      var i :| 0 <= i < |groups[1..]| && k.kind == groups[1..][i].kind && (k.namespace, k.name) in groups[1..][i].pairs;
      assert groups[i + 1] == groups[1..][i];
    } else {
      assert groups[0].kind == k.kind;
    }
  }

  lemma {:induction false} ScopelessPairsAreBare(ss: seq<Scopeless>)
    ensures forall p :: p in ScopelessPairs(ss) ==> p.0 == ""
  {
    if ss != [] { ScopelessPairsAreBare(ss[1..]); }
  }

  /** What a block stands for is of a known kind, without a namespace if the kind has none. */
  lemma BlockKeysScope(c: Config, order: seq<(string, string)>, k: Key)
    requires k in BlockKeys(c, order)
    ensures k.kind in OBJECT_KINDS + FURTHER_KINDS && (ClusterScoped(k.kind) ==> k.namespace == "")
  {
    hide AllKeys, WorkloadPairs, ServicePairs, AllServicePairs, CronJobPairs, PlainPairs, ScopelessPairs, ScalerPairs,
         RoutePairs, CertificatePairs, AccountPairs, Slots, ModeOf;
    KeysOfGroups(ObjectGroups(c, order), k);
    ScopelessPairsAreBare(c.clusterRoles);
    ScopelessPairsAreBare(c.clusterRoleBindings);
    ScopelessPairsAreBare(c.crds);
    ScopelessPairsAreBare(c.csiDrivers);
  }

  lemma RenderScope(c: Config, order: seq<(string, string)>, keys: seq<string>, objs: seq<Object>)
    requires Renders(c, order, keys, objs)
    ensures Scoped(objs)
    ensures forall o :: o in objs ==> '_' !in o.group && '_' !in o.kind
  {
    RenderNames(c, order, keys, objs);
    hide Renders, BlockKeys, ClusterScoped, GroupVersion, OBJECT_KINDS, FURTHER_KINDS;
    forall o | o in objs
      ensures '_' !in o.group && '_' !in o.kind && (ClusterScoped(o.kind) ==> o.namespace == "")
    {
      assert NameOf(o) in NamesOf(objs);
      BlockKeysScope(c, order, NameOf(o));
      GroupIsClean(o.kind);
      KindIsClean(o.kind);
    }
  }

  /** The API group of a rendered object tells its kind, and its version is v1 with two exceptions. */
  lemma RenderedApis(c: Config, order: seq<(string, string)>, keys: seq<string>, objs: seq<Object>)
    requires Renders(c, order, keys, objs)
    ensures forall o :: o in objs ==>
              && (o.group == "apps" <==> o.kind in {"Deployment", "DaemonSet", "StatefulSet"})
              && (o.group == "batch" <==> o.kind == "CronJob")
              && (o.group == "networking.k8s.io" <==> o.kind == "Ingress")
              && (o.group == "gateway.networking.k8s.io" <==> o.kind == "HTTPRoute")
              && (o.group == "cert-manager.io" <==> o.kind == "Certificate")
              && (o.group == "autoscaling" <==> o.kind == "HorizontalPodAutoscaler")
              && (o.group == "bitnami.com" <==> o.kind == "SealedSecret")
              && (o.group == "rbac.authorization.k8s.io" <==> o.kind in {"ClusterRole", "ClusterRoleBinding"})
              && (o.group == "apiextensions.k8s.io" <==> o.kind == "CustomResourceDefinition")
              && (o.group == "storage.k8s.io" <==> o.kind == "CSIDriver")
              && o.version == (if o.kind == "HorizontalPodAutoscaler" then "v2"
                               else if o.kind == "SealedSecret" then "v1alpha1" else "v1")
  {
    RenderNames(c, order, keys, objs);
    hide Renders;
  }

  const GROUPS := ["apps", "batch", "networking.k8s.io", "gateway.networking.k8s.io", "cert-manager.io", "autoscaling",
                   "bitnami.com", "rbac.authorization.k8s.io", "apiextensions.k8s.io", "storage.k8s.io", ""]

  lemma GroupIsClean(kind: string)
    ensures '_' !in GroupVersion(kind).0
  {
    assert GroupVersion(kind).0 in GROUPS;
    hide GroupVersion;
    GroupNames();
  }

  lemma GroupNames()
    ensures forall g :: g in GROUPS ==> '_' !in g
  {
  }

  lemma KindIsClean(kind: string)
    requires kind in OBJECT_KINDS + FURTHER_KINDS
    ensures '_' !in kind
  {
    ObjectKindNames();
    FurtherKindNames();
    hide OBJECT_KINDS, FURTHER_KINDS;
    assert kind in OBJECT_KINDS || kind in FURTHER_KINDS;
  }

  lemma ObjectKindNames()
    ensures forall k :: k in OBJECT_KINDS ==> '_' !in k
  {
  }

  lemma FurtherKindNames()
    ensures forall k :: k in FURTHER_KINDS ==> '_' !in k
  {
  }

  // --------------------------------------------------------- decodable lists

  /** No namespace of what the blocks stand for holds an underscore; neither does any name. */
  ghost predicate SoundConfig(c: Config, order: seq<(string, string)>)
  {
    forall k :: k in BlockKeys(c, order) ==> '_' !in k.namespace
  }

  ghost predicate CleanConfig(c: Config, order: seq<(string, string)>)
  {
    SoundConfig(c, order) && forall k :: k in BlockKeys(c, order) ==> PlainName(k.name)
  }

  /** A config none of whose objects' namespaces, block by block, holds an underscore renders to
    * sound objects only; where nothing is lost, only such a config does. */
  lemma RenderIsSound(c: Config, order: seq<(string, string)>, keys: seq<string>, objs: seq<Object>)
    requires Renders(c, order, keys, objs)
    ensures SoundConfig(c, order) ==> AllSound(objs)
    ensures Lossless(c, order) ==> (AllSound(objs) <==> SoundConfig(c, order))
  {
    RenderNames(c, order, keys, objs);
    RenderScope(c, order, keys, objs);
    hide Renders, BlockKeys, Lossless;
    assert forall o :: o in objs ==> NameOf(o) in NamesOf(objs);
  }

  /** The same for decodable objects, with the names as well. */
  lemma RenderIsClean(c: Config, order: seq<(string, string)>, keys: seq<string>, objs: seq<Object>)
    requires Renders(c, order, keys, objs)
    ensures var clean := forall o :: o in objs ==> Clean(o);
            && (CleanConfig(c, order) ==> clean)
            && (Lossless(c, order) ==> (clean <==> CleanConfig(c, order)))
  {
    RenderNames(c, order, keys, objs);
    RenderScope(c, order, keys, objs);
    hide Renders, BlockKeys, Lossless;
    assert forall o :: o in objs ==> NameOf(o) in NamesOf(objs);
  }

  // ------------------------------------------------------- releases of renders

  /** What is delivered is the render of some config without an underscore in its namespaces,
    * under the target namespace. */
  ghost predicate DeliversRender(act: Action, namespace: string)
  {
    act.Deliver? ==>
      && act.attempt.targetNamespace == namespace
      && (act.attempt.rendered.Some? ==>
            exists c, order, keys :: SoundConfig(c, order) && Renders(c, order, keys, act.attempt.rendered.value))
  }

  lemma RenderDelivered(act: Action, namespace: string)
    requires DeliversRender(act, namespace) && '_' !in namespace
    ensures SoundAction(act) && Steady(act, namespace)
  {
    hide SoundConfig, Renders, ClusterScoped;
    if act.Deliver? && act.attempt.rendered.Some? {
      var c, order, keys :| SoundConfig(c, order) && Renders(c, order, keys, act.attempt.rendered.value);
      RenderIsSound(c, order, keys, act.attempt.rendered.value);
      RenderScope(c, order, keys, act.attempt.rendered.value);
      Retargeted(act.attempt.rendered.value, namespace);
    }
  }

  /** A target namespace without an underscore keeps a list sound, and is the one namespace field
    * of everything cluster-scoped. */
  lemma Retargeted(objs: seq<Object>, namespace: string)
    requires AllSound(objs) && Scoped(objs) && '_' !in namespace
    ensures AllSound(Retarget(objs, namespace))
    ensures forall o :: o in Retarget(objs, namespace) && ClusterScoped(o.kind) ==> o.namespace == namespace
  {
    hide ClusterScoped;
    var r := Retarget(objs, namespace);
    forall o | o in r ensures Sound(o) && (ClusterScoped(o.kind) ==> o.namespace == namespace) {
      var i :| 0 <= i < |r| && r[i] == o;
      assert objs[i] in objs;
    }
  }

  /** From one log to the next nothing of the action's own render is asked to be deleted. */
  ghost predicate KeepsOwn(before: seq<Event>, after: seq<Event>, act: Action)
  {
    forall j | |before| <= j < |after| && after[j].Deleted? ::
      act.Deliver? && after[j].id !in Ids(Desired(act.attempt))
  }

  /** From blocks to the cluster: a release of any renders of any configs, with any failures, under
    * one target namespace, never asks to delete an object of the render it deploys; and as long
    * as nobody else deletes objects, Ready means that everything recorded is on the cluster. */
  lemma RenderedRuns(acts: seq<Action>, namespace: string)
    requires '_' !in namespace && forall act :: act in acts ==> DeliversRender(act, namespace)
    ensures forall k | 0 <= k < |acts| :: KeepsOwn(LogAt(acts, k), LogAt(acts, k + 1), acts[k])
    ensures (forall act :: act in acts ==> act.Deliver?) ==> ReadyIsTrue(Run(NEW_WORLD, acts))
  {
    hide DeliversRender, SoundAction, Steady, RunSpares, Spared, ReadyIsTrue, Desired, Run, Step;
    forall act | act in acts ensures SoundAction(act) && Steady(act, namespace) {
      RenderDelivered(act, namespace);
    }
    SteadySpares(acts, namespace);
    forall k | 0 <= k < |acts| ensures KeepsOwn(LogAt(acts, k), LogAt(acts, k + 1), acts[k]) {
      ActionKeepsOwn(acts, k);
    }
    if forall act :: act in acts ==> act.Deliver? {
      ReadyMeansLive(acts);
    }
  }

  lemma ActionKeepsOwn(acts: seq<Action>, k: nat)
    requires k < |acts| && forall act :: act in acts ==> SoundAction(act)
    requires acts[k].Deliver? && LastCommitted(acts[..k]).Some? ==>
               Spared(Desired(LastCommitted(acts[..k]).value), Desired(acts[k].attempt))
    ensures KeepsOwn(LogAt(acts, k), LogAt(acts, k + 1), acts[k])
  {
    hide Spared, Desired, LogAt, LastCommitted, StaleIds, Ids, AllSound;
    ActionDeletesStaleOnly(acts, k);
    assert SoundAction(acts[k]);
    if acts[k].Deliver? {
      SoundIsKnown(Desired(acts[k].attempt));
    }
  }

  // ------------------------------------------------------------ determinism

  /** With account keys apart a config renders to one list, however Go ranges over its maps. */
  lemma RenderIsOne(c: Config, order: seq<(string, string)>, a: seq<Object>, b: seq<Object>)
    requires Enumerates(order, UsedAccounts(c)) && AccountsApart(c, order)
    requires RenderOf(c, a) && RenderOf(c, b)
    ensures a == b
  {
    hide Generated, AccountsApart, UsedAccounts, Ordered, Objects;
    var o, k :| Renders(c, o, k, a);
    var p, l :| Renders(c, p, l, b);
    RangeOrderIrrelevant(c, order, o);
    RangeOrderIrrelevant(c, order, p);
    RenderOrderUnique(Generated(c, order), k, l);
  }

  // -------------------------------------------------------------- the method

  /** A project's render, from its parsed files, those of all its sub-projects included, to the
    * list the controller applies: that of the config it loads to, whose objects differ for the
    * API server unless a nameless block stands in, and are all that the config calls for exactly
    * when nothing is lost. */
  method RenderProject(p: Project, printable: set<char>) returns (r: Result<seq<Object>, LoadError>, config: Config)
    ensures r.Ok? <==> Loaded(p).Some?
    ensures r.Ok? ==> Loaded(p) == Some(config) && Accepted(config) && RenderOf(config, r.value)
    ensures r.Ok? ==> exists order, keys :: Renders(config, order, keys, r.value)
                        && (AllHeld(config, order, r.value) <==> Lossless(config, order))
    ensures r.Ok? && NoStandIn(Slots(config)) ==> Distinguished(r.value)
  {
    hide Accepted, NoStandIn, Ordered, ObjectOf, Generated, Lossless, AllHeld, Grouped, Enumerates, UsedAccounts,
         Distinguished, Objects, Loaded;
    var loaded := Load(p, printable);
    if loaded.Err? {
      return Err(loaded.error), EMPTY;
    }
    config := loaded.value.Snapshot();
    LoadedIsAccepted(p);
    var result := Generate(config);
    ghost var order :| Enumerates(order, UsedAccounts(config)) && Grouped(order) && result == Generated(config, order);
    var docs, keys := RenderAll(result);
    assert Renders(config, order, keys, Objects(docs[..]));
    RenderHoldsAll(config, order, keys, Objects(docs[..]));
    RenderApartExact(config, order, keys, Objects(docs[..]));
    return Ok(Objects(docs[..])), config;
  }
}
