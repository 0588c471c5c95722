/** Generate: the result map, filled loop by loop. */
module Assembly {
  import opened Options
  import opened Seqs
  import opened Blocks
  import opened IngressChecks
  import opened Generator

  /** One assignment into the result map: appending to a key's list, or replacing it. */
  datatype Write = Write(key: string, objs: seq<Manifest>, replace: bool)

  function Get(m: map<string, seq<Manifest>>, key: string): seq<Manifest>
  {
    if key in m then m[key] else []
  }

  function Put(m: map<string, seq<Manifest>>, w: Write): map<string, seq<Manifest>>
  {
    if w.replace then m[w.key := w.objs] else m[w.key := Get(m, w.key) + w.objs]
  }

  function PutAll(m: map<string, seq<Manifest>>, ws: seq<Write>): map<string, seq<Manifest>>
  {
    if ws == [] then m else Put(PutAll(m, ws[..|ws| - 1]), ws[|ws| - 1])
  }

  lemma {:induction false} PutAllConcat(m: map<string, seq<Manifest>>, a: seq<Write>, b: seq<Write>)
    ensures PutAll(m, a + b) == PutAll(PutAll(m, a), b)
  {
    if b == [] {
      assert a + b == a;
    } else {
      var n := |b| - 1;
      assert (a + b)[..|a + b| - 1] == a + b[..n];
      PutAllConcat(m, a, b[..n]);
    }
  }

  // ---------------------------------------------------- the writes, in order

  function NamespaceWrite(ns: string): Write
  {
    Write("namespace-" + ns, [Manifest("Namespace", "", ns, OfNamespace)], true)
  }

  function NamespaceWrites(nss: seq<string>): (r: seq<Write>)
    ensures |r| == |nss|
  {
    seq(|nss|, i requires 0 <= i < |nss| => NamespaceWrite(nss[i]))
  }

  function AccountKey(name: string, namespace: string): string
  {
    "sa-" + (name + "-" + namespace)
  }

  function AccountWrite(sa: Account, name: string, namespace: string): Write
  {
    Write(AccountKey(name, namespace), [Manifest("ServiceAccount", namespace, sa.name, OfAccount(sa))], true)
  }

  /** One write per used pair that has a declaration, in the order the pairs come up. */
  function AccountWrites(accounts: seq<Account>, order: seq<(string, string)>): seq<Write>
  {
    if order == [] then []
    else
      var n := |order| - 1;
      var sa := Resolve(accounts, order[n].0, order[n].1);
      AccountWrites(accounts, order[..n])
      + if sa.None? then [] else [AccountWrite(sa.value, order[n].0, order[n].1)]
  }

  function DeploymentWrites(ws: seq<Workload>, mode: string): (r: seq<Write>)
    ensures |r| == |ws|
  {
    seq(|ws|, i requires 0 <= i < |ws| => Write(ws[i].name, DeploymentManifests(ws[i], mode), false))
  }

  function DaemonSetWrites(ws: seq<Workload>): (r: seq<Write>)
    ensures |r| == |ws|
  {
    seq(|ws|, i requires 0 <= i < |ws| => Write(ws[i].name, DaemonSetManifests(ws[i]), false))
  }

  function StatefulSetWrites(ws: seq<Workload>, mode: string): (r: seq<Write>)
    ensures |r| == |ws|
  {
    seq(|ws|, i requires 0 <= i < |ws| => Write(ws[i].name, StatefulSetManifests(ws[i], mode), false))
  }

  function CronJobWrites(cs: seq<CronJob>): (r: seq<Write>)
    ensures |r| == |cs|
  {
    seq(|cs|, i requires 0 <= i < |cs| =>
      Write(cs[i].name, [Manifest("CronJob", cs[i].namespace, cs[i].name, OfCronJob(cs[i]))], false))
  }

  function PlainWrites(prefix: string, kind: string, ps: seq<Plain>): (r: seq<Write>)
    ensures |r| == |ps|
  {
    seq(|ps|, i requires 0 <= i < |ps| =>
      Write(prefix + ps[i].name, [Manifest(kind, ps[i].namespace, ps[i].name, OfPlain(ps[i]))], false))
  }

  function IngressWrites(ings: seq<Ingress>, mode: string): (r: seq<Write>)
    ensures |r| == |ings|
  {
    seq(|ings|, i requires 0 <= i < |ings| =>
      Write("ingress-" + ings[i].name, SlotManifests(TopLevelSlots([ings[i]])[0], mode), false))
  }

  function ScopelessWrites(prefix: string, kind: string, ss: seq<Scopeless>): (r: seq<Write>)
    ensures |r| == |ss|
  {
    seq(|ss|, i requires 0 <= i < |ss| =>
      Write(prefix + ss[i].name, [Manifest(kind, "", ss[i].name, OfScopeless(ss[i]))], true))
  }

  /** Workloads and cronjobs under their own names. */
  function NamedWrites(c: Config): seq<Write>
  {
    DeploymentWrites(c.deployments, ModeOf(c.ingressDefaults))
    + DaemonSetWrites(c.daemonSets)
    + StatefulSetWrites(c.statefulSets, ModeOf(c.ingressDefaults))
    + CronJobWrites(c.cronJobs)
  }

  /** The other namespaced blocks under a prefix. */
  function PrefixedWrites(c: Config): seq<Write>
  {
    PlainWrites("configmap-", "ConfigMap", c.configMaps)
    + IngressWrites(c.ingresses, ModeOf(c.ingressDefaults))
    + PlainWrites("secret-", "Secret", c.secrets)
    + PlainWrites("sealedsecret-", "SealedSecret", c.sealedSecrets)
    + PlainWrites("pvc-", "PersistentVolumeClaim", c.claims)
  }

  /** Cluster-scoped blocks, each replacing what its key held. */
  function ClusterWrites(c: Config): seq<Write>
  {
    ScopelessWrites("clusterrole-", "ClusterRole", c.clusterRoles)
    + ScopelessWrites("clusterrolebinding-", "ClusterRoleBinding", c.clusterRoleBindings)
    + ScopelessWrites("crd-", "CustomResourceDefinition", c.crds)
    + ScopelessWrites("csidriver-", "CSIDriver", c.csiDrivers)
  }

  /** All writes, the service accounts in the given order. */
  function AllWrites(c: Config, order: seq<(string, string)>): seq<Write>
  {
    NamespaceWrites(Distinct(c.namespaces)) + AccountWrites(c.accounts, order)
    + NamedWrites(c) + PrefixedWrites(c) + ClusterWrites(c)
  }

  function Generated(c: Config, order: seq<(string, string)>): map<string, seq<Manifest>>
  {
    PutAll(map[], AllWrites(c, order))
  }

  ghost predicate Enumerates<T(!new)>(order: seq<T>, s: set<T>)
  {
    NoDup(order) && forall x :: x in order <==> x in s
  }

  // ------------------------------------------------------------- the loops

  type ResultMap = map<string, seq<Manifest>>

  lemma {:induction false} NamespaceWritten(nss: seq<string>, ns: string)
    requires ns in nss
    ensures var m := PutAll(map[], NamespaceWrites(nss));
            Put(m, NamespaceWrite(ns)) == m
  {
    var n := |nss| - 1;
    assert NamespaceWrites(nss)[..n] == NamespaceWrites(nss[..n]);
    assert nss == nss[..n] + [nss[n]];
    if ns != nss[n] {
      NamespaceWritten(nss[..n], ns);
      var k, l := "namespace-" + ns, "namespace-" + nss[n];
      assert k[10..] == ns && l[10..] == nss[n];
      var m := PutAll(map[], NamespaceWrites(nss[..n]));
      assert k in Put(m, NamespaceWrite(ns)) && m[k] == NamespaceWrite(ns).objs;
    }
  }

  method GenerateNamespaces(nss: seq<string>) returns (result: ResultMap)
    ensures result == PutAll(map[], NamespaceWrites(Distinct(nss)))
  {
    result := map[];
    var i := 0;
    while i < |nss|
      invariant 0 <= i <= |nss|
      invariant result == PutAll(map[], NamespaceWrites(Distinct(nss[..i])))
    {
      ghost var d := Distinct(nss[..i]);
      assert nss[..i + 1][..i] == nss[..i];
      if nss[i] in d {
        NamespaceWritten(d, nss[i]);
      } else {
        assert NamespaceWrites(d + [nss[i]]) == NamespaceWrites(d) + [NamespaceWrite(nss[i])];
      }
      result := Put(result, NamespaceWrite(nss[i]));
      i := i + 1;
    }
    assert nss[..i] == nss;
  }

  lemma PutAllStep(m: ResultMap, ws: seq<Write>, i: nat)
    requires i < |ws|
    ensures PutAll(m, ws[..i + 1]) == Put(PutAll(m, ws[..i]), ws[i])
  {
    assert ws[..i + 1][..i] == ws[..i];
  }

  lemma PutAllNothing(m: ResultMap)
    ensures PutAll(m, []) == m
  {
  }

  method AddDeployments(m: ResultMap, ws: seq<Workload>, defaults: Option<IngressDefaults>) returns (result: ResultMap)
    ensures result == PutAll(m, DeploymentWrites(ws, ModeOf(defaults)))
  {
    hide PutAll, DeploymentManifests, DaemonSetManifests, StatefulSetManifests, SlotManifests, TopLevelSlots;
    result := m;
    ghost var writes := DeploymentWrites(ws, ModeOf(defaults));
    PutAllNothing(m);
    assert writes[..0] == [];
    var i := 0;
    while i < |ws|
      invariant 0 <= i <= |ws|
      invariant result == PutAll(m, writes[..i])
    {
      PutAllStep(m, writes, i);
      var objs := GenerateDeployment(ws[i], defaults);
      result := result[ws[i].name := Get(result, ws[i].name) + objs];
      i := i + 1;
    }
    assert writes[..i] == writes;
  }

  method AddDaemonSets(m: ResultMap, ws: seq<Workload>) returns (result: ResultMap)
    ensures result == PutAll(m, DaemonSetWrites(ws))
  {
    hide PutAll, DeploymentManifests, DaemonSetManifests, StatefulSetManifests, SlotManifests, TopLevelSlots;
    result := m;
    ghost var writes := DaemonSetWrites(ws);
    PutAllNothing(m);
    assert writes[..0] == [];
    var i := 0;
    while i < |ws|
      invariant 0 <= i <= |ws|
      invariant result == PutAll(m, writes[..i])
    {
      PutAllStep(m, writes, i);
      var objs := GenerateDaemonSet(ws[i]);
      result := result[ws[i].name := Get(result, ws[i].name) + objs];
      i := i + 1;
    }
    assert writes[..i] == writes;
  }

  method AddStatefulSets(m: ResultMap, ws: seq<Workload>, defaults: Option<IngressDefaults>) returns (result: ResultMap)
    ensures result == PutAll(m, StatefulSetWrites(ws, ModeOf(defaults)))
  {
    hide PutAll, DeploymentManifests, DaemonSetManifests, StatefulSetManifests, SlotManifests, TopLevelSlots;
    result := m;
    ghost var writes := StatefulSetWrites(ws, ModeOf(defaults));
    PutAllNothing(m);
    assert writes[..0] == [];
    var i := 0;
    while i < |ws|
      invariant 0 <= i <= |ws|
      invariant result == PutAll(m, writes[..i])
    {
      PutAllStep(m, writes, i);
      var objs := GenerateStatefulSet(ws[i], defaults);
      result := result[ws[i].name := Get(result, ws[i].name) + objs];
      i := i + 1;
    }
    assert writes[..i] == writes;
  }

  method AddCronJobs(m: ResultMap, cs: seq<CronJob>) returns (result: ResultMap)
    ensures result == PutAll(m, CronJobWrites(cs))
  {
    hide PutAll, DeploymentManifests, DaemonSetManifests, StatefulSetManifests, SlotManifests, TopLevelSlots;
    result := m;
    ghost var writes := CronJobWrites(cs);
    PutAllNothing(m);
    assert writes[..0] == [];
    var i := 0;
    while i < |cs|
      invariant 0 <= i <= |cs|
      invariant result == PutAll(m, writes[..i])
    {
      PutAllStep(m, writes, i);
      var objs := [Manifest("CronJob", cs[i].namespace, cs[i].name, OfCronJob(cs[i]))];
      result := result[cs[i].name := Get(result, cs[i].name) + objs];
      i := i + 1;
    }
    assert writes[..i] == writes;
  }

  method AddPlain(m: ResultMap, prefix: string, kind: string, ps: seq<Plain>) returns (result: ResultMap)
    ensures result == PutAll(m, PlainWrites(prefix, kind, ps))
  {
    hide PutAll, DeploymentManifests, DaemonSetManifests, StatefulSetManifests, SlotManifests, TopLevelSlots;
    result := m;
    ghost var writes := PlainWrites(prefix, kind, ps);
    PutAllNothing(m);
    assert writes[..0] == [];
    var i := 0;
    while i < |ps|
      invariant 0 <= i <= |ps|
      invariant result == PutAll(m, writes[..i])
    {
      PutAllStep(m, writes, i);
      var key := prefix + ps[i].name;
      result := result[key := Get(result, key) + [Manifest(kind, ps[i].namespace, ps[i].name, OfPlain(ps[i]))]];
      i := i + 1;
    }
    assert writes[..i] == writes;
  }

  method AddIngresses(m: ResultMap, ings: seq<Ingress>, defaults: Option<IngressDefaults>) returns (result: ResultMap)
    ensures result == PutAll(m, IngressWrites(ings, ModeOf(defaults)))
  {
    hide PutAll, DeploymentManifests, DaemonSetManifests, StatefulSetManifests, SlotManifests, TopLevelSlots;
    result := m;
    ghost var writes := IngressWrites(ings, ModeOf(defaults));
    PutAllNothing(m);
    assert writes[..0] == [];
    var i := 0;
    while i < |ings|
      invariant 0 <= i <= |ings|
      invariant result == PutAll(m, writes[..i])
    {
      PutAllStep(m, writes, i);
      var key := "ingress-" + ings[i].name;
      var objs := GenerateStandaloneIngress(ings[i], defaults);
      result := result[key := Get(result, key) + objs];
      i := i + 1;
    }
    assert writes[..i] == writes;
  }

  method SetScopeless(m: ResultMap, prefix: string, kind: string, ss: seq<Scopeless>) returns (result: ResultMap)
    ensures result == PutAll(m, ScopelessWrites(prefix, kind, ss))
  {
    hide PutAll, DeploymentManifests, DaemonSetManifests, StatefulSetManifests, SlotManifests, TopLevelSlots;
    result := m;
    ghost var writes := ScopelessWrites(prefix, kind, ss);
    PutAllNothing(m);
    assert writes[..0] == [];
    var i := 0;
    while i < |ss|
      invariant 0 <= i <= |ss|
      invariant result == PutAll(m, writes[..i])
    {
      PutAllStep(m, writes, i);
      result := result[prefix + ss[i].name := [Manifest(kind, "", ss[i].name, OfScopeless(ss[i]))]];
      i := i + 1;
    }
    assert writes[..i] == writes;
  }

  // ----------------------------------------------------- account namespaces

  ghost predicate Marks(seen: map<string, set<string>>, uses: set<(string, string)>)
  {
    forall name, ns :: name in seen && ns in seen[name] <==> (name, ns) in uses
  }

  method Mark(seen: map<string, set<string>>, name: string, ns: string, ghost uses: set<(string, string)>)
    returns (r: map<string, set<string>>)
    requires Marks(seen, uses)
    ensures Marks(r, uses + if name != "" then {(name, ns)} else {})
  {
    r := seen;
    if name != "" {
      if name !in r { r := r[name := {}]; }
      r := r[name := r[name] + {ns}];
    }
  }

  method MarkWorkloads(seen: map<string, set<string>>, ws: seq<Workload>, ghost uses: set<(string, string)>)
    returns (r: map<string, set<string>>)
    requires Marks(seen, uses)
    ensures Marks(r, uses + WorkloadUses(ws))
  {
    hide Marks;
    r := seen;
    var i := 0;
    assert uses + WorkloadUses(ws[..0]) == uses;
    while i < |ws|
      invariant 0 <= i <= |ws|
      invariant Marks(r, uses + WorkloadUses(ws[..i]))
    {
      var w := ws[i];
      assert ws[..i + 1] == ws[..i] + [w];
      ghost var more := if w.serviceAccount != "" then {(w.serviceAccount, w.namespace)} else {};
      assert WorkloadUses(ws[..i + 1]) == WorkloadUses(ws[..i]) + more;
      assert uses + WorkloadUses(ws[..i + 1]) == uses + WorkloadUses(ws[..i]) + more;
      r := Mark(r, w.serviceAccount, w.namespace, uses + WorkloadUses(ws[..i]));
      i := i + 1;
    }
    assert ws[..i] == ws;
  }

  method MarkCronJobs(seen: map<string, set<string>>, cs: seq<CronJob>, ghost uses: set<(string, string)>)
    returns (r: map<string, set<string>>)
    requires Marks(seen, uses)
    ensures Marks(r, uses + CronJobUses(cs))
  {
    hide Marks;
    r := seen;
    var i := 0;
    assert uses + CronJobUses(cs[..0]) == uses;
    while i < |cs|
      invariant 0 <= i <= |cs|
      invariant Marks(r, uses + CronJobUses(cs[..i]))
    {
      var c := cs[i];
      assert cs[..i + 1] == cs[..i] + [c];
      ghost var more := if c.serviceAccount != "" then {(c.serviceAccount, c.namespace)} else {};
      assert CronJobUses(cs[..i + 1]) == CronJobUses(cs[..i]) + more;
      assert uses + CronJobUses(cs[..i + 1]) == uses + CronJobUses(cs[..i]) + more;
      r := Mark(r, c.serviceAccount, c.namespace, uses + CronJobUses(cs[..i]));
      i := i + 1;
    }
    assert cs[..i] == cs;
  }

  /** The members of a set in some order: a Go map range. */
  method RangeOver(s: set<string>) returns (order: seq<string>)
    ensures Enumerates(order, s)
  {
    order := [];
    var rest := s;
    while rest != {}
      invariant rest <= s && Enumerates(order, s - rest)
      decreases rest
    {
      var x :| x in rest;
      NoDupSnoc(order, x);
      order := order + [x];
      rest := rest - {x};
    }
    assert s - rest == s;
  }

  /** Which namespaces each service account is used in, each once. */
  method CollectServiceAccountNamespaces(c: Config) returns (result: map<string, seq<string>>)
    ensures forall name, ns :: name in result && ns in result[name] <==> (name, ns) in UsedAccounts(c)
    ensures forall name :: name in result ==> NoDup(result[name])
  {
    hide WorkloadUses, CronJobUses;
    var seen: map<string, set<string>> := map[];
    seen := MarkWorkloads(seen, c.deployments, {});
    seen := MarkWorkloads(seen, c.daemonSets, {} + WorkloadUses(c.deployments));
    seen := MarkWorkloads(seen, c.statefulSets, {} + WorkloadUses(c.deployments) + WorkloadUses(c.daemonSets));
    seen := MarkCronJobs(seen, c.cronJobs,
                         {} + WorkloadUses(c.deployments) + WorkloadUses(c.daemonSets) + WorkloadUses(c.statefulSets));
    result := map[];
    var names := seen.Keys;
    while names != {}
      invariant names <= seen.Keys && result.Keys == seen.Keys - names
      invariant forall name :: name in result ==> Enumerates(result[name], seen[name])
      decreases names
    {
      var name :| name in names;
      var order := RangeOver(seen[name]);
      result := result[name := order];
      names := names - {name};
    }
  }

  /** One account's pairs stand together: the order of two nested ranges. */
  ghost predicate Grouped(order: seq<(string, string)>)
  {
    forall i, j, k :: 0 <= i < j < k < |order| && order[i].0 == order[k].0 ==> order[j].0 == order[i].0
  }

  lemma NothingGrouped(m: ResultMap, accounts: seq<Account>)
    ensures Grouped([]) && NoDup<(string, string)>([]) && PutAll(m, AccountWrites(accounts, [])) == m
  {
  }

  function PairsOf(name: string, list: seq<string>): (r: seq<(string, string)>)
    ensures |r| == |list|
  {
    seq(|list|, i requires 0 <= i < |list| => (name, list[i]))
  }

  /** One account's pairs after those of others. */
  lemma PairsAppended(order: seq<(string, string)>, name: string, list: seq<string>)
    requires NoDup(order) && Grouped(order) && NoDup(list)
    requires forall p :: p in order ==> p.0 != name
    ensures var next := order + PairsOf(name, list);
            && NoDup(next) && Grouped(next)
            && forall p :: p in next <==> p in order || (p.0 == name && p.1 in list)
  {
    var own := PairsOf(name, list);
    forall i, j | 0 <= i < j < |own| ensures own[i] != own[j] { assert list[i] != list[j]; }
    NoDupConcat(order, own);
    assert forall i :: 0 <= i < |order| ==> order[i] in order;
    forall p ensures p in own <==> p.0 == name && p.1 in list {
      if p.0 == name && p.1 in list {
        var i :| 0 <= i < |list| && list[i] == p.1;
        assert own[i] == p;
      }
    }
  }

  /** The inner range: one account in each of its namespaces. */
  method SetAccount(m: ResultMap, accounts: seq<Account>, name: string, list: seq<string>)
    returns (result: ResultMap)
    ensures result == PutAll(m, AccountWrites(accounts, PairsOf(name, list)))
  {
    hide AccountWrite, PutAll;
    ghost var pairs := PairsOf(name, list);
    result := m;
    PutAllNothing(m);
    for i := 0 to |list|
      invariant result == PutAll(m, AccountWrites(accounts, pairs[..i]))
    {
      assert pairs[..i + 1][..i] == pairs[..i];
      var sa := ResolveServiceAccount(accounts, name, list[i]);
      if sa.Some? {
        PutAllSnoc(m, AccountWrites(accounts, pairs[..i]), AccountWrite(sa.value, name, list[i]));
        result := Put(result, AccountWrite(sa.value, name, list[i]));
      } else {
        assert AccountWrites(accounts, pairs[..i]) + [] == AccountWrites(accounts, pairs[..i]);
      }
    }
    assert pairs[..|list|] == pairs;
  }

  lemma {:induction false} AccountWritesConcat(accounts: seq<Account>, a: seq<(string, string)>, b: seq<(string, string)>)
    ensures AccountWrites(accounts, a + b) == AccountWrites(accounts, a) + AccountWrites(accounts, b)
  {
    hide AccountWrite, Resolve;
    if b == [] {
      assert a + b == a;
    } else {
      assert (a + b)[..|a + b| - 1] == a + b[..|b| - 1];
      AccountWritesConcat(accounts, a, b[..|b| - 1]);
    }
  }

  method SetAccounts(m: ResultMap, accounts: seq<Account>, namespaces: map<string, seq<string>>)
    returns (result: ResultMap, ghost order: seq<(string, string)>)
    requires forall name :: name in namespaces ==> NoDup(namespaces[name])
    ensures result == PutAll(m, AccountWrites(accounts, order))
    ensures NoDup(order) && Grouped(order)
    ensures forall p :: p in order <==> p.0 in namespaces && p.1 in namespaces[p.0]
  {
    hide AccountWrites, Grouped, NoDup, PairsOf, PutAll;
    result, order := m, [];
    NothingGrouped(m, accounts);
    var names := namespaces.Keys;
    while names != {}
      invariant names <= namespaces.Keys
      invariant result == PutAll(m, AccountWrites(accounts, order))
      invariant NoDup(order) && Grouped(order)
      invariant forall p :: p in order <==> p.0 in namespaces.Keys - names && p.1 in namespaces[p.0]
      decreases names
    {
      var name :| name in names;
      ghost var own := PairsOf(name, namespaces[name]);
      PairsAppended(order, name, namespaces[name]);
      AccountWritesConcat(accounts, order, own);
      PutAllConcat(m, AccountWrites(accounts, order), AccountWrites(accounts, own));
      result := SetAccount(result, accounts, name, namespaces[name]);
      order := order + own;
      names := names - {name};
    }
  }

  lemma PutAllSnoc(m: ResultMap, ws: seq<Write>, w: Write)
    ensures PutAll(m, ws + [w]) == Put(PutAll(m, ws), w)
  {
    assert (ws + [w])[..|ws|] == ws;
  }

  /** All objects of a config. The only freedom is the order in which Go ranges over
    * the used (account, namespace) pairs, account by account. */
  method Generate(c: Config) returns (result: ResultMap)
    ensures exists order :: Enumerates(order, UsedAccounts(c)) && Grouped(order) && result == Generated(c, order)
  {
    hide PutAll, UsedAccounts, AccountWrites, Grouped;
    ghost var order;
    result := GenerateNamespaces(c.namespaces);
    var namespaces := CollectServiceAccountNamespaces(c);
    result, order := SetAccounts(result, c.accounts, namespaces);
    var d := c.ingressDefaults;
    ghost var sofar := NamespaceWrites(Distinct(c.namespaces)) + AccountWrites(c.accounts, order);
    PutAllConcat(map[], NamespaceWrites(Distinct(c.namespaces)), AccountWrites(c.accounts, order));
    result := AddNamed(result, c);
    PutAllConcat(map[], sofar, NamedWrites(c));
    result := AddPrefixed(result, c);
    PutAllConcat(map[], sofar + NamedWrites(c), PrefixedWrites(c));
    result := SetCluster(result, c);
    PutAllConcat(map[], sofar + NamedWrites(c) + PrefixedWrites(c), ClusterWrites(c));
    assert Enumerates(order, UsedAccounts(c)) && Grouped(order) && result == Generated(c, order);
  }

  method AddNamed(m: ResultMap, c: Config) returns (result: ResultMap)
    ensures result == PutAll(m, NamedWrites(c))
  {
    hide PutAll;
    ghost var a, b := DeploymentWrites(c.deployments, ModeOf(c.ingressDefaults)), DaemonSetWrites(c.daemonSets);
    ghost var s, j := StatefulSetWrites(c.statefulSets, ModeOf(c.ingressDefaults)), CronJobWrites(c.cronJobs);
    PutAllConcat(m, a, b);
    PutAllConcat(m, a + b, s);
    PutAllConcat(m, a + b + s, j);
    result := AddDeployments(m, c.deployments, c.ingressDefaults);
    result := AddDaemonSets(result, c.daemonSets);
    result := AddStatefulSets(result, c.statefulSets, c.ingressDefaults);
    result := AddCronJobs(result, c.cronJobs);
  }

  method AddPrefixed(m: ResultMap, c: Config) returns (result: ResultMap)
    ensures result == PutAll(m, PrefixedWrites(c))
  {
    hide PutAll;
    ghost var a := PlainWrites("configmap-", "ConfigMap", c.configMaps);
    ghost var b := IngressWrites(c.ingresses, ModeOf(c.ingressDefaults));
    ghost var s := PlainWrites("secret-", "Secret", c.secrets);
    ghost var t := PlainWrites("sealedsecret-", "SealedSecret", c.sealedSecrets);
    PutAllConcat(m, a, b);
    PutAllConcat(m, a + b, s);
    PutAllConcat(m, a + b + s, t);
    PutAllConcat(m, a + b + s + t, PlainWrites("pvc-", "PersistentVolumeClaim", c.claims));
    result := AddPlain(m, "configmap-", "ConfigMap", c.configMaps);
    result := AddIngresses(result, c.ingresses, c.ingressDefaults);
    result := AddPlain(result, "secret-", "Secret", c.secrets);
    result := AddPlain(result, "sealedsecret-", "SealedSecret", c.sealedSecrets);
    result := AddPlain(result, "pvc-", "PersistentVolumeClaim", c.claims);
  }

  method SetCluster(m: ResultMap, c: Config) returns (result: ResultMap)
    ensures result == PutAll(m, ClusterWrites(c))
  {
    hide PutAll;
    ghost var a, b := ScopelessWrites("clusterrole-", "ClusterRole", c.clusterRoles),
                      ScopelessWrites("clusterrolebinding-", "ClusterRoleBinding", c.clusterRoleBindings);
    ghost var s := ScopelessWrites("crd-", "CustomResourceDefinition", c.crds);
    PutAllConcat(m, a, b);
    PutAllConcat(m, a + b, s);
    PutAllConcat(m, a + b + s, ScopelessWrites("csidriver-", "CSIDriver", c.csiDrivers));
    result := SetScopeless(m, "clusterrole-", "ClusterRole", c.clusterRoles);
    result := SetScopeless(result, "clusterrolebinding-", "ClusterRoleBinding", c.clusterRoleBindings);
    result := SetScopeless(result, "crd-", "CustomResourceDefinition", c.crds);
    result := SetScopeless(result, "csidriver-", "CSIDriver", c.csiDrivers);
  }
}
