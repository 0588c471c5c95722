/** Parsed configuration blocks, as far as identities, namespaces and ingress
  * settings are concerned. Attributes the generators merely copy are the `body`. */
module Blocks {
  import opened Options
  import opened Text
  import opened Seqs

  /** Cluster objects and declared resources are both told apart by this triple. */
  datatype Key = Key(kind: string, namespace: string, name: string)

  datatype Service = Service(name: string)

  datatype Ingress = Ingress(
    name: string,
    namespace: string,
    serviceName: string,
    host: string,
    hosts: seq<string>,
    tls: bool,
    tlsSecret: string,
    issuer: string,
    className: string,
    annotations: map<string, string>)

  /** A deployment, daemonset or statefulset; daemonsets carry neither ingresses
    * nor autoscaling, statefulsets no autoscaling. */
  datatype Workload = Workload(
    name: string,
    namespace: string,
    serviceAccount: string,
    service: Option<Service>,
    ingresses: seq<Ingress>,
    autoscale: bool,
    body: string)

  datatype CronJob = CronJob(name: string, namespace: string, serviceAccount: string, body: string)

  /** A configmap, secret, sealedsecret or persistentvolumeclaim. */
  datatype Plain = Plain(name: string, namespace: string, body: string)

  /** A clusterrole, clusterrolebinding, crd or csidriver. */
  datatype Scopeless = Scopeless(name: string, body: string)

  datatype Account = Account(name: string, namespace: string, pullSecrets: seq<string>)

  datatype IngressDefaults = IngressDefaults(
    annotations: map<string, string>,
    tls: Option<bool>,
    tlsSecret: string,
    issuer: string,
    className: string,
    mode: string)

  datatype Config = Config(
    deployments: seq<Workload>,
    daemonSets: seq<Workload>,
    statefulSets: seq<Workload>,
    cronJobs: seq<CronJob>,
    configMaps: seq<Plain>,
    ingresses: seq<Ingress>,
    secrets: seq<Plain>,
    sealedSecrets: seq<Plain>,
    claims: seq<Plain>,
    clusterRoles: seq<Scopeless>,
    clusterRoleBindings: seq<Scopeless>,
    crds: seq<Scopeless>,
    csiDrivers: seq<Scopeless>,
    namespaces: seq<string>,
    accounts: seq<Account>,
    ingressDefaults: Option<IngressDefaults>)

  const EMPTY := Config([], [], [], [], [], [], [], [], [], [], [], [], [], [], [], None)

  // ---------------------------------------------------------- ingress names

  function DistinctHostList(s: seq<string>): seq<string>
  {
    if s == [] then []
    else
      var n := |s| - 1;
      var r := DistinctHostList(s[..n]);
      if s[n] == "" || s[n] in r then r else r + [s[n]]
  }

  /** Host, then hosts, in order, each non-empty one once. */
  function AllHosts(ing: Ingress): seq<string>
  {
    DistinctHostList([ing.host] + ing.hosts)
  }

  method CollectHosts(ing: Ingress) returns (hosts: seq<string>)
    ensures hosts == AllHosts(ing)
  {
    var all := [ing.host] + ing.hosts;
    var seen: set<string> := {};
    hosts := [];
    for i := 0 to |all|
      invariant hosts == DistinctHostList(all[..i])
      invariant seen == set h | h in hosts
    {
      assert all[..i + 1][..i] == all[..i];
      if all[i] != "" && all[i] !in seen {
        seen := seen + {all[i]};
        hosts := hosts + [all[i]];
      }
    }
    assert all[..|all|] == all;
  }

  lemma {:induction false} DistinctHosts(s: seq<string>)
    ensures NoDup(DistinctHostList(s))
    ensures forall h :: h in DistinctHostList(s) <==> h in s && h != ""
  {
    if s != [] {
      var n := |s| - 1;
      DistinctHosts(s[..n]);
      assert s == s[..n] + [s[n]];
      NoDupSnoc(DistinctHostList(s[..n]), s[n]);
    }
  }

  lemma {:induction false} DistinctHostsGrow(s: seq<string>, t: seq<string>)
    ensures DistinctHostList(s) <= DistinctHostList(s + t)
  {
    if t == [] {
      assert s + t == s;
    } else {
      assert (s + t)[..|s + t| - 1] == s + t[..|t| - 1];
      DistinctHostsGrow(s, t[..|t| - 1]);
    }
  }

  /** Every non-empty host once; and in declaration order, so that hosts declared later
    * leave the ones before them, the first one above all, where they are. */
  lemma AllHostsIs(ing: Ingress, more: seq<string>)
    ensures NoDup(AllHosts(ing))
    ensures forall h :: h in AllHosts(ing) <==> h != "" && (h == ing.host || h in ing.hosts)
    ensures AllHosts(ing) <= AllHosts(ing.(hosts := ing.hosts + more))
  {
    DistinctHosts([ing.host] + ing.hosts);
    DistinctHostsGrow([ing.host] + ing.hosts, more);
    assert [ing.host] + ing.hosts + more == [ing.host] + (ing.hosts + more);
  }

  /** The Ingress name of the index-th block of a workload. */
  function ResourceName(ing: Ingress, workload: string, index: nat): string
  {
    if ing.name != "" then ing.name
    else if index == 0 then workload
    else workload + "-" + Decimal(index + 1)
  }

  /** The secret a generated Certificate fills, or "" when none is generated. */
  function CertificateSecretName(ing: Ingress): string
  {
    if !ing.tls || ing.tlsSecret != "" then ""
    else if AllHosts(ing) == [] then ""
    else Replaced(AllHosts(ing)[0], '.', '-') + "-tls"
  }

  /** Unnamed blocks of one workload never share a name. */
  lemma UnnamedApart(x: Ingress, y: Ingress, workload: string, i: nat, j: nat)
    requires x.name == "" && y.name == ""
    ensures ResourceName(x, workload, i) == ResourceName(y, workload, j) <==> i == j
  {
    var a, b := ResourceName(x, workload, i), ResourceName(y, workload, j);
    if a == b && i > 0 && j > 0 {
      assert a[|workload| + 1..] == Decimal(i + 1) && b[|workload| + 1..] == Decimal(j + 1);
      DecimalInjective(i + 1, j + 1);
    }
  }

  /** Two generated certificates fill one secret exactly when the blocks' first hosts differ at
    * most in dots against dashes. */
  lemma SecretsMeet(x: Ingress, y: Ingress)
    requires CertificateSecretName(x) != "" && CertificateSecretName(y) != ""
    ensures AllHosts(x) != [] && AllHosts(y) != []
    ensures var g, h := AllHosts(x)[0], AllHosts(y)[0];
            CertificateSecretName(x) == CertificateSecretName(y) <==>
            |g| == |h| && forall k :: 0 <= k < |g| ==> g[k] == h[k] || (g[k] in ".-" && h[k] in ".-")
  {
    hide AllHosts;
    var g, h := AllHosts(x)[0], AllHosts(y)[0];
    var p, q := Replaced(g, '.', '-'), Replaced(h, '.', '-');
    forall k | 0 <= k < |g| ensures p[k] == if g[k] == '.' then '-' else g[k] { ReplacedAt(g, '.', '-', k); }
    forall k | 0 <= k < |h| ensures q[k] == if h[k] == '.' then '-' else h[k] { ReplacedAt(h, '.', '-', k); }
    assert (p + "-tls")[..|g|] == p && (q + "-tls")[..|h|] == q;
    if |g| == |h| && forall k :: 0 <= k < |g| ==> g[k] == h[k] || (g[k] in ".-" && h[k] in ".-") {
      assert p == q;
    }
  }

  /** The Service a workload generates. */
  function ServiceName(w: Workload): string
    requires w.service.Some?
  {
    if w.service.value.name != "" then w.service.value.name else w.name
  }

  // ---------------------------------------------------- groups of identities

  /** (namespace, name) pairs under one kind. */
  datatype Group = Group(kind: string, pairs: seq<(string, string)>)

  function Label(kind: string, pairs: seq<(string, string)>): (r: seq<Key>)
    ensures |r| == |pairs|
  {
    seq(|pairs|, i requires 0 <= i < |pairs| => Key(kind, pairs[i].0, pairs[i].1))
  }

  function AllKeys(groups: seq<Group>): seq<Key>
  {
    if groups == [] then [] else Label(groups[0].kind, groups[0].pairs) + AllKeys(groups[1..])
  }

  lemma LabelNoDup(kind: string, pairs: seq<(string, string)>)
    ensures NoDup(Label(kind, pairs)) <==> NoDup(pairs)
  {
    var keys := Label(kind, pairs);
    if NoDup(keys) {
      forall i, j | 0 <= i < j < |pairs| ensures pairs[i] != pairs[j] { assert keys[i] != keys[j]; }
    }
    if NoDup(pairs) {
      forall i, j | 0 <= i < j < |keys| ensures keys[i] != keys[j] { assert pairs[i] != pairs[j]; }
    }
  }

  lemma LabelConcat(kind: string, a: seq<(string, string)>, b: seq<(string, string)>)
    ensures Label(kind, a + b) == Label(kind, a) + Label(kind, b)
  {
  }

  lemma {:induction false} OtherKinds(groups: seq<Group>, kind: string)
    requires forall i :: 0 <= i < |groups| ==> groups[i].kind != kind
    ensures forall k :: k in AllKeys(groups) ==> k.kind != kind
  {
    if groups != [] {
      OtherKinds(groups[1..], kind);
    }
  }

  /** With one group a kind, identities repeat only inside a group. */
  lemma {:induction false} AllKeysNoDup(groups: seq<Group>)
    requires forall i, j :: 0 <= i < j < |groups| ==> groups[i].kind != groups[j].kind
    ensures NoDup(AllKeys(groups)) <==> forall i :: 0 <= i < |groups| ==> NoDup(groups[i].pairs)
  {
    if groups != [] {
      var head, rest := groups[0], groups[1..];
      AllKeysNoDup(rest);
      LabelNoDup(head.kind, head.pairs);
      NoDupConcat(Label(head.kind, head.pairs), AllKeys(rest));
      forall i | 0 <= i < |rest| ensures rest[i].kind != head.kind { assert rest[i] == groups[i + 1]; }
      OtherKinds(rest, head.kind);
      if forall i :: 0 <= i < |groups| ==> NoDup(groups[i].pairs) {
        forall i | 0 <= i < |rest| ensures NoDup(rest[i].pairs) { assert rest[i] == groups[i + 1]; }
      }
      if NoDup(head.pairs) && forall i :: 0 <= i < |rest| ==> NoDup(rest[i].pairs) {
        forall i | 0 <= i < |groups| ensures NoDup(groups[i].pairs) {
          if i > 0 { assert groups[i] == rest[i - 1]; }
        }
      }
    }
  }

  function WorkloadPairs(ws: seq<Workload>): seq<(string, string)>
  {
    if ws == [] then [] else [(ws[0].namespace, ws[0].name)] + WorkloadPairs(ws[1..])
  }

  function ServicePairs(ws: seq<Workload>): seq<(string, string)>
  {
    if ws == [] then []
    else (if ws[0].service.Some? then [(ws[0].namespace, ServiceName(ws[0]))] else []) + ServicePairs(ws[1..])
  }

  lemma WorkloadsSplit(ws: seq<Workload>)
    requires ws != []
    ensures WorkloadPairs(ws) == WorkloadPairs([ws[0]]) + WorkloadPairs(ws[1..])
  {
    assert [ws[0]][1..] == [];
  }

  lemma ServicesSplit(ws: seq<Workload>)
    requires ws != []
    ensures ServicePairs(ws) == ServicePairs([ws[0]]) + ServicePairs(ws[1..])
  {
    hide ServiceName;
    assert [ws[0]][1..] == [];
  }

  function CronJobPairs(cs: seq<CronJob>): seq<(string, string)>
  {
    if cs == [] then [] else [(cs[0].namespace, cs[0].name)] + CronJobPairs(cs[1..])
  }

  function PlainPairs(ps: seq<Plain>): seq<(string, string)>
  {
    if ps == [] then [] else [(ps[0].namespace, ps[0].name)] + PlainPairs(ps[1..])
  }

  function ScopelessPairs(ss: seq<Scopeless>): seq<(string, string)>
  {
    if ss == [] then [] else [("", ss[0].name)] + ScopelessPairs(ss[1..])
  }

  function IngressPairs(ings: seq<Ingress>): seq<(string, string)>
  {
    if ings == [] then [] else [(ings[0].namespace, ings[0].name)] + IngressPairs(ings[1..])
  }
}
