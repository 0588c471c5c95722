/** Loading: files and sub-projects merged into one config, checked as they come in. */
module Loader {
  import opened Options
  import opened Blocks
  import opened IngressDefaulting

  // ------------------------------------------------------- pure counterparts

  /** a with every block of b added; its own namespaces, accounts and defaults stay. */
  function Appended(a: Config, b: Config): Config
  {
    Config(a.deployments + b.deployments, a.daemonSets + b.daemonSets, a.statefulSets + b.statefulSets,
           a.cronJobs + b.cronJobs, a.configMaps + b.configMaps, a.ingresses + b.ingresses,
           a.secrets + b.secrets, a.sealedSecrets + b.sealedSecrets, a.claims + b.claims,
           a.clusterRoles + b.clusterRoles, a.clusterRoleBindings + b.clusterRoleBindings,
           a.crds + b.crds, a.csiDrivers + b.csiDrivers, a.namespaces, a.accounts, a.ingressDefaults)
  }

  function NamespacedWorkloads(ws: seq<Workload>, ns: string): (r: seq<Workload>)
    ensures |r| == |ws|
  {
    seq(|ws|, i requires 0 <= i < |ws| => if ws[i].namespace == "" then ws[i].(namespace := ns) else ws[i])
  }

  function NamespacedCronJobs(cs: seq<CronJob>, ns: string): (r: seq<CronJob>)
    ensures |r| == |cs|
  {
    seq(|cs|, i requires 0 <= i < |cs| => if cs[i].namespace == "" then cs[i].(namespace := ns) else cs[i])
  }

  function NamespacedPlain(ps: seq<Plain>, ns: string): (r: seq<Plain>)
    ensures |r| == |ps|
  {
    seq(|ps|, i requires 0 <= i < |ps| => if ps[i].namespace == "" then ps[i].(namespace := ns) else ps[i])
  }

  function NamespacedIngresses(ings: seq<Ingress>, ns: string): (r: seq<Ingress>)
    ensures |r| == |ings|
  {
    seq(|ings|, i requires 0 <= i < |ings| => if ings[i].namespace == "" then ings[i].(namespace := ns) else ings[i])
  }

  function Namespaced(c: Config, ns: string): Config
  {
    c.(deployments := NamespacedWorkloads(c.deployments, ns),
       daemonSets := NamespacedWorkloads(c.daemonSets, ns),
       statefulSets := NamespacedWorkloads(c.statefulSets, ns),
       cronJobs := NamespacedCronJobs(c.cronJobs, ns),
       configMaps := NamespacedPlain(c.configMaps, ns),
       ingresses := NamespacedIngresses(c.ingresses, ns),
       secrets := NamespacedPlain(c.secrets, ns),
       sealedSecrets := NamespacedPlain(c.sealedSecrets, ns),
       claims := NamespacedPlain(c.claims, ns))
  }

  function AccountedWorkloads(ws: seq<Workload>, sa: string): (r: seq<Workload>)
    ensures |r| == |ws|
  {
    seq(|ws|, i requires 0 <= i < |ws| => if ws[i].serviceAccount == "" then ws[i].(serviceAccount := sa) else ws[i])
  }

  function AccountedCronJobs(cs: seq<CronJob>, sa: string): (r: seq<CronJob>)
    ensures |r| == |cs|
  {
    seq(|cs|, i requires 0 <= i < |cs| => if cs[i].serviceAccount == "" then cs[i].(serviceAccount := sa) else cs[i])
  }

  function Accounted(c: Config, sa: string): Config
  {
    c.(deployments := AccountedWorkloads(c.deployments, sa),
       daemonSets := AccountedWorkloads(c.daemonSets, sa),
       statefulSets := AccountedWorkloads(c.statefulSets, sa),
       cronJobs := AccountedCronJobs(c.cronJobs, sa))
  }

  function WithOwnDefaults(c: Config): Config
  {
    if c.ingressDefaults.None? then c else Defaulted(c, c.ingressDefaults.value)
  }

  // ---------------------------------------------------------- in-place loops

  method SetNamespaces(ws: seq<Workload>, ns: string) returns (r: seq<Workload>)
    ensures r == NamespacedWorkloads(ws, ns)
  {
    r := ws;
    for i := 0 to |ws|
      invariant |r| == |ws| && r[i..] == ws[i..]
      invariant r[..i] == NamespacedWorkloads(ws, ns)[..i]
    {
      assert r[i] == r[i..][0] == ws[i];
      if r[i].namespace == "" { r := r[i := r[i].(namespace := ns)]; }
    }
  }

  method SetCronJobNamespaces(cs: seq<CronJob>, ns: string) returns (r: seq<CronJob>)
    ensures r == NamespacedCronJobs(cs, ns)
  {
    r := cs;
    for i := 0 to |cs|
      invariant |r| == |cs| && r[i..] == cs[i..]
      invariant r[..i] == NamespacedCronJobs(cs, ns)[..i]
    {
      assert r[i] == r[i..][0] == cs[i];
      if r[i].namespace == "" { r := r[i := r[i].(namespace := ns)]; }
    }
  }

  method SetPlainNamespaces(ps: seq<Plain>, ns: string) returns (r: seq<Plain>)
    ensures r == NamespacedPlain(ps, ns)
  {
    r := ps;
    for i := 0 to |ps|
      invariant |r| == |ps| && r[i..] == ps[i..]
      invariant r[..i] == NamespacedPlain(ps, ns)[..i]
    {
      assert r[i] == r[i..][0] == ps[i];
      if r[i].namespace == "" { r := r[i := r[i].(namespace := ns)]; }
    }
  }

  method SetIngressNamespaces(ings: seq<Ingress>, ns: string) returns (r: seq<Ingress>)
    ensures r == NamespacedIngresses(ings, ns)
  {
    r := ings;
    for i := 0 to |ings|
      invariant |r| == |ings| && r[i..] == ings[i..]
      invariant r[..i] == NamespacedIngresses(ings, ns)[..i]
    {
      assert r[i] == r[i..][0] == ings[i];
      if r[i].namespace == "" { r := r[i := r[i].(namespace := ns)]; }
    }
  }

  method SetAccounts(ws: seq<Workload>, sa: string) returns (r: seq<Workload>)
    ensures r == AccountedWorkloads(ws, sa)
  {
    r := ws;
    for i := 0 to |ws|
      invariant |r| == |ws| && r[i..] == ws[i..]
      invariant r[..i] == AccountedWorkloads(ws, sa)[..i]
    {
      assert r[i] == r[i..][0] == ws[i];
      if r[i].serviceAccount == "" { r := r[i := r[i].(serviceAccount := sa)]; }
    }
  }

  method SetCronJobAccounts(cs: seq<CronJob>, sa: string) returns (r: seq<CronJob>)
    ensures r == AccountedCronJobs(cs, sa)
  {
    r := cs;
    for i := 0 to |cs|
      invariant |r| == |cs| && r[i..] == cs[i..]
      invariant r[..i] == AccountedCronJobs(cs, sa)[..i]
    {
      assert r[i] == r[i..][0] == cs[i];
      if r[i].serviceAccount == "" { r := r[i := r[i].(serviceAccount := sa)]; }
    }
  }

  method DefaultIngresses(ings: seq<Ingress>, d: IngressDefaults) returns (r: seq<Ingress>)
    ensures r == IngressesWithDefaults(ings, d)
  {
    hide WithDefaults;
    r := ings;
    for i := 0 to |ings|
      invariant |r| == |ings| && r[i..] == ings[i..]
      invariant r[..i] == IngressesWithDefaults(ings, d)[..i]
    {
      assert r[i] == r[i..][0] == ings[i];
      r := r[i := WithDefaults(r[i], d)];
    }
  }

  method DefaultWorkloads(ws: seq<Workload>, d: IngressDefaults) returns (r: seq<Workload>)
    ensures r == WorkloadsWithDefaults(ws, d)
  {
    hide IngressesWithDefaults;
    r := ws;
    for i := 0 to |ws|
      invariant |r| == |ws| && r[i..] == ws[i..]
      invariant r[..i] == WorkloadsWithDefaults(ws, d)[..i]
    {
      assert r[i] == r[i..][0] == ws[i];
      var ings := DefaultIngresses(r[i].ingresses, d);
      r := r[i := r[i].(ingresses := ings)];
    }
  }

  /** The config that a load builds up. */
  class KdefConfig {
    var deployments: seq<Workload>
    var daemonSets: seq<Workload>
    var statefulSets: seq<Workload>
    var cronJobs: seq<CronJob>
    var configMaps: seq<Plain>
    var ingresses: seq<Ingress>
    var secrets: seq<Plain>
    var sealedSecrets: seq<Plain>
    var claims: seq<Plain>
    var clusterRoles: seq<Scopeless>
    var clusterRoleBindings: seq<Scopeless>
    var crds: seq<Scopeless>
    var csiDrivers: seq<Scopeless>
    var namespaces: seq<string>
    var accounts: seq<Account>
    var ingressDefaults: Option<IngressDefaults>

    function Snapshot(): Config
      reads this
    {
      Config(deployments, daemonSets, statefulSets, cronJobs, configMaps, ingresses, secrets, sealedSecrets, claims,
             clusterRoles, clusterRoleBindings, crds, csiDrivers, namespaces, accounts, ingressDefaults)
    }

    constructor (namespaces: seq<string>, accounts: seq<Account>, defaults: Option<IngressDefaults>)
      ensures Snapshot() == EMPTY.(namespaces := namespaces, accounts := accounts, ingressDefaults := defaults)
    {
      deployments, daemonSets, statefulSets, cronJobs := [], [], [], [];
      configMaps, ingresses, secrets, sealedSecrets, claims := [], [], [], [], [];
      clusterRoles, clusterRoleBindings, crds, csiDrivers := [], [], [], [];
      this.namespaces, this.accounts, ingressDefaults := namespaces, accounts, defaults;
    }

    constructor Of(c: Config)
      ensures Snapshot() == c
    {
      deployments, daemonSets, statefulSets, cronJobs := c.deployments, c.daemonSets, c.statefulSets, c.cronJobs;
      configMaps, ingresses, secrets := c.configMaps, c.ingresses, c.secrets;
      sealedSecrets, claims := c.sealedSecrets, c.claims;
      clusterRoles, clusterRoleBindings, crds, csiDrivers := c.clusterRoles, c.clusterRoleBindings, c.crds, c.csiDrivers;
      namespaces, accounts, ingressDefaults := c.namespaces, c.accounts, c.ingressDefaults;
    }

    method AppendWorkloads(other: Config)
      modifies this`deployments, this`daemonSets, this`statefulSets, this`cronJobs
      ensures deployments == old(deployments) + other.deployments
      ensures daemonSets == old(daemonSets) + other.daemonSets
      ensures statefulSets == old(statefulSets) + other.statefulSets
      ensures cronJobs == old(cronJobs) + other.cronJobs
    {
      cronJobs := cronJobs + other.cronJobs;
      deployments := deployments + other.deployments;
      daemonSets := daemonSets + other.daemonSets;
      statefulSets := statefulSets + other.statefulSets;
    }

    method AppendNamespaced(other: Config)
      modifies this`configMaps, this`ingresses, this`secrets, this`sealedSecrets, this`claims
      ensures configMaps == old(configMaps) + other.configMaps
      ensures ingresses == old(ingresses) + other.ingresses
      ensures secrets == old(secrets) + other.secrets
      ensures sealedSecrets == old(sealedSecrets) + other.sealedSecrets
      ensures claims == old(claims) + other.claims
    {
      configMaps := configMaps + other.configMaps;
      ingresses := ingresses + other.ingresses;
      secrets := secrets + other.secrets;
      sealedSecrets := sealedSecrets + other.sealedSecrets;
      claims := claims + other.claims;
    }

    method AppendScopeless(other: Config)
      modifies this`clusterRoles, this`clusterRoleBindings, this`crds, this`csiDrivers
      ensures clusterRoles == old(clusterRoles) + other.clusterRoles
      ensures clusterRoleBindings == old(clusterRoleBindings) + other.clusterRoleBindings
      ensures crds == old(crds) + other.crds
      ensures csiDrivers == old(csiDrivers) + other.csiDrivers
    {
      clusterRoles := clusterRoles + other.clusterRoles;
      clusterRoleBindings := clusterRoleBindings + other.clusterRoleBindings;
      crds := crds + other.crds;
      csiDrivers := csiDrivers + other.csiDrivers;
    }

    method Append(other: Config)
      modifies this
      ensures Snapshot() == Appended(old(Snapshot()), other)
    {
      AppendWorkloads(other);
      AppendNamespaced(other);
      AppendScopeless(other);
    }

    /** Fills the config's defaults into every ingress block. */
    method ApplyIngressDefaults()
      modifies this
      ensures Snapshot() == WithOwnDefaults(old(Snapshot()))
    {
      if ingressDefaults.Some? {
        var d := ingressDefaults.value;
        deployments := DefaultWorkloads(deployments, d);
        statefulSets := DefaultWorkloads(statefulSets, d);
        ingresses := DefaultIngresses(ingresses, d);
      }
    }

    method InjectWorkloadNamespaces(ns: string)
      modifies this`deployments, this`daemonSets, this`statefulSets, this`cronJobs
      ensures deployments == NamespacedWorkloads(old(deployments), ns)
      ensures daemonSets == NamespacedWorkloads(old(daemonSets), ns)
      ensures statefulSets == NamespacedWorkloads(old(statefulSets), ns)
      ensures cronJobs == NamespacedCronJobs(old(cronJobs), ns)
    {
      hide NamespacedWorkloads, NamespacedCronJobs;
      deployments := SetNamespaces(deployments, ns);
      daemonSets := SetNamespaces(daemonSets, ns);
      statefulSets := SetNamespaces(statefulSets, ns);
      cronJobs := SetCronJobNamespaces(cronJobs, ns);
    }

    method InjectPlainNamespaces(ns: string)
      modifies this`configMaps, this`ingresses, this`secrets, this`sealedSecrets, this`claims
      ensures configMaps == NamespacedPlain(old(configMaps), ns)
      ensures ingresses == NamespacedIngresses(old(ingresses), ns)
      ensures secrets == NamespacedPlain(old(secrets), ns)
      ensures sealedSecrets == NamespacedPlain(old(sealedSecrets), ns)
      ensures claims == NamespacedPlain(old(claims), ns)
    {
      hide NamespacedPlain, NamespacedIngresses;
      configMaps := SetPlainNamespaces(configMaps, ns);
      ingresses := SetIngressNamespaces(ingresses, ns);
      secrets := SetPlainNamespaces(secrets, ns);
      sealedSecrets := SetPlainNamespaces(sealedSecrets, ns);
      claims := SetPlainNamespaces(claims, ns);
    }

    /** Gives every block without a namespace the given one. */
    method InjectNamespace(ns: string)
      modifies this
      ensures Snapshot() == Namespaced(old(Snapshot()), ns)
    {
      hide NamespacedWorkloads, NamespacedCronJobs, NamespacedPlain, NamespacedIngresses;
      InjectWorkloadNamespaces(ns);
      InjectPlainNamespaces(ns);
    }

    method InjectServiceAccount(sa: string)
      modifies this
      ensures Snapshot() == Accounted(old(Snapshot()), sa)
    {
      hide AccountedWorkloads, AccountedCronJobs;
      deployments := SetAccounts(deployments, sa);
      daemonSets := SetAccounts(daemonSets, sa);
      statefulSets := SetAccounts(statefulSets, sa);
      cronJobs := SetCronJobAccounts(cronJobs, sa);
    }
  }
}
