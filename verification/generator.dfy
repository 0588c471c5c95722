/** From a loaded config to Kubernetes objects, one result list per block name. */
module Generator {
  import opened Options
  import opened Blocks
  import opened IngressChecks

  /** The block an object is computed from. */
  datatype Origin =
    | OfNamespace
    | OfAccount(account: Account)
    | OfWorkload(workload: Workload)
    | OfCronJob(cronJob: CronJob)
    | OfPlain(plain: Plain)
    | OfScopeless(scopeless: Scopeless)
    | OfIngress(ingress: Ingress, app: string)

  datatype Manifest = Manifest(kind: string, namespace: string, name: string, origin: Origin)

  function KeyOf(m: Manifest): Key
  {
    Key(m.kind, m.namespace, m.name)
  }

  // ------------------------------------------------------------- one block

  function RouteKind(mode: string): string
  {
    if mode == "gateway" then "HTTPRoute" else "Ingress"
  }

  function ModeOf(defaults: Option<IngressDefaults>): string
  {
    if defaults.None? then "" else defaults.value.mode
  }

  /** The Ingress or HTTPRoute, if there are hosts; its name falls back on the app. */
  function Route(ing: Ingress, app: string, namespace: string, mode: string): seq<Manifest>
  {
    if AllHosts(ing) == [] then []
    else [Manifest(RouteKind(mode), namespace, if ing.name != "" then ing.name else app, OfIngress(ing, app))]
  }

  function Certificate(ing: Ingress, app: string, namespace: string): seq<Manifest>
  {
    var secret := CertificateSecretName(ing);
    if secret == "" then [] else [Manifest("Certificate", namespace, secret, OfIngress(ing, app))]
  }

  /** The name a block's app goes by: the workload, or for a top-level block its
    * backend service, or else its own name. */
  function AppName(s: Slot): string
  {
    match s.place
    case Nested(_, workload, _) => workload
    case TopLevel(name) => if s.ingress.serviceName != "" then s.ingress.serviceName else s.ingress.name
  }

  function SlotManifests(s: Slot, mode: string): seq<Manifest>
  {
    var ing := s.ingress.(name := s.name);
    Route(ing, AppName(s), s.namespace, mode) + Certificate(ing, AppName(s), s.namespace)
  }

  function SlotsManifests(slots: seq<Slot>, mode: string): seq<Manifest>
  {
    if slots == [] then []
    else SlotsManifests(slots[..|slots| - 1], mode) + SlotManifests(slots[|slots| - 1], mode)
  }

  function WorkloadManifest(kind: string, w: Workload): seq<Manifest>
  {
    [Manifest(kind, w.namespace, w.name, OfWorkload(w))]
  }

  function ServiceManifest(w: Workload): seq<Manifest>
  {
    if w.service.None? then [] else [Manifest("Service", w.namespace, ServiceName(w), OfWorkload(w))]
  }

  function ScalerManifest(w: Workload): seq<Manifest>
  {
    if !w.autoscale then [] else [Manifest("HorizontalPodAutoscaler", w.namespace, w.name, OfWorkload(w))]
  }

  function DeploymentManifests(w: Workload, mode: string): seq<Manifest>
  {
    WorkloadManifest("Deployment", w) + ServiceManifest(w)
    + SlotsManifests(NestedSlots("deployment", w), mode) + ScalerManifest(w)
  }

  function DaemonSetManifests(w: Workload): seq<Manifest>
  {
    WorkloadManifest("DaemonSet", w) + ServiceManifest(w)
  }

  function StatefulSetManifests(w: Workload, mode: string): seq<Manifest>
  {
    WorkloadManifest("StatefulSet", w) + ServiceManifest(w) + SlotsManifests(NestedSlots("statefulset", w), mode)
  }

  lemma NestedSlotManifests(kind: string, w: Workload, i: nat, mode: string)
    requires i < |w.ingresses|
    ensures var ing := w.ingresses[i].(name := ResourceName(w.ingresses[i], w.name, i));
            SlotManifests(NestedSlots(kind, w)[i], mode) ==
            Route(ing, w.name, w.namespace, mode) + Certificate(ing, w.name, w.namespace)
  {
    hide Route, Certificate, ResourceName;
  }

  method GenerateIngresses(kind: string, w: Workload, defaults: Option<IngressDefaults>, into: seq<Manifest>)
    returns (manifests: seq<Manifest>)
    ensures manifests == into + SlotsManifests(NestedSlots(kind, w), ModeOf(defaults))
  {
    hide SlotManifests, Route, Certificate, NestedSlots, ResourceName;
    manifests := into;
    ghost var slots := NestedSlots(kind, w);
    var i := 0;
    while i < |w.ingresses|
      invariant 0 <= i <= |w.ingresses|
      invariant manifests == into + SlotsManifests(slots[..i], ModeOf(defaults))
    {
      assert slots[..i + 1][..i] == slots[..i];
      var ing := w.ingresses[i].(name := ResourceName(w.ingresses[i], w.name, i));
      NestedSlotManifests(kind, w, i, ModeOf(defaults));
      manifests := manifests + Route(ing, w.name, w.namespace, ModeOf(defaults));
      manifests := manifests + Certificate(ing, w.name, w.namespace);
      i := i + 1;
    }
    assert slots[..i] == slots;
  }

  method GenerateDeployment(w: Workload, defaults: Option<IngressDefaults>) returns (manifests: seq<Manifest>)
    ensures manifests == DeploymentManifests(w, ModeOf(defaults))
  {
    hide SlotsManifests, NestedSlots;
    manifests := [Manifest("Deployment", w.namespace, w.name, OfWorkload(w))];
    if w.service.Some? {
      var name := w.name;
      if w.service.value.name != "" { name := w.service.value.name; }
      manifests := manifests + [Manifest("Service", w.namespace, name, OfWorkload(w))];
    }
    manifests := GenerateIngresses("deployment", w, defaults, manifests);
    if w.autoscale {
      manifests := manifests + [Manifest("HorizontalPodAutoscaler", w.namespace, w.name, OfWorkload(w))];
    }
  }

  method GenerateDaemonSet(w: Workload) returns (manifests: seq<Manifest>)
    ensures manifests == DaemonSetManifests(w)
  {
    manifests := [Manifest("DaemonSet", w.namespace, w.name, OfWorkload(w))];
    if w.service.Some? {
      manifests := manifests + [Manifest("Service", w.namespace, ServiceName(w), OfWorkload(w))];
    }
  }

  method GenerateStatefulSet(w: Workload, defaults: Option<IngressDefaults>) returns (manifests: seq<Manifest>)
    ensures manifests == StatefulSetManifests(w, ModeOf(defaults))
  {
    hide SlotsManifests, NestedSlots, ServiceName;
    manifests := [Manifest("StatefulSet", w.namespace, w.name, OfWorkload(w))];
    if w.service.Some? {
      manifests := manifests + [Manifest("Service", w.namespace, ServiceName(w), OfWorkload(w))];
    }
    manifests := GenerateIngresses("statefulset", w, defaults, manifests);
  }

  method GenerateStandaloneIngress(ing: Ingress, defaults: Option<IngressDefaults>) returns (manifests: seq<Manifest>)
    ensures manifests == SlotManifests(TopLevelSlots([ing])[0], ModeOf(defaults))
  {
    var labelName := ing.serviceName;
    if labelName == "" { labelName := ing.name; }
    manifests := Route(ing, labelName, ing.namespace, ModeOf(defaults));
    manifests := manifests + Certificate(ing, labelName, ing.namespace);
  }

  // ------------------------------------------------------- service accounts

  /** Every (account, namespace) pair some workload or cronjob runs under. */
  function WorkloadUses(ws: seq<Workload>): set<(string, string)>
  {
    set w | w in ws && w.serviceAccount != "" :: (w.serviceAccount, w.namespace)
  }

  function CronJobUses(cs: seq<CronJob>): set<(string, string)>
  {
    set c | c in cs && c.serviceAccount != "" :: (c.serviceAccount, c.namespace)
  }

  function UsedAccounts(c: Config): set<(string, string)>
  {
    WorkloadUses(c.deployments) + WorkloadUses(c.daemonSets) + WorkloadUses(c.statefulSets) + CronJobUses(c.cronJobs)
  }

  /** The declaration for a pair: the first scoped one, else the last default one. */
  function Resolve(accounts: seq<Account>, name: string, namespace: string): Option<Account>
  {
    ResolveFrom(accounts, name, namespace, None)
  }

  function ResolveFrom(accounts: seq<Account>, name: string, namespace: string, fallback: Option<Account>): Option<Account>
  {
    if accounts == [] then fallback
    else
      var sa := accounts[0];
      if sa.name != name then ResolveFrom(accounts[1..], name, namespace, fallback)
      else if sa.namespace == namespace then Some(sa)
      else ResolveFrom(accounts[1..], name, namespace, if sa.namespace == "" then Some(sa) else fallback)
  }

  method ResolveServiceAccount(accounts: seq<Account>, name: string, namespace: string)
    returns (r: Option<Account>)
    ensures r == Resolve(accounts, name, namespace)
  {
    var fallback := None;
    var i := 0;
    while i < |accounts|
      invariant 0 <= i <= |accounts|
      invariant Resolve(accounts, name, namespace) == ResolveFrom(accounts[i..], name, namespace, fallback)
    {
      var sa := accounts[i];
      assert accounts[i..][1..] == accounts[i + 1..];
      if sa.name == name {
        if sa.namespace == namespace { return Some(sa); }
        if sa.namespace == "" { fallback := Some(sa); }
      }
      i := i + 1;
    }
    return fallback;
  }

  predicate Applies(sa: Account, name: string, namespace: string)
  {
    sa.name == name && (sa.namespace == namespace || sa.namespace == "")
  }

  lemma {:induction false} ResolveFromIs(accounts: seq<Account>, name: string, namespace: string, fallback: Option<Account>)
    requires fallback.Some? ==> fallback.value.name == name && fallback.value.namespace == "" && namespace != ""
    ensures var r := ResolveFrom(accounts, name, namespace, fallback);
            && (r.None? <==> fallback.None? && forall sa :: sa in accounts ==> !Applies(sa, name, namespace))
            && (r.Some? ==> (r.value in accounts || r == fallback) && Applies(r.value, name, namespace))
            && (r.Some? && r.value.namespace != namespace ==>
                  forall sa :: sa in accounts && sa.name == name ==> sa.namespace != namespace)
  {
    if accounts != [] {
      var sa := accounts[0];
      var applies := Applies(sa, name, namespace);
      assert sa in accounts;
      assert forall x :: x in accounts <==> x == sa || x in accounts[1..];
      ResolveFromIs(accounts[1..], name, namespace,
                    if sa.name == name && sa.namespace == "" && namespace != "" then Some(sa) else fallback);
    }
  }

  /** A pair has a declaration exactly when one applies to it, and a scoped one
    * beats a default one wherever the two are declared. */
  lemma ResolveIs(accounts: seq<Account>, name: string, namespace: string)
    ensures var r := Resolve(accounts, name, namespace);
            && (r.None? <==> forall sa :: sa in accounts ==> !Applies(sa, name, namespace))
            && (r.Some? ==> r.value in accounts && Applies(r.value, name, namespace))
            && (r.Some? && r.value.namespace != namespace ==>
                  forall sa :: sa in accounts && sa.name == name ==> sa.namespace != namespace)
  {
    ResolveFromIs(accounts, name, namespace, None);
  }

  /** With one declaration per name and namespace, the order of declarations is irrelevant. */
  lemma ResolveIgnoresOrder(a: seq<Account>, b: seq<Account>, name: string, namespace: string)
    requires forall sa :: sa in a <==> sa in b
    requires forall x, y :: x in a && y in a && x.name == y.name && x.namespace == y.namespace ==> x == y
    ensures Resolve(a, name, namespace) == Resolve(b, name, namespace)
  {
    ResolveIs(a, name, namespace);
    ResolveIs(b, name, namespace);
  }
}
