/** The duplicate check: where each resource was first defined, and every second definition. */
module Duplicates {
  import opened Options
  import opened Seqs
  import opened Blocks
  import opened Identities

  /** A declared block, and the Service it generates, if any. */
  datatype Declared = Declared(id: Key, service: Option<Key>)

  /** The same as texts; an empty service text means none. */
  datatype Resource = Resource(id: string, service: string)

  function DeclaredWorkloads(kind: string, ws: seq<Workload>): (r: seq<Declared>)
    ensures |r| == |ws|
  {
    seq(|ws|, i requires 0 <= i < |ws| =>
      Declared(Key(kind, ws[i].namespace, ws[i].name),
               if ws[i].service.Some? then Some(Key("service", ws[i].namespace, ServiceName(ws[i]))) else None))
  }

  function DeclaredPairs(kind: string, pairs: seq<(string, string)>): seq<Declared>
  {
    seq(|pairs|, i requires 0 <= i < |pairs| => Declared(Key(kind, pairs[i].0, pairs[i].1), None))
  }

  function DeclaredGroups(groups: seq<Group>): seq<Declared>
  {
    if groups == [] then [] else DeclaredPairs(groups[0].kind, groups[0].pairs) + DeclaredGroups(groups[1..])
  }

  /** The blocks that generate no Service, kind by kind. */
  function PlainGroups(c: Config): (groups: seq<Group>)
  {
    [Group("cronjob", CronJobPairs(c.cronJobs)),
     Group("configmap", PlainPairs(c.configMaps)),
     Group("secret", PlainPairs(c.secrets)),
     Group("sealedsecret", PlainPairs(c.sealedSecrets)),
     Group("persistentvolumeclaim", PlainPairs(c.claims)),
     Group("ingress", IngressPairs(c.ingresses)),
     Group("clusterrole", ScopelessPairs(c.clusterRoles)),
     Group("clusterrolebinding", ScopelessPairs(c.clusterRoleBindings)),
     Group("crd", ScopelessPairs(c.crds)),
     Group("csidriver", ScopelessPairs(c.csiDrivers))]
  }

  /** Everything a config declares, in the order the check looks at it. */
  function DeclaredOf(c: Config): seq<Declared>
  {
    DeclaredWorkloads("deployment", c.deployments)
    + DeclaredWorkloads("daemonset", c.daemonSets)
    + DeclaredWorkloads("statefulset", c.statefulSets)
    + DeclaredGroups(PlainGroups(c))
  }

  function AllServicePairs(c: Config): seq<(string, string)>
  {
    ServicePairs(c.deployments) + ServicePairs(c.daemonSets) + ServicePairs(c.statefulSets)
  }

  /** The same resources, one group a kind, the Services of all workloads together. */
  function ClaimGroups(c: Config): seq<Group>
  {
    [Group("deployment", WorkloadPairs(c.deployments)),
     Group("daemonset", WorkloadPairs(c.daemonSets)),
     Group("statefulset", WorkloadPairs(c.statefulSets)),
     Group("service", AllServicePairs(c))]
    + PlainGroups(c)
  }

  /** The identities the check records: each block, and after it its Service. */
  function Claims(ds: seq<Declared>): seq<Key>
  {
    if ds == [] then []
    else [ds[0].id] + (if ds[0].service.Some? then [ds[0].service.value] else []) + Claims(ds[1..])
  }

  function Written(d: Declared, printable: set<char>): Resource
  {
    Resource(Identity(d.id, printable), if d.service.Some? then Identity(d.service.value, printable) else "")
  }

  function WrittenAll(ds: seq<Declared>, printable: set<char>): (r: seq<Resource>)
    ensures |r| == |ds|
  {
    seq(|ds|, i requires 0 <= i < |ds| => Written(ds[i], printable))
  }

  // -------------------------------------------------------------- the check

  datatype Check = Check(origins: map<string, string>, errs: seq<string>)

  function Record(c: Check, id: string, origin: string): (Check, bool)
  {
    if id !in c.origins then (c.(origins := c.origins[id := origin]), true)
    else if c.origins[id] == origin then (c.(errs := c.errs + [id + " is defined twice in " + origin]), false)
    else (c.(errs := c.errs + [id + " is defined in both " + c.origins[id] + " and " + origin]), false)
  }

  function AddOne(c: Check, r: Resource, origin: string): Check
  {
    var (d, fresh_) := Record(c, r.id, origin);
    if fresh_ && r.service != "" then Record(d, r.service, origin).0 else d
  }

  function AddAll(c: Check, rs: seq<Resource>, origin: string): Check
  {
    if rs == [] then c else AddOne(AddAll(c, rs[..|rs| - 1], origin), rs[|rs| - 1], origin)
  }

  class DuplicateCheck {
    const printable: set<char>
    var origins: map<string, string>
    var errs: seq<string>

    constructor (printable: set<char>)
      ensures this.printable == printable && Model() == Check(map[], [])
    {
      this.printable := printable;
      origins, errs := map[], [];
    }

    ghost function Model(): Check
      reads this
    {
      Check(origins, errs)
    }

    method RecordId(id: string, origin: string) returns (isNew: bool)
      modifies this
      ensures (Model(), isNew) == Record(old(Model()), id, origin)
    {
      if id !in origins {
        origins := origins[id := origin];
        return true;
      }
      if origins[id] == origin {
        errs := errs + [id + " is defined twice in " + origin];
      } else {
        errs := errs + [id + " is defined in both " + origins[id] + " and " + origin];
      }
      return false;
    }

    /** Records every resource of config as coming from origin. */
    method Add(config: Config, origin: string)
      modifies this
      ensures Model() == AddAll(old(Model()), WrittenAll(DeclaredOf(config), printable), origin)
    {
      hide Identity, Record;
      var resources := ResourcesOf(config, printable);
      var i := 0;
      while i < |resources|
        invariant 0 <= i <= |resources|
        invariant Model() == AddAll(old(Model()), resources[..i], origin)
      {
        assert resources[..i + 1][..i] == resources[..i];
        var isNew := RecordId(resources[i].id, origin);
        if isNew && resources[i].service != "" {
          var _ := RecordId(resources[i].service, origin);
        }
        i := i + 1;
      }
      assert resources[..i] == resources;
    }

    /** nil exactly when nothing was reported. */
    method Err() returns (message: Option<seq<string>>)
      ensures message.None? <==> errs == []
      ensures message.Some? ==> message.value == errs
    {
      return if |errs| == 0 then None else Some(errs);
    }
  }

  method AppendWorkloads(out: seq<Resource>, kind: string, ws: seq<Workload>, printable: set<char>)
    returns (r: seq<Resource>)
    ensures r == out + WrittenAll(DeclaredWorkloads(kind, ws), printable)
  {
    hide Identity;
    r := out;
    var i := 0;
    ghost var all := WrittenAll(DeclaredWorkloads(kind, ws), printable);
    while i < |ws|
      invariant 0 <= i <= |ws|
      invariant r == out + all[..i]
    {
      var service := "";
      if ws[i].service.Some? {
        service := Identity(Key("service", ws[i].namespace, ServiceName(ws[i])), printable);
      }
      r := r + [Resource(Identity(Key(kind, ws[i].namespace, ws[i].name), printable), service)];
      assert r == out + all[..i + 1];
      i := i + 1;
    }
  }

  method AppendPairs(out: seq<Resource>, kind: string, pairs: seq<(string, string)>, printable: set<char>)
    returns (r: seq<Resource>)
    ensures r == out + WrittenAll(DeclaredPairs(kind, pairs), printable)
  {
    hide Identity;
    r := out;
    var i := 0;
    ghost var all := WrittenAll(DeclaredPairs(kind, pairs), printable);
    while i < |pairs|
      invariant 0 <= i <= |pairs|
      invariant r == out + all[..i]
    {
      r := r + [Resource(Identity(Key(kind, pairs[i].0, pairs[i].1), printable), "")];
      assert r == out + all[..i + 1];
      i := i + 1;
    }
  }

  lemma WrittenConcat(a: seq<Declared>, b: seq<Declared>, printable: set<char>)
    ensures WrittenAll(a + b, printable) == WrittenAll(a, printable) + WrittenAll(b, printable)
  {
  }

  /** The declared resources of a config, as texts. */
  method ResourcesOf(c: Config, printable: set<char>) returns (out: seq<Resource>)
    ensures out == WrittenAll(DeclaredOf(c), printable)
  {
    hide WrittenAll, DeclaredPairs, DeclaredWorkloads, PlainGroups;
    ghost var ds := DeclaredWorkloads("deployment", c.deployments);
    out := AppendWorkloads([], "deployment", c.deployments, printable);
    WrittenConcat(ds, DeclaredWorkloads("daemonset", c.daemonSets), printable);
    out := AppendWorkloads(out, "daemonset", c.daemonSets, printable);
    ds := ds + DeclaredWorkloads("daemonset", c.daemonSets);
    WrittenConcat(ds, DeclaredWorkloads("statefulset", c.statefulSets), printable);
    out := AppendWorkloads(out, "statefulset", c.statefulSets, printable);
    ds := ds + DeclaredWorkloads("statefulset", c.statefulSets);
    var groups := PlainGroups(c);
    var i := 0;
    while i < |groups|
      invariant 0 <= i <= |groups|
      invariant out == WrittenAll(ds, printable)
      invariant ds + DeclaredGroups(groups[i..]) == DeclaredOf(c)
    {
      ghost var more := DeclaredPairs(groups[i].kind, groups[i].pairs);
      WrittenConcat(ds, more, printable);
      assert groups[i..][1..] == groups[i + 1..];
      assert ds + (more + DeclaredGroups(groups[i + 1..])) == ds + more + DeclaredGroups(groups[i + 1..]);
      out := AppendPairs(out, groups[i].kind, groups[i].pairs, printable);
      ds := ds + more;
      i := i + 1;
    }
    assert ds + DeclaredGroups(groups[i..]) == ds;
  }

  // --------------------------------------------------- what acceptance means

  lemma {:induction false} ClaimsConcat(a: seq<Declared>, b: seq<Declared>)
    ensures Claims(a + b) == Claims(a) + Claims(b)
  {
    if a == [] {
      assert a + b == b;
    } else {
      assert (a + b)[1..] == a[1..] + b;
      ClaimsConcat(a[1..], b);
    }
  }

  predicate Spaceless(ds: seq<Declared>)
  {
    forall k :: k in Claims(ds) ==> ' ' !in k.kind
  }

  function Texts(keys: seq<Key>, printable: set<char>): set<string>
  {
    set k | k in keys :: Identity(k, printable)
  }

  lemma TextsMean(keys: seq<Key>, k: Key, printable: set<char>)
    requires ' ' !in k.kind && forall l :: l in keys ==> ' ' !in l.kind
    ensures Identity(k, printable) in Texts(keys, printable) <==> k in keys
  {
    hide Identity;
    if Identity(k, printable) in Texts(keys, printable) {
      var l :| l in keys && Identity(l, printable) == Identity(k, printable);
      IdentityInjective(k, l, printable);
    }
  }

  /** One resource: reported exactly when it, or its Service, was taken. */
  lemma AddOneLaw(c: Check, prev: seq<Key>, d: Declared, origin: string, printable: set<char>)
    requires forall k :: k in prev + Claims([d]) ==> ' ' !in k.kind
    requires c.errs == [] ==> c.origins.Keys == Texts(prev, printable) && NoDup(prev)
    ensures var e := AddOne(c, Written(d, printable), origin);
            && (e.errs == [] <==> c.errs == [] && NoDup(prev + Claims([d])))
            && (e.errs == [] ==> e.origins.Keys == Texts(prev + Claims([d]), printable))
  {
    hide Identity, Claims, Texts, NoDup;
    var r := Written(d, printable);
    var own := Claims([d]);
    OneClaims(d);
    NoDupSnoc(prev, d.id);
    TextsMean(prev, d.id, printable);
    TextsSnoc(prev, d.id, printable);
    if d.service.Some? {
      var s := d.service.value;
      assert prev + own == prev + [d.id] + [s];
      NoDupSnoc(prev + [d.id], s);
      assert d.id in prev + own && s in prev + own;
      TextsMean(prev + [d.id], s, printable);
      TextsSnoc(prev + [d.id], s, printable);
      IdentityNonEmpty(s, printable);
    } else {
      assert prev + own == prev + [d.id];
    }
  }

  /** A resource that is taken is reported once and its Service is passed over; a new one is kept
    * with its origin, and its Service, if it has one, is reported or kept likewise. */
  lemma AddOneIs(c: Check, r: Resource, origin: string)
    ensures var e := AddOne(c, r, origin);
            && (r.id in c.origins ==> e.origins == c.origins && |e.errs| == |c.errs| + 1)
            && (r.id !in c.origins && r.service == "" ==> e.origins == c.origins[r.id := origin] && e.errs == c.errs)
            && (r.id !in c.origins && r.service != "" && (r.service in c.origins || r.service == r.id) ==>
                  e.origins == c.origins[r.id := origin] && |e.errs| == |c.errs| + 1)
            && (r.id !in c.origins && r.service != "" && r.service !in c.origins && r.service != r.id ==>
                  e.origins == c.origins[r.id := origin][r.service := origin] && e.errs == c.errs)
            && c.errs <= e.errs
  {
  }

  lemma OneClaims(d: Declared)
    ensures Claims([d]) == [d.id] + (if d.service.Some? then [d.service.value] else [])
  {
    assert [d][1..] == [];
  }

  lemma TextsSnoc(keys: seq<Key>, k: Key, printable: set<char>)
    ensures Texts(keys + [k], printable) == Texts(keys, printable) + {Identity(k, printable)}
  {
    hide Identity;
  }

  lemma IdentityNonEmpty(k: Key, printable: set<char>)
    ensures Identity(k, printable) != ""
  {
  }

  lemma NoClaims()
    ensures Claims([]) == []
  {
  }

  lemma {:induction false} AddAllLaw(c: Check, prev: seq<Key>, ds: seq<Declared>, origin: string, printable: set<char>)
    requires forall k :: k in prev + Claims(ds) ==> ' ' !in k.kind
    requires c.errs == [] ==> c.origins.Keys == Texts(prev, printable) && NoDup(prev)
    ensures var e := AddAll(c, WrittenAll(ds, printable), origin);
            && (e.errs == [] <==> c.errs == [] && NoDup(prev + Claims(ds)))
            && (e.errs == [] ==> e.origins.Keys == Texts(prev + Claims(ds), printable))
  {
    hide Identity, Claims, Texts, NoDup, AddOne;
    if ds == [] {
      NoClaims();
      assert prev + Claims(ds) == prev;
    } else {
      var n := |ds| - 1;
      var init, d := ds[..n], ds[n];
      assert ds == init + [d];
      ClaimsConcat(init, [d]);
      assert prev + Claims(ds) == prev + Claims(init) + Claims([d]);
      AddAllLaw(c, prev, init, origin, printable);
      var mid := AddAll(c, WrittenAll(init, printable), origin);
      assert WrittenAll(ds, printable)[..n] == WrittenAll(init, printable);
      AddOneLaw(mid, prev + Claims(init), d, origin, printable);
      NoDupConcat(prev + Claims(init), Claims([d]));
    }
  }

  lemma {:induction false} ClaimsOfWorkloads(kind: string, ws: seq<Workload>)
    ensures multiset(Claims(DeclaredWorkloads(kind, ws))) ==
            multiset(Label(kind, WorkloadPairs(ws))) + multiset(Label("service", ServicePairs(ws)))
  {
    if ws != [] {
      var ds := DeclaredWorkloads(kind, ws);
      assert ds[1..] == DeclaredWorkloads(kind, ws[1..]);
      ClaimsOfWorkloads(kind, ws[1..]);
      var own := (ws[0].namespace, ws[0].name);
      var service := if ws[0].service.Some? then [(ws[0].namespace, ServiceName(ws[0]))] else [];
      LabelConcat(kind, [own], WorkloadPairs(ws[1..]));
      LabelConcat("service", service, ServicePairs(ws[1..]));
      assert [ds[0].id] == Label(kind, [own]);
      assert (if ds[0].service.Some? then [ds[0].service.value] else []) == Label("service", service);
    }
  }

  lemma {:induction false} ClaimsOfPairs(kind: string, pairs: seq<(string, string)>)
    ensures Claims(DeclaredPairs(kind, pairs)) == Label(kind, pairs)
  {
    if pairs != [] {
      assert DeclaredPairs(kind, pairs)[1..] == DeclaredPairs(kind, pairs[1..]);
      ClaimsOfPairs(kind, pairs[1..]);
      assert Label(kind, pairs) == [Key(kind, pairs[0].0, pairs[0].1)] + Label(kind, pairs[1..]);
    }
  }

  lemma {:induction false} ClaimsOfGroups(groups: seq<Group>)
    ensures Claims(DeclaredGroups(groups)) == AllKeys(groups)
  {
    if groups != [] {
      ClaimsOfPairs(groups[0].kind, groups[0].pairs);
      ClaimsOfGroups(groups[1..]);
      ClaimsConcat(DeclaredPairs(groups[0].kind, groups[0].pairs), DeclaredGroups(groups[1..]));
    }
  }

  lemma {:induction false} AllKeysConcat(a: seq<Group>, b: seq<Group>)
    ensures AllKeys(a + b) == AllKeys(a) + AllKeys(b)
  {
    if a == [] {
      assert a + b == b;
    } else {
      assert (a + b)[1..] == a[1..] + b;
      AllKeysConcat(a[1..], b);
    }
  }

  /** The workload groups with the Services of each kind of workload apart. */
  function WorkloadGroups(c: Config): seq<Group>
  {
    [Group("deployment", WorkloadPairs(c.deployments)),
     Group("daemonset", WorkloadPairs(c.daemonSets)),
     Group("statefulset", WorkloadPairs(c.statefulSets)),
     Group("service", ServicePairs(c.deployments)),
     Group("service", ServicePairs(c.daemonSets)),
     Group("service", ServicePairs(c.statefulSets))]
  }

  lemma AllKeysOfOne(a: Group)
    ensures AllKeys([a]) == Label(a.kind, a.pairs)
  {
    assert [a][1..] == [];
  }

  lemma AllKeysOf4(a: Group, b: Group, c: Group, d: Group)
    ensures AllKeys([a, b, c, d]) ==
            Label(a.kind, a.pairs) + Label(b.kind, b.pairs) + Label(c.kind, c.pairs) + Label(d.kind, d.pairs)
  {
    hide Label, AllKeys;
    AllKeysOfOne(a);
    AllKeysOfOne(b);
    AllKeysOfOne(c);
    AllKeysOfOne(d);
    AllKeysConcat([a], [b]);
    AllKeysConcat([a] + [b], [c]);
    AllKeysConcat([a] + [b] + [c], [d]);
    assert [a, b, c, d] == [a] + [b] + [c] + [d];
  }

  lemma AllKeysOf6(a: Group, b: Group, c: Group, d: Group, e: Group, f: Group)
    ensures AllKeys([a, b, c, d, e, f]) ==
            Label(a.kind, a.pairs) + Label(b.kind, b.pairs) + Label(c.kind, c.pairs)
            + Label(d.kind, d.pairs) + Label(e.kind, e.pairs) + Label(f.kind, f.pairs)
  {
    hide Label, AllKeys;
    AllKeysOf4(a, b, c, d);
    AllKeysOfOne(e);
    AllKeysOfOne(f);
    AllKeysConcat([a, b, c, d], [e]);
    AllKeysConcat([a, b, c, d] + [e], [f]);
    assert [a, b, c, d, e, f] == [a, b, c, d] + [e] + [f];
  }

  /** Splitting the Services by workload kind does not change the list of identities. */
  lemma ClaimGroupsSplit(c: Config)
    ensures AllKeys(ClaimGroups(c)) == AllKeys(WorkloadGroups(c)) + AllKeys(PlainGroups(c))
  {
    hide AllKeys, Label, PlainGroups;
    var w := WorkloadGroups(c);
    var g := ClaimGroups(c)[..4];
    AllKeysOf6(w[0], w[1], w[2], w[3], w[4], w[5]);
    AllKeysOf4(g[0], g[1], g[2], g[3]);
    LabelConcat("service", ServicePairs(c.deployments) + ServicePairs(c.daemonSets), ServicePairs(c.statefulSets));
    LabelConcat("service", ServicePairs(c.deployments), ServicePairs(c.daemonSets));
    assert ClaimGroups(c) == g + PlainGroups(c);
    AllKeysConcat(g, PlainGroups(c));
  }

  /** What the check records, in whatever order, is the grouped list of identities. */
  lemma ClaimsAreGroups(c: Config)
    ensures multiset(Claims(DeclaredOf(c))) == multiset(AllKeys(ClaimGroups(c)))
  {
    hide AllKeys, Label, Claims, PlainGroups, DeclaredGroups, DeclaredWorkloads;
    var d, e, f := DeclaredWorkloads("deployment", c.deployments), DeclaredWorkloads("daemonset", c.daemonSets),
                   DeclaredWorkloads("statefulset", c.statefulSets);
    var w := WorkloadGroups(c);
    ClaimsConcat(d + e + f, DeclaredGroups(PlainGroups(c)));
    ClaimsConcat(d + e, f);
    ClaimsConcat(d, e);
    ClaimsOfWorkloads("deployment", c.deployments);
    ClaimsOfWorkloads("daemonset", c.daemonSets);
    ClaimsOfWorkloads("statefulset", c.statefulSets);
    ClaimsOfGroups(PlainGroups(c));
    AllKeysOf6(w[0], w[1], w[2], w[3], w[4], w[5]);
    ClaimGroupsSplit(c);
  }

  lemma {:induction false} KeysOfKinds(groups: seq<Group>)
    requires forall i :: 0 <= i < |groups| ==> ' ' !in groups[i].kind
    ensures forall k :: k in AllKeys(groups) ==> ' ' !in k.kind
  {
    if groups != [] {
      KeysOfKinds(groups[1..]);
    }
  }

  const WORKLOAD_KINDS := ["deployment", "daemonset", "statefulset", "service"]
  const PLAIN_KINDS := ["cronjob", "configmap", "secret", "sealedsecret", "persistentvolumeclaim", "ingress",
                        "clusterrole", "clusterrolebinding", "crd", "csidriver"]

  lemma KindsAreWords()
    ensures forall i :: 0 <= i < |WORKLOAD_KINDS| ==> ' ' !in WORKLOAD_KINDS[i]
    ensures forall i :: 0 <= i < |PLAIN_KINDS| ==> ' ' !in PLAIN_KINDS[i]
  {
  }

  lemma ClaimGroupKinds(c: Config)
    ensures |ClaimGroups(c)| == |WORKLOAD_KINDS + PLAIN_KINDS|
    ensures forall i :: 0 <= i < |ClaimGroups(c)| ==> ClaimGroups(c)[i].kind == (WORKLOAD_KINDS + PLAIN_KINDS)[i]
  {
    hide WorkloadPairs, ServicePairs, CronJobPairs, PlainPairs, IngressPairs, ScopelessPairs;
  }

  lemma ClaimKindsApart()
    ensures NoDup(WORKLOAD_KINDS + PLAIN_KINDS)
  {
  }

  lemma ClaimKindsDiffer(c: Config)
    ensures forall i, j :: 0 <= i < j < |ClaimGroups(c)| ==> ClaimGroups(c)[i].kind != ClaimGroups(c)[j].kind
  {
    hide ClaimGroups;
    ClaimGroupKinds(c);
    ClaimKindsApart();
    var g := ClaimGroups(c);
    forall i, j | 0 <= i < j < |g| ensures g[i].kind != g[j].kind {
      assert (WORKLOAD_KINDS + PLAIN_KINDS)[i] != (WORKLOAD_KINDS + PLAIN_KINDS)[j];
    }
  }

  /** Nothing declared repeats exactly when every list of the config is free of repetition. */
  lemma ClaimsApart(c: Config)
    ensures NoDup(AllKeys(ClaimGroups(c))) <==>
            forall i :: 0 <= i < |ClaimGroups(c)| ==> NoDup(ClaimGroups(c)[i].pairs)
  {
    hide ClaimGroups;
    ClaimKindsDiffer(c);
    AllKeysNoDup(ClaimGroups(c));
  }

  lemma ClaimsSpaceless(c: Config)
    ensures Spaceless(DeclaredOf(c))
  {
    hide Claims, AllKeys, Label, ClaimGroups, DeclaredOf;
    KindsAreWords();
    ClaimGroupKinds(c);
    KeysOfKinds(ClaimGroups(c));
    ClaimsAreGroups(c);
    forall k | k in Claims(DeclaredOf(c)) ensures ' ' !in k.kind {
      assert k in multiset(Claims(DeclaredOf(c)));
      assert k in multiset(AllKeys(ClaimGroups(c)));
    }
  }
}
