/** No two ingress blocks may claim one resource name or one certificate secret in a namespace. */
module IngressChecks {
  import opened Options
  import opened Text
  import opened Seqs
  import opened Blocks

  /** Where an ingress block stands: a numbered block of a workload, or a top-level block. */
  datatype Place = Nested(kind: string, workload: string, number: nat) | TopLevel(name: string)

  /** An ingress block with the namespace and the name it is checked under. */
  datatype Slot = Slot(place: Place, namespace: string, name: string, ingress: Ingress)

  datatype Conflict =
    | SameWorkload(kind: string, workload: string, first: nat, second: nat, name: string)
    | NameTaken(place: Place, name: string, holder: Place)
    | SecretTaken(place: Place, secret: string, holder: Place)

  function NestedSlots(kind: string, w: Workload): (r: seq<Slot>)
    ensures |r| == |w.ingresses|
  {
    seq(|w.ingresses|, i requires 0 <= i < |w.ingresses| =>
      Slot(Nested(kind, w.name, i + 1), w.namespace, ResourceName(w.ingresses[i], w.name, i), w.ingresses[i]))
  }

  function WorkloadSlots(kind: string, ws: seq<Workload>): seq<Slot>
  {
    if ws == [] then [] else NestedSlots(kind, ws[0]) + WorkloadSlots(kind, ws[1..])
  }

  function TopLevelSlots(ings: seq<Ingress>): (r: seq<Slot>)
    ensures |r| == |ings|
  {
    seq(|ings|, i requires 0 <= i < |ings| =>
      Slot(TopLevel(ings[i].name), ings[i].namespace, ings[i].name, ings[i]))
  }

  /** Every ingress block of a config, in the order it is checked. */
  function Slots(c: Config): seq<Slot>
  {
    WorkloadSlots("deployment", c.deployments) + WorkloadSlots("statefulset", c.statefulSets) + TopLevelSlots(c.ingresses)
  }

  function NameKey(s: Slot): string
  {
    s.namespace + "/" + s.name
  }

  function NameKeys(slots: seq<Slot>): (r: seq<string>)
    ensures |r| == |slots|
  {
    seq(|slots|, i requires 0 <= i < |slots| => NameKey(slots[i]))
  }

  function SecretKeys(slots: seq<Slot>): seq<string>
  {
    if slots == [] then []
    else
      var n := |slots| - 1;
      var secret := CertificateSecretName(slots[n].ingress);
      SecretKeys(slots[..n]) + if secret == "" then [] else [slots[n].namespace + "/" + secret]
  }

  ghost predicate NoConflict(slots: seq<Slot>)
  {
    NoDup(NameKeys(slots)) && NoDup(SecretKeys(slots))
  }

  /** The keys one more block adds. */
  lemma KeysGrow(slots: seq<Slot>, s: Slot)
    ensures NameKeys(slots + [s]) == NameKeys(slots) + [NameKey(s)]
    ensures var secret := CertificateSecretName(s.ingress);
            SecretKeys(slots + [s]) ==
            if secret == "" then SecretKeys(slots) else SecretKeys(slots) + [s.namespace + "/" + secret]
  {
    hide CertificateSecretName;
    var all := slots + [s];
    assert all[..|all| - 1] == slots;
    assert all[|all| - 1] == s;
  }

  lemma NoConflictSnoc(slots: seq<Slot>, s: Slot)
    ensures var secret := CertificateSecretName(s.ingress);
            NoConflict(slots + [s]) <==>
              && NoConflict(slots)
              && NameKey(s) !in NameKeys(slots)
              && (secret == "" || s.namespace + "/" + secret !in SecretKeys(slots))
  {
    hide CertificateSecretName, NameKeys, SecretKeys, NoDup;
    KeysGrow(slots, s);
    NoDupSnoc(NameKeys(slots), NameKey(s));
    NoDupSnoc(SecretKeys(slots), s.namespace + "/" + CertificateSecretName(s.ingress));
  }

  /** A conflict among the first blocks is a conflict. */
  lemma {:induction false} NoConflictPrefix(a: seq<Slot>, b: seq<Slot>)
    requires NoConflict(a + b)
    ensures NoConflict(a)
    decreases |b|
  {
    hide NoConflict, NameKeys, SecretKeys, CertificateSecretName, NameKey;
    if b == [] {
      assert a + b == a;
    } else {
      var n := |b| - 1;
      assert a + b == (a + b[..n]) + [b[n]];
      NoConflictSnoc(a + b[..n], b[n]);
      NoConflictPrefix(a, b[..n]);
    }
  }

  lemma WorkloadSlotsAt(kind: string, ws: seq<Workload>, i: nat)
    requires i < |ws|
    ensures WorkloadSlots(kind, ws[i..]) == NestedSlots(kind, ws[i]) + WorkloadSlots(kind, ws[i + 1..])
  {
    assert ws[i..][1..] == ws[i + 1..];
  }

  lemma NoWorkloads(kind: string)
    ensures WorkloadSlots(kind, []) == []
  {
  }

  /** The next block; a conflict with it is one of the whole. */
  lemma OneMore(before: seq<Slot>, slots: seq<Slot>, i: nat)
    requires i < |slots|
    ensures before + slots[..i + 1] == before + slots[..i] + [slots[i]]
    ensures NoConflict(before + slots) ==> NoConflict(before + slots[..i] + [slots[i]])
  {
    hide NoConflict;
    assert before + slots == before + slots[..i] + [slots[i]] + slots[i + 1..];
    if NoConflict(before + slots) {
      NoConflictPrefix(before + slots[..i] + [slots[i]], slots[i + 1..]);
    }
  }

  lemma SameNameTwice(before: seq<Slot>, slots: seq<Slot>, i: nat, j: nat)
    requires i < j < |slots| && NameKey(slots[i]) == NameKey(slots[j])
    ensures !NoConflict(before + slots)
  {
    var keys := NameKeys(before + slots);
    assert keys[|before| + i] == keys[|before| + j];
  }

  /** A reported conflict names the block and one before it that holds the name or the secret. */
  ghost predicate Names(c: Conflict, done: seq<Slot>, s: Slot)
  {
    match c
    case NameTaken(place, name, holder) =>
      place == s.place && name == s.name && HoldsName(done, holder, NameKey(s))
    case SecretTaken(place, secret, holder) =>
      && place == s.place && secret == CertificateSecretName(s.ingress) && secret != ""
      && HoldsSecret(done, holder, s.namespace + "/" + secret)
    case SameWorkload(_, _, _, _, _) => false
  }

  /** Of a workload's blocks the i-th conflicts with an earlier one of its own or of those before. */
  ghost predicate NamesNested(c: Conflict, done: seq<Slot>, kind: string, w: Workload, i: nat)
    requires i < |w.ingresses|
  {
    var slots := NestedSlots(kind, w);
    if c.SameWorkload? then
      && c.kind == kind && c.workload == w.name && c.second == i + 1 && 1 <= c.first <= i
      && c.name == slots[i].name == slots[c.first - 1].name
    else Names(c, done + slots[..i], slots[i])
  }

  ghost predicate HoldsName(done: seq<Slot>, holder: Place, key: string)
  {
    exists t :: t in done && t.place == holder && NameKey(t) == key
  }

  ghost predicate HoldsSecret(done: seq<Slot>, holder: Place, key: string)
  {
    exists t :: t in done && t.place == holder && CertificateSecretName(t.ingress) != ""
                && t.namespace + "/" + CertificateSecretName(t.ingress) == key
  }

  lemma HoldersStay(done: seq<Slot>, s: Slot)
    ensures forall p, k :: HoldsName(done, p, k) ==> HoldsName(done + [s], p, k)
    ensures forall p, k :: HoldsSecret(done, p, k) ==> HoldsSecret(done + [s], p, k)
    ensures HoldsName(done + [s], s.place, NameKey(s))
    ensures var secret := CertificateSecretName(s.ingress);
            secret != "" ==> HoldsSecret(done + [s], s.place, s.namespace + "/" + secret)
  {
    hide CertificateSecretName, NameKey;
    var all := done + [s];
    assert s in all && forall t :: t in done ==> t in all;
  }

  /** The two maps filled while the blocks are walked. */
  class IngressCheck {
    var resourceNames: map<string, Place>
    var secretNames: map<string, Place>
    ghost var done: seq<Slot>

    ghost predicate Valid()
      reads this
    {
      && NoConflict(done)
      && resourceNames.Keys == (set k | k in NameKeys(done))
      && secretNames.Keys == (set k | k in SecretKeys(done))
      && (forall k :: k in resourceNames ==> HoldsName(done, resourceNames[k], k))
      && (forall k :: k in secretNames ==> HoldsSecret(done, secretNames[k], k))
    }

    constructor ()
      ensures Valid() && done == []
    {
      resourceNames, secretNames, done := map[], map[], [];
    }

    /** Accepts one more block exactly when it conflicts with none before it. */
    method RecordIngress(s: Slot) returns (err: Option<Conflict>)
      requires Valid()
      modifies this
      ensures err.None? <==> NoConflict(old(done) + [s])
      ensures err.None? ==> Valid() && done == old(done) + [s]
      ensures err.Some? ==> Names(err.value, old(done), s)
    {
      hide CertificateSecretName, NameKeys, SecretKeys, NoConflict, HoldsName, HoldsSecret;
      HoldersStay(done, s);
      NoConflictSnoc(done, s);
      KeysGrow(done, s);
      var key := s.namespace + "/" + s.name;
      if key in resourceNames {
        return Some(NameTaken(s.place, s.name, resourceNames[key]));
      }
      resourceNames := resourceNames[key := s.place];
      var secret := CertificateSecretName(s.ingress);
      if secret != "" {
        var skey := s.namespace + "/" + secret;
        if skey in secretNames {
          return Some(SecretTaken(s.place, secret, secretNames[skey]));
        }
        secretNames := secretNames[skey := s.place];
      }
      done := done + [s];
      return None;
    }

    /** Walks the blocks of one workload; two of its own blocks are told apart first. */
    method CheckWorkload(kind: string, w: Workload) returns (err: Option<Conflict>)
      requires Valid()
      modifies this
      ensures err.None? <==> NoConflict(old(done) + NestedSlots(kind, w))
      ensures err.Some? ==>
                exists i :: 0 <= i < |w.ingresses| && NamesNested(err.value, old(done), kind, w, i)
      ensures err.None? ==> Valid() && done == old(done) + NestedSlots(kind, w)
    {
      hide CertificateSecretName, ResourceName, NoConflict, NameKeys, SecretKeys, HoldsName, HoldsSecret;
      ghost var slots := NestedSlots(kind, w);
      ghost var before := done;
      var localNames: map<string, nat> := map[];
      var i := 0;
      assert before + slots[..0] == before;
      while i < |w.ingresses|
        invariant 0 <= i <= |w.ingresses|
        invariant Valid() && done == before + slots[..i]
        invariant forall n :: n in localNames ==> localNames[n] < i && slots[localNames[n]].name == n
      {
        var name := ResourceName(w.ingresses[i], w.name, i);
        var slot := Slot(Nested(kind, w.name, i + 1), w.namespace, name, w.ingresses[i]);
        assert slot == slots[i];
        OneMore(before, slots, i);
        if name in localNames {
          SameNameTwice(before, slots, localNames[name], i);
          assert NamesNested(SameWorkload(kind, w.name, localNames[name] + 1, i + 1, name), before, kind, w, i);
          return Some(SameWorkload(kind, w.name, localNames[name] + 1, i + 1, name));
        }
        localNames := localNames[name := i];
        err := RecordIngress(slot);
        if err.Some? {
          assert NamesNested(err.value, before, kind, w, i);
          return;
        }
        i := i + 1;
      }
      assert slots[..i] == slots;
      err := None;
    }

    method CheckWorkloads(kind: string, ws: seq<Workload>) returns (err: Option<Conflict>)
      requires Valid()
      modifies this
      ensures err.None? <==> NoConflict(old(done) + WorkloadSlots(kind, ws))
      ensures err.None? ==> Valid() && done == old(done) + WorkloadSlots(kind, ws)
    {
      hide NestedSlots, NoConflict, NameKeys, SecretKeys, WorkloadSlots;
      ghost var all := old(done) + WorkloadSlots(kind, ws);
      assert ws[0..] == ws;
      var i := 0;
      while i < |ws|
        invariant 0 <= i <= |ws|
        invariant Valid() && done + WorkloadSlots(kind, ws[i..]) == all
      {
        ghost var here, rest := NestedSlots(kind, ws[i]), WorkloadSlots(kind, ws[i + 1..]);
        WorkloadSlotsAt(kind, ws, i);
        assert all == done + here + rest;
        if NoConflict(all) { NoConflictPrefix(done + here, rest); }
        err := CheckWorkload(kind, ws[i]);
        if err.Some? {
          return;
        }
        i := i + 1;
      }
      NoWorkloads(kind);
      assert ws[i..] == [] && done + [] == done;
      err := None;
    }
  }

  /** Accepts a config exactly when no two of its ingress blocks conflict. */
  method ValidateIngresses(c: Config) returns (err: Option<Conflict>)
    ensures err.None? <==> NoConflict(Slots(c))
  {
    hide NoConflict, WorkloadSlots, NameKeys, SecretKeys, CertificateSecretName;
    var check := new IngressCheck();
    ghost var d, s, t := WorkloadSlots("deployment", c.deployments), WorkloadSlots("statefulset", c.statefulSets),
                         TopLevelSlots(c.ingresses);
    if NoConflict(d + s + t) {
      NoConflictPrefix(d + s, t);
      NoConflictPrefix(d, s);
    }
    err := check.CheckWorkloads("deployment", c.deployments);
    assert [] + d == d;
    if err.Some? { return; }
    err := check.CheckWorkloads("statefulset", c.statefulSets);
    if err.Some? { return; }
    var i := 0;
    assert d + s + t[..0] == d + s;
    while i < |c.ingresses|
      invariant 0 <= i <= |c.ingresses|
      invariant check.Valid() && check.done == d + s + t[..i]
    {
      var slot := Slot(TopLevel(c.ingresses[i].name), c.ingresses[i].namespace, c.ingresses[i].name, c.ingresses[i]);
      assert slot == t[i] && d + s + t[..i + 1] == check.done + [slot];
      assert d + s + t == d + s + t[..i + 1] + t[i + 1..];
      if NoConflict(d + s + t) { NoConflictPrefix(d + s + t[..i + 1], t[i + 1..]); }
      err := check.RecordIngress(slot);
      if err.Some? { return; }
      i := i + 1;
    }
    assert t[..i] == t;
    err := None;
  }

  // ------------------------------------------------ what the keys tell apart

  function NamePairs(slots: seq<Slot>): (r: seq<(string, string)>)
    ensures |r| == |slots|
  {
    seq(|slots|, i requires 0 <= i < |slots| => (slots[i].namespace, slots[i].name))
  }

  /** The (namespace, secret) pairs for which a Certificate is generated. */
  function CertificatePairs(slots: seq<Slot>): seq<(string, string)>
  {
    if slots == [] then []
    else
      var n := |slots| - 1;
      var secret := CertificateSecretName(slots[n].ingress);
      CertificatePairs(slots[..n]) + if secret == "" then [] else [(slots[n].namespace, secret)]
  }

  predicate Slashless(slots: seq<Slot>)
  {
    forall s :: s in slots ==> '/' !in s.namespace
  }

  lemma KeyInjective(a: string, x: string, b: string, y: string)
    requires '/' !in a && '/' !in b && a + "/" + x == b + "/" + y
    ensures a == b && x == y
  {
    IndexOfJoin(a, '/', x);
    IndexOfJoin(b, '/', y);
    var k := a + ['/'] + x;
    assert k == b + ['/'] + y;
    assert k[..|a|] == a && k[..|b|] == b && k[|a| + 1..] == x && k[|b| + 1..] == y;
  }

  /** Different keys mean different (namespace, name) pairs; the other way round
    * it takes namespaces without a slash. */
  lemma NameKeysMean(slots: seq<Slot>)
    ensures NoDup(NameKeys(slots)) ==> NoDup(NamePairs(slots))
    ensures Slashless(slots) && NoDup(NamePairs(slots)) ==> NoDup(NameKeys(slots))
  {
    var keys, pairs := NameKeys(slots), NamePairs(slots);
    if NoDup(keys) {
      forall i, j | 0 <= i < j < |pairs| ensures pairs[i] != pairs[j] { assert keys[i] != keys[j]; }
    }
    if Slashless(slots) && NoDup(pairs) {
      forall i, j | 0 <= i < j < |keys| ensures keys[i] != keys[j] {
        assert pairs[i] != pairs[j];
        if keys[i] == keys[j] {
          KeyInjective(slots[i].namespace, slots[i].name, slots[j].namespace, slots[j].name);
        }
      }
    }
  }

  lemma {:induction false} SecretKeysMean(slots: seq<Slot>)
    ensures |SecretKeys(slots)| == |CertificatePairs(slots)|
    ensures forall i :: 0 <= i < |SecretKeys(slots)| ==>
              SecretKeys(slots)[i] == CertificatePairs(slots)[i].0 + "/" + CertificatePairs(slots)[i].1
    ensures Slashless(slots) ==> forall i :: 0 <= i < |CertificatePairs(slots)| ==> '/' !in CertificatePairs(slots)[i].0
  {
    hide CertificateSecretName;
    if slots != [] {
      SecretKeysMean(slots[..|slots| - 1]);
    }
  }

  /** The check accepts exactly the configs without two blocks of one resource name,
    * or one generated certificate, in a namespace. */
  lemma NoConflictMeans(slots: seq<Slot>)
    ensures NoConflict(slots) ==> NoDup(NamePairs(slots)) && NoDup(CertificatePairs(slots))
    ensures Slashless(slots) && NoDup(NamePairs(slots)) && NoDup(CertificatePairs(slots)) ==> NoConflict(slots)
  {
    NameKeysMean(slots);
    SecretKeysMean(slots);
    var keys, pairs := SecretKeys(slots), CertificatePairs(slots);
    if NoDup(keys) {
      forall i, j | 0 <= i < j < |pairs| ensures pairs[i] != pairs[j] { assert keys[i] != keys[j]; }
    }
    if Slashless(slots) && NoDup(pairs) {
      forall i, j | 0 <= i < j < |keys| ensures keys[i] != keys[j] {
        assert pairs[i] != pairs[j];
        if keys[i] == keys[j] {
          KeyInjective(pairs[i].0, pairs[i].1, pairs[j].0, pairs[j].1);
        }
      }
    }
  }
}
