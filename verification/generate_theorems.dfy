/** Generate as a whole: its result map against the loader's checks, and against
  * Go's freedom to range over a map in any order. */
module GenerateTheorems {
  import opened Options
  import opened Seqs
  import opened Blocks
  import opened Acceptance
  import opened Duplicates
  import opened IngressChecks
  import opened Generator
  import opened Assembly
  import opened Uniqueness
  import opened CollisionFree
  import opened Conservation

  /** No two entries of the result share kind, namespace and name. */
  ghost predicate Collisionless(ms: multiset<Manifest>)
  {
    forall x, y :: x in ms && y in ms && KeyOf(x) == KeyOf(y) ==> x == y && ms[x] == 1
  }

  lemma CollisionlessIsNoDup(ms: seq<Manifest>)
    ensures Collisionless(multiset(ms)) <==> NoDup(Keys(ms))
  {
    if NoDup(Keys(ms)) {
      NoDupCollisionless(ms);
    } else {
      var keys := Keys(ms);
      var i, j :| 0 <= i < j < |ms| && keys[i] == keys[j];
      assert ms[i] in multiset(ms) && ms[j] in multiset(ms);
      CountIsOccurrence(ms, ms[i]);
      assert ms[i] == ms[j] ==> multiset(ms)[ms[i]] >= 2;
    }
  }

  lemma NoDupCollisionless(ms: seq<Manifest>)
    requires NoDup(Keys(ms))
    ensures Collisionless(multiset(ms))
  {
    var keys := Keys(ms);
    forall p, q | 0 <= p < q < |ms| ensures ms[p] != ms[q] { assert keys[p] != keys[q]; }
    NoDupByCount(ms);
    forall x, y | x in multiset(ms) && y in multiset(ms) && KeyOf(x) == KeyOf(y)
      ensures x == y && multiset(ms)[x] == 1
    {
      var i :| 0 <= i < |ms| && ms[i] == x;
      var j :| 0 <= j < |ms| && ms[j] == y;
      assert keys[i] == keys[j];
      assert i == j;
    }
  }

  /** What Generate returns for an accepted config without stand-ins never holds two
    * objects of one kind, namespace and name, whatever the range order. */
  lemma GeneratedCollisionFree(c: Config, order: seq<(string, string)>)
    requires Accepted(c) && NoStandIn(Slots(c))
    requires Enumerates(order, UsedAccounts(c))
    ensures Collisionless(Total(Generated(c, order)))
  {
    hide Total, Generated, Expected, Accepted, NoStandIn, Keys;
    ObjectsCollisionFree(c, order);
    NoDupCollisionless(Expected(c, order));
    ConservationExact(c, order);
    var t, e := Total(Generated(c, order)), multiset(Expected(c, order));
    forall x, y | x in t && y in t && KeyOf(x) == KeyOf(y) ensures x == y && t[x] == 1 {
      assert x in e && y in e && t[x] <= e[x];
    }
  }

  /** Where nothing is lost, what Generate returns for an accepted config is free of collisions
    * exactly when no nameless block stands in for another block's route. */
  lemma CollisionsExact(c: Config, order: seq<(string, string)>)
    requires Accepted(c) && Lossless(c, order)
    requires Enumerates(order, UsedAccounts(c))
    ensures Collisionless(Total(Generated(c, order))) <==> NoStandIn(Slots(c))
  {
    hide Total, Generated, Expected, Accepted, NoStandIn, Keys, Lossless, Collisionless, UsedAccounts;
    ObjectsCollisionFree(c, order);
    ConservationExact(c, order);
    CollisionlessIsNoDup(Expected(c, order));
  }

  /** A config that the loader accepts and two objects of whose result are one: a nameless block
    * beside the named block whose name is its service's. */
  lemma NamelessCollides(named: Ingress, nameless: Ingress)
    requires named.name != "" && named.host != "" && !named.tls
    requires nameless == named.(name := "", serviceName := named.name)
    ensures var c := EMPTY.(ingresses := [named, nameless]);
            && Accepted(c) && Enumerates([], UsedAccounts(c))
            && !Collisionless(Total(Generated(c, [])))
  {
    var c := EMPTY.(ingresses := [named, nameless]);
    NamelessStandsIn(named, nameless);
    hide Accepted, NoStandIn, Total, Generated, Collisionless, Lossless, UsedAccounts;
    IngressesLoseNothing(c);
    CollisionsExact(c, []);
  }

  lemma IngressesLoseNothing(c: Config)
    requires c == EMPTY.(ingresses := c.ingresses)
    ensures Lossless(c, []) && Enumerates([], UsedAccounts(c))
  {
  }

  // ------------------------------------------------- a workload that is lost

  lemma FewClaims(c: Config)
    requires |ClaimGroups(c)| == 14 && forall i :: 0 <= i < 14 ==> NoDup(ClaimGroups(c)[i].pairs)
    ensures NoDup(AllKeys(ClaimGroups(c)))
  {
    hide AllKeys, NoDup, ClaimGroups;
    ClaimKindsDiffer(c);
    AllKeysNoDup(ClaimGroups(c));
  }

  lemma WorkloadLostAccepted(w: Workload, r: Scopeless)
    requires w.ingresses == [] && w.service.None?
    ensures Accepted(EMPTY.(deployments := [w], clusterRoles := [r]))
  {
    hide AllKeys, NoConflict;
    var c := EMPTY.(deployments := [w], clusterRoles := [r]);
    assert [w][1..] == [] && [r][1..] == [];
    assert WorkloadPairs([w]) == [(w.namespace, w.name)] + WorkloadPairs([]);
    assert ScopelessPairs([r]) == [("", r.name)] + ScopelessPairs([]);
    assert ServicePairs([w]) == [] + ServicePairs([]);
    assert forall i :: 0 <= i < 14 ==> |ClaimGroups(c)[i].pairs| <= 1;
    FewClaims(c);
    assert WorkloadSlots("deployment", [w]) == [];
    NoSlots();
  }

  /** A deployment whose name is the result key of a cluster role: the loader accepts both, and
    * the result holds the role and nothing else. */
  lemma WorkloadLost(w: Workload, r: Scopeless)
    requires w.name == "clusterrole-" + r.name
    requires w.ingresses == [] && w.service.None? && w.serviceAccount == ""
    ensures var c := EMPTY.(deployments := [w], clusterRoles := [r]);
            && Accepted(c) && Enumerates([], UsedAccounts(c))
            && Generated(c, []) == map[w.name := [Manifest("ClusterRole", "", r.name, OfScopeless(r))]]
  {
    var c := EMPTY.(deployments := [w], clusterRoles := [r]);
    WorkloadLostAccepted(w, r);
    hide Accepted, AllWrites, PutAll, UsedAccounts;
    LoneWrites(w, r);
    TwoWrites(Write(w.name, DeploymentManifests(w, ModeOf(None)), false),
              Write(w.name, [Manifest("ClusterRole", "", r.name, OfScopeless(r))], true));
  }

  lemma LoneWrites(w: Workload, r: Scopeless)
    requires w.name == "clusterrole-" + r.name && w.serviceAccount == ""
    ensures var c := EMPTY.(deployments := [w], clusterRoles := [r]);
            && Enumerates([], UsedAccounts(c))
            && AllWrites(c, []) == [Write(w.name, DeploymentManifests(w, ModeOf(None)), false),
                                    Write(w.name, [Manifest("ClusterRole", "", r.name, OfScopeless(r))], true)]
  {
    hide DeploymentManifests;
    var c := EMPTY.(deployments := [w], clusterRoles := [r]);
    var first := Write(w.name, DeploymentManifests(w, ModeOf(None)), false);
    var second := Write(w.name, [Manifest("ClusterRole", "", r.name, OfScopeless(r))], true);
    assert UsedAccounts(c) == {};
    assert NamespaceWrites(Distinct(c.namespaces)) == [] && AccountWrites(c.accounts, []) == [];
    assert NamedWrites(c) == [first] by { assert DeploymentWrites([w], ModeOf(None)) == [first]; }
    assert PrefixedWrites(c) == [];
    assert ClusterWrites(c) == [second] by {
      assert ScopelessWrites("clusterrole-", "ClusterRole", [r]) == [second];
    }
  }

  lemma TwoWrites(first: Write, second: Write)
    requires !first.replace && first.key == second.key && second.replace
    ensures PutAll(map[], [first, second]) == map[second.key := second.objs]
  {
    assert [first, second][..1] == [first] && [first][..0] == [];
    assert PutAll(map[], [first]) == map[first.key := first.objs] by { assert [] + first.objs == first.objs; }
    assert PutAll(map[], [first, second]) == map[first.key := first.objs][second.key := second.objs];
  }

  /** For an accepted config only two things can lose objects: two accounts on one
    * result key, and a block named like a cluster-scoped block's result key. */
  lemma AcceptedLoses(c: Config, order: seq<(string, string)>)
    requires Accepted(c)
    ensures Total(Generated(c, order)) == multiset(Expected(c, order)) <==>
            AccountsApart(c, order) && BlockNames(c) !! ClusterResultKeys(c)
  {
    hide Total, Generated, Expected, AccountsApart, BlockNames, ClusterResultKeys, NoConflict, ScopelessPairs;
    var g := ClaimGroups(c);
    ClaimsApart(c);
    assert NoDup(g[10].pairs) && NoDup(g[11].pairs) && NoDup(g[12].pairs) && NoDup(g[13].pairs);
    ConservationExact(c, order);
  }
}
