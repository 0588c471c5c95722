/** The order of the rendered documents. */
module Render {
  import opened Text
  import opened Seqs
  import opened StableSort
  import opened ResourceIds
  import opened ReleaseController
  import opened Generator
  import opened Assembly
  import opened SortedKeying

  /** An object with the result key it came from and what it is ordered by. */
  datatype Doc = Doc(key: string, rank: nat, name: string, manifest: Manifest)

  function KindRank(kind: string): nat
  {
    if kind == "Namespace" then 0
    else if kind in {"CustomResourceDefinition", "CSIDriver"} then 1
    else if kind == "ServiceAccount" then 2
    else if kind == "ClusterRole" then 3
    else if kind == "ClusterRoleBinding" then 4
    else if kind == "Role" then 5
    else if kind == "RoleBinding" then 6
    else if kind in {"ConfigMap", "Secret", "SealedSecret"} then 10
    else if kind == "PersistentVolumeClaim" then 11
    else if kind == "Service" then 20
    else if kind in {"Deployment", "StatefulSet", "DaemonSet", "CronJob", "Job"} then 30
    else if kind == "HorizontalPodAutoscaler" then 40
    else if kind in {"Ingress", "Certificate"} then 50
    else 25
  }

  function DocOf(key: string, m: Manifest): Doc
  {
    Doc(key, KindRank(m.kind), m.name, m)
  }

  function DocsOf(key: string, ms: seq<Manifest>): (r: seq<Doc>)
    ensures |r| == |ms|
  {
    seq(|ms|, i requires 0 <= i < |ms| => DocOf(key, ms[i]))
  }

  /** The documents as collected by ranging over the map's keys in the given order. */
  function Collected(m: ResultMap, keys: seq<string>): seq<Doc>
    requires forall k :: k in keys ==> k in m
  {
    if keys == [] then [] else Collected(m, keys[..|keys| - 1]) + DocsOf(keys[|keys| - 1], m[keys[|keys| - 1]])
  }

  /** By rank, then by result key, then by name. */
  predicate DocLess(x: Doc, y: Doc)
  {
    if x.rank != y.rank then x.rank < y.rank
    else if x.key != y.key then LexLess(x.key, y.key)
    else LexLess(x.name, y.name)
  }

  lemma DocLessIsWeakOrder()
    ensures WeakOrder(DocLess)
  {
    hide LexLess;
    LexIsWeakOrder();
    forall x, y | DocLess(x, y) ensures !DocLess(y, x) {
    }
    forall x, y, z | !DocLess(x, y) && !DocLess(y, z) ensures !DocLess(x, z) {
      LexTrichotomy(x.key, y.key);
      LexTrichotomy(y.key, z.key);
      LexTrichotomy(x.key, z.key);
    }
  }

  /** Ties are of one result key, so its own list decides their order. */
  lemma {:induction false} CollectedTies(m: ResultMap, keys: seq<string>, c: Doc)
    requires NoDup(keys) && forall k :: k in keys ==> k in m
    ensures Ties(DocLess, Collected(m, keys), c) ==
            if c.key in keys then Ties(DocLess, DocsOf(c.key, m[c.key]), c) else []
  {
    hide LexLess;
    if keys != [] {
      var n := |keys| - 1;
      assert keys == keys[..n] + [keys[n]];
      NoDupSnoc(keys[..n], keys[n]);
      CollectedTies(m, keys[..n], c);
      TiesConcat(DocLess, Collected(m, keys[..n]), DocsOf(keys[n], m[keys[n]]), c);
      if keys[n] != c.key {
        ForeignTies(DocsOf(keys[n], m[keys[n]]), c);
      }
    }
  }

  lemma {:induction false} ForeignTies(docs: seq<Doc>, c: Doc)
    requires forall d :: d in docs ==> d.key != c.key
    ensures Ties(DocLess, docs, c) == []
  {
    if docs != [] {
      assert docs[0] in docs;
      LexTrichotomy(docs[0].key, c.key);
      ForeignTies(docs[1..], c);
    }
  }

  function Ordered(m: ResultMap, keys: seq<string>): seq<Doc>
    requires forall k :: k in keys ==> k in m
  {
    Sort(DocLess, Collected(m, keys))
  }

  /** The document order is one and the same for every order in which the map's keys
    * are ranged over. */
  lemma RenderOrderUnique(m: ResultMap, a: seq<string>, b: seq<string>)
    requires Enumerates(a, m.Keys) && Enumerates(b, m.Keys)
    ensures Ordered(m, a) == Ordered(m, b)
  {
    hide DocLess;
    DocLessIsWeakOrder();
    SortIsStable(DocLess, Collected(m, a));
    SortIsStable(DocLess, Collected(m, b));
    forall c ensures Ties(DocLess, Ordered(m, a), c) == Ties(DocLess, Ordered(m, b), c) {
      assert Ties(DocLess, Ordered(m, a), c) == Ties(DocLess, Collected(m, a), c);
      assert Ties(DocLess, Ordered(m, b), c) == Ties(DocLess, Collected(m, b), c);
      CollectedTies(m, a, c);
      CollectedTies(m, b, c);
    }
    SortedIsUnique(DocLess, Ordered(m, a), Ordered(m, b));
  }

  /** Collects and sorts the documents of all results, in place. */
  method RenderAll(m: ResultMap) returns (docs: array<Doc>, ghost keys: seq<string>)
    ensures fresh(docs) && Enumerates(keys, m.Keys)
    ensures docs[..] == Ordered(m, keys)
  {
    hide DocLess, KindRank;
    var entries: seq<Doc> := [];
    keys := [];
    var rest := m.Keys;
    while rest != {}
      invariant rest <= m.Keys
      invariant Enumerates(keys, m.Keys - rest)
      invariant entries == Collected(m, keys)
      decreases rest
    {
      var key :| key in rest;
      NoDupSnoc(keys, key);
      ghost var next := keys + [key];
      assert next[..|keys|] == keys;
      var list := m[key];
      var i := 0;
      while i < |list|
        invariant 0 <= i <= |list|
        invariant entries == Collected(m, keys) + DocsOf(key, list)[..i]
      {
        entries := entries + [DocOf(key, list[i])];
        i := i + 1;
      }
      keys := next;
      rest := rest - {key};
    }
    docs := new Doc[|entries|](i requires 0 <= i < |entries| => entries[i]);
    assert docs[..] == entries;
    DocLessIsWeakOrder();
    SortInPlace(DocLess, docs);
  }

  lemma {:induction false} CollectedDocs(m: ResultMap, keys: seq<string>)
    requires forall k :: k in keys ==> k in m
    ensures forall d :: d in Collected(m, keys) ==> d.rank == KindRank(d.manifest.kind) && d.name == d.manifest.name
  {
    hide KindRank;
    if keys != [] { CollectedDocs(m, keys[..|keys| - 1]); }
  }

  /** In the rendered stream a document of a lower rank stands before one of a higher rank. */
  lemma LowerRanksRenderedFirst(m: ResultMap, keys: seq<string>, i: nat, j: nat)
    requires forall k :: k in keys ==> k in m
    requires i < |Ordered(m, keys)| && j < |Ordered(m, keys)|
    requires KindRank(Ordered(m, keys)[i].manifest.kind) < KindRank(Ordered(m, keys)[j].manifest.kind)
    ensures i < j
  {
    hide Collected, Sort, WeakOrder, Sorted, LexLess, SameTies, KindRank;
    var docs := Ordered(m, keys);
    DocLessIsWeakOrder();
    SortIsStable(DocLess, Collected(m, keys));
    CollectedDocs(m, keys);
    assert docs[i] in multiset(docs) && docs[j] in multiset(docs);
    SmallerIsFirst(DocLess, docs, j, i);
  }

  /** Kinds in the order they are rendered in; kinds not listed stand where the empty set is. */
  const RENDER_ORDER: seq<set<string>> :=
    [{"Namespace"},
     {"CustomResourceDefinition", "CSIDriver"},
     {"ServiceAccount"},
     {"ClusterRole"},
     {"ClusterRoleBinding"},
     {"Role"},
     {"RoleBinding"},
     {"ConfigMap", "Secret", "SealedSecret"},
     {"PersistentVolumeClaim"},
     {"Service"},
     {},
     {"Deployment", "StatefulSet", "DaemonSet", "CronJob", "Job"},
     {"HorizontalPodAutoscaler"},
     {"Ingress", "Certificate"}]

  /** The place of a kind in the list. */
  ghost predicate StandsAt(kind: string, i: nat)
    requires i < |RENDER_ORDER|
  {
    kind in RENDER_ORDER[i] || (i == 10 && forall j :: 0 <= j < |RENDER_ORDER| ==> kind !in RENDER_ORDER[j])
  }

  lemma KindRankIs(k: string, i: nat, l: string, j: nat)
    requires i < |RENDER_ORDER| && j < |RENDER_ORDER| && StandsAt(k, i) && StandsAt(l, j)
    ensures KindRank(k) < KindRank(l) <==> i < j
  {
    RankOfPlace(k, i);
    RankOfPlace(l, j);
    hide KindRank, StandsAt, RENDER_ORDER;
  }

  lemma RankOfPlace(kind: string, i: nat)
    requires i < |RENDER_ORDER| && StandsAt(kind, i)
    ensures KindRank(kind) == RENDER_RANKS[i]
  {
    if kind in RENDER_ORDER[i] {
      ListedRank(kind, i);
    } else {
      UnlistedRank(kind);
    }
  }

  const RENDER_RANKS := [0, 1, 2, 3, 4, 5, 6, 10, 11, 20, 25, 30, 40, 50]

  lemma ListedRank(kind: string, i: nat)
    requires i < |RENDER_ORDER| && kind in RENDER_ORDER[i]
    ensures KindRank(kind) == RENDER_RANKS[i]
  {
  }

  lemma UnlistedRank(kind: string)
    requires forall j :: 0 <= j < |RENDER_ORDER| ==> kind !in RENDER_ORDER[j]
    ensures KindRank(kind) == 25
  {
    assert kind !in RENDER_ORDER[0] + RENDER_ORDER[1] + RENDER_ORDER[2] + RENDER_ORDER[3] + RENDER_ORDER[4]
                    + RENDER_ORDER[5] + RENDER_ORDER[6];
    assert kind !in RENDER_ORDER[7] + RENDER_ORDER[8] + RENDER_ORDER[9] + RENDER_ORDER[11] + RENDER_ORDER[12]
                    + RENDER_ORDER[13];
  }

  /** The rendered documents: kinds as listed; within a kind's place by result key, and then by
    * name, each in the order of Go's strings. */
  lemma RenderedAsListed(m: ResultMap, keys: seq<string>, i: nat, j: nat)
    requires forall k :: k in keys ==> k in m
    requires i < j < |Ordered(m, keys)|
    ensures var x, y := Ordered(m, keys)[i], Ordered(m, keys)[j];
            && (forall p, q | 0 <= p < |RENDER_ORDER| && 0 <= q < |RENDER_ORDER|
                              && StandsAt(x.manifest.kind, p) && StandsAt(y.manifest.kind, q) :: p <= q)
            && (KindRank(x.manifest.kind) == KindRank(y.manifest.kind) ==> !LexLess(y.key, x.key))
            && (KindRank(x.manifest.kind) == KindRank(y.manifest.kind) && x.key == y.key ==>
                  !LexLess(y.manifest.name, x.manifest.name))
  {
    var docs := Ordered(m, keys);
    var x, y := docs[i], docs[j];
    DocLessIsWeakOrder();
    SortIsStable(DocLess, Collected(m, keys));
    CollectedDocs(m, keys);
    assert x in multiset(docs) && y in multiset(docs);
    assert !DocLess(y, x);
    hide Sort, Collected, KindRank, StandsAt, RENDER_ORDER, LexLess;
    LexTrichotomy(x.key, y.key);
    forall p, q | 0 <= p < |RENDER_ORDER| && 0 <= q < |RENDER_ORDER|
                  && StandsAt(x.manifest.kind, p) && StandsAt(y.manifest.kind, q)
      ensures p <= q
    {
      KindRankIs(y.manifest.kind, q, x.manifest.kind, p);
    }
  }

  /** So nothing that runs pods stands before anything it may refer to, CSI drivers included. */
  lemma PrerequisitesRenderedFirst(m: ResultMap, keys: seq<string>, i: nat, j: nat)
    requires forall k :: k in keys ==> k in m
    requires i < |Ordered(m, keys)| && j < |Ordered(m, keys)|
    requires Prerequisite(Ordered(m, keys)[i].manifest.kind) && RunsPods(Ordered(m, keys)[j].manifest.kind)
    ensures i < j
  {
    PrerequisiteRank(Ordered(m, keys)[i].manifest.kind, Ordered(m, keys)[j].manifest.kind);
    hide Ordered, KindRank, Prerequisite, RunsPods;
    LowerRanksRenderedFirst(m, keys, i, j);
  }

  lemma PrerequisiteRank(kind: string, runs: string)
    requires Prerequisite(kind) && RunsPods(runs)
    ensures KindRank(kind) < KindRank(runs)
  {
  }

  // ------------------------------------------------- on to the controller

  /** The API group and version each generated kind carries. */
  function GroupVersion(kind: string): (string, string)
  {
    if kind in {"Deployment", "DaemonSet", "StatefulSet"} then ("apps", "v1")
    else if kind == "CronJob" then ("batch", "v1")
    else if kind == "Ingress" then ("networking.k8s.io", "v1")
    else if kind == "HTTPRoute" then ("gateway.networking.k8s.io", "v1")
    else if kind == "Certificate" then ("cert-manager.io", "v1")
    else if kind == "HorizontalPodAutoscaler" then ("autoscaling", "v2")
    else if kind == "SealedSecret" then ("bitnami.com", "v1alpha1")
    else if kind in {"ClusterRole", "ClusterRoleBinding"} then ("rbac.authorization.k8s.io", "v1")
    else if kind == "CustomResourceDefinition" then ("apiextensions.k8s.io", "v1")
    else if kind == "CSIDriver" then ("storage.k8s.io", "v1")
    else ("", "v1")
  }

  function ObjectOf(d: Doc): Object
  {
    var gv := GroupVersion(d.manifest.kind);
    Object(d.manifest.namespace, d.manifest.name, gv.0, gv.1, d.manifest.kind)
  }

  function Objects(docs: seq<Doc>): (r: seq<Object>)
    ensures |r| == |docs|
  {
    seq(|docs|, i requires 0 <= i < |docs| => ObjectOf(docs[i]))
  }

  /** The controller's order, on documents. */
  predicate ByApply(x: Doc, y: Doc)
  {
    ByRank(ObjectOf(x), ObjectOf(y))
  }

  lemma {:induction false} InsertObjects(d: Doc, docs: seq<Doc>)
    ensures Objects(Insert(ByApply, d, docs)) == Insert(ByRank, ObjectOf(d), Objects(docs))
  {
    hide ObjectOf, ByRank;
    var objs := Objects(docs);
    if docs != [] && ByApply(docs[0], d) {
      InsertObjects(d, docs[1..]);
      assert objs[1..] == Objects(docs[1..]);
      assert Objects(Insert(ByApply, d, docs)) == [ObjectOf(docs[0])] + Objects(Insert(ByApply, d, docs[1..]));
    } else {
      assert Objects([d] + docs) == [ObjectOf(d)] + objs;
    }
  }

  lemma {:induction false} SortObjects(docs: seq<Doc>)
    ensures Objects(Sort(ByApply, docs)) == Sort(ByRank, Objects(docs))
  {
    hide ObjectOf, ByRank;
    if docs != [] {
      SortObjects(docs[1..]);
      assert Objects(docs)[1..] == Objects(docs[1..]);
      InsertObjects(docs[0], Sort(ByApply, docs[1..]));
    }
  }

  /** The render sort followed by the controller's sort is one sort by apply rank,
    * kind rank, result key and name. */
  lemma ApplyOrderOfRender(m: ResultMap, keys: seq<string>)
    requires forall k :: k in keys ==> k in m
    ensures InApplyOrder(Objects(Ordered(m, keys))) ==
            Objects(Sort(Then(ByApply, DocLess), Collected(m, keys)))
  {
    hide ObjectOf, ByRank, DocLess, Sort;
    SortObjects(Ordered(m, keys));
    ByApplyIsWeakOrder();
    DocLessIsWeakOrder();
    TwoPassSort(ByApply, DocLess, Collected(m, keys));
  }

  const RBAC := {"ServiceAccount", "ClusterRole", "ClusterRoleBinding", "Role", "RoleBinding"}
  const DATA := {"ConfigMap", "Secret", "SealedSecret", "PersistentVolumeClaim"}
  const EDGES := {"Ingress", "Certificate"}

  /** A kind the render has no rank for, an HTTPRoute for one. */
  predicate Unranked(kind: string)
  {
    KindRank(kind) == 25
  }

  /** The render and the controller order the two kinds in opposite ways. */
  predicate Reversed(k: string, l: string)
  {
    KindRank(k) < KindRank(l) && ApplyRank(l) < ApplyRank(k)
  }

  /** All the pairs of kinds on which the two rank tables contradict each other. */
  lemma ReversedKinds(k: string, l: string)
    ensures Reversed(k, l) <==>
            || (k == "CSIDriver" && KindRank(l) > 1 && ApplyRank(l) < 8)
            || (k in RBAC && l in DATA)
            || (k == "ClusterRoleBinding" && l == "Role")
            || (Unranked(k) && (RunsPods(l) || l == "HorizontalPodAutoscaler" || l in EDGES))
            || (k == "Job" && (l == "HorizontalPodAutoscaler" || l in EDGES))
            || (k == "HorizontalPodAutoscaler" && l in EDGES)
  {
    RanksOf(k);
    RanksOf(l);
  }

  /** The two ranks of a kind, group by group. */
  lemma RanksOf(kind: string)
    ensures kind in RBAC ==> 2 <= KindRank(kind) <= 6 && 3 <= ApplyRank(kind) <= 4
    ensures kind in DATA ==> 10 <= KindRank(kind) <= 11 && 1 <= ApplyRank(kind) <= 2
    ensures RunsPods(kind) ==> KindRank(kind) == 30 && ApplyRank(kind) == 5
    ensures kind in EDGES ==> KindRank(kind) == 50 && ApplyRank(kind) == 6
    ensures Unranked(kind) ==> ApplyRank(kind) == 8
  {
  }

  lemma ByApplyIsWeakOrder()
    ensures WeakOrder(ByApply)
  {
    hide ApplyRank, GroupVersion;
  }
}
