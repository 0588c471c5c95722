/** What of the generated objects survives in the result map: all of them, exactly
  * when no key that is replaced was in use. */
module Conservation {
  import opened Text
  import opened Seqs
  import opened Blocks
  import opened IngressChecks
  import opened Generator
  import opened Assembly
  import opened Uniqueness

  /** All objects of a result map. */
  ghost function Total(m: ResultMap): multiset<Manifest>
    decreases m.Keys
  {
    if m.Keys == {} then multiset{}
    else
      var k :| k in m.Keys;
      assert (m - {k}).Keys == m.Keys - {k};
      multiset(m[k]) + Total(m - {k})
  }

  lemma {:induction false} TotalPick(m: ResultMap, k: string)
    requires k in m
    ensures Total(m) == multiset(m[k]) + Total(m - {k})
    decreases m.Keys
  {
    var l :| l in m.Keys && Total(m) == multiset(m[l]) + Total(m - {l});
    if l != k {
      assert (m - {l}).Keys == m.Keys - {l} && (m - {k}).Keys == m.Keys - {k};
      TotalPick(m - {l}, k);
      TotalPick(m - {k}, l);
      assert (m - {l}) - {k} == (m - {k}) - {l};
    }
  }

  /** What one write adds, and what it drops. */
  lemma TotalPut(m: ResultMap, w: Write)
    ensures var lost := if w.replace then multiset(Get(m, w.key)) else multiset{};
            && lost <= Total(m)
            && Total(Put(m, w)) == Total(m) - lost + multiset(w.objs)
  {
    hide Total;
    var n := Put(m, w);
    TotalPick(n, w.key);
    assert multiset(Get(m, w.key) + w.objs) == multiset(Get(m, w.key)) + multiset(w.objs);
    assert n - {w.key} == m - {w.key};
    if w.key in m {
      TotalPick(m, w.key);
    } else {
      assert m - {w.key} == m;
    }
  }

  /** No replacing write finds objects under its key. */
  ghost predicate KeepsAll(ws: seq<Write>)
  {
    forall j :: 0 <= j < |ws| && ws[j].replace ==> Get(PutAll(map[], ws[..j]), ws[j].key) == []
  }

  lemma KeepsAllSnoc(ws: seq<Write>, w: Write)
    ensures KeepsAll(ws + [w]) <==> KeepsAll(ws) && (w.replace ==> Get(PutAll(map[], ws), w.key) == [])
  {
    hide PutAll, Get;
    var all := ws + [w];
    assert all[..|ws|] == ws;
    assert forall j :: 0 <= j < |ws| ==> all[..j] == ws[..j] && all[j] == ws[j];
    if KeepsAll(all) {
      assert all[|ws|] == w;
      forall j | 0 <= j < |ws| && ws[j].replace ensures Get(PutAll(map[], ws[..j]), ws[j].key) == [] {
        assert all[j] == ws[j];
      }
    }
  }

  lemma EmittedSnoc(ws: seq<Write>, w: Write)
    ensures multiset(Emitted(ws + [w])) == multiset(Emitted(ws)) + multiset(w.objs)
  {
    EmittedConcat(ws, [w]);
    assert [w][1..] == [];
    assert Emitted([w]) == w.objs;
  }

  lemma NothingLost(s: seq<Manifest>)
    ensures multiset(s) == multiset{} <==> s == []
  {
    if s != [] { assert s[0] in multiset(s); }
  }

  /** Nothing is ever added, and nothing is lost exactly when no replacing write hits. */
  lemma {:induction false} TotalIs(ws: seq<Write>)
    ensures Total(PutAll(map[], ws)) <= multiset(Emitted(ws))
    ensures Total(PutAll(map[], ws)) == multiset(Emitted(ws)) <==> KeepsAll(ws)
  {
    hide Total, Put, Get, KeepsAll, Emitted;
    if ws == [] {
      NothingInTotal();
    } else {
      var n := |ws| - 1;
      var init, w := ws[..n], ws[n];
      assert ws == init + [w];
      TotalIs(init);
      var m := PutAll(map[], init);
      assert PutAll(map[], ws) == Put(m, w);
      TotalPut(m, w);
      KeepsAllSnoc(init, w);
      EmittedSnoc(init, w);
      NothingLost(Get(m, w.key));
      var lost := if w.replace then multiset(Get(m, w.key)) else multiset{};
      LossIsLoss(Total(m), multiset(Emitted(init)), lost, multiset(w.objs));
    }
  }

  lemma NothingInTotal()
    ensures Total(map[]) == multiset{} && Emitted([]) == [] && KeepsAll([])
  {
  }

  lemma LossIsLoss(t: multiset<Manifest>, e: multiset<Manifest>, lost: multiset<Manifest>, more: multiset<Manifest>)
    requires t <= e && lost <= t
    ensures t - lost + more <= e + more
    ensures t - lost + more == e + more <==> t == e && lost == multiset{}
  {
    if t - lost + more == e + more {
      assert |t - lost + more| == |t| - |lost| + |more|;
      assert |e + more| == |e| + |more|;
      assert e - t + t == e;
      assert |e| == |e - t| + |t|;
      assert |lost| == 0 && |e - t| == 0;
    }
  }

  // ------------------------------------------------------ keys that collide

  /** A later replacing write drops nothing of an earlier one. */
  predicate Spares(x: Write, y: Write)
  {
    y.replace && x.key == y.key ==> x.objs == []
  }

  ghost predicate Apart(xs: seq<Write>, ys: seq<Write>)
  {
    forall i, j :: 0 <= i < |xs| && 0 <= j < |ys| ==> Spares(xs[i], ys[j])
  }

  ghost predicate SelfApart(ws: seq<Write>)
  {
    forall i, j :: 0 <= i < j < |ws| ==> Spares(ws[i], ws[j])
  }

  predicate ReplacesAreFull(ws: seq<Write>)
  {
    forall w :: w in ws && w.replace ==> w.objs != []
  }

  lemma {:induction false} GetEmpty(ws: seq<Write>, key: string)
    requires ReplacesAreFull(ws)
    ensures Get(PutAll(map[], ws), key) == [] <==> forall i :: 0 <= i < |ws| && ws[i].key == key ==> ws[i].objs == []
  {
    if ws != [] {
      var n := |ws| - 1;
      assert ws[n] in ws;
      GetEmpty(ws[..n], key);
      var m := PutAll(map[], ws[..n]);
      assert Get(Put(m, ws[n]), key) ==
             if ws[n].key != key then Get(m, key)
             else if ws[n].replace then ws[n].objs else Get(m, key) + ws[n].objs;
      if forall i :: 0 <= i < |ws| && ws[i].key == key ==> ws[i].objs == [] {
        forall i | 0 <= i < n && ws[..n][i].key == key ensures ws[..n][i].objs == [] { assert ws[i] == ws[..n][i]; }
      }
      if forall i :: 0 <= i < n && ws[..n][i].key == key ==> ws[..n][i].objs == [] {
        forall i | 0 <= i < n && ws[i].key == key ensures ws[i].objs == [] { assert ws[i] == ws[..n][i]; }
      }
    }
  }

  lemma KeepsAllIs(ws: seq<Write>)
    requires ReplacesAreFull(ws)
    ensures KeepsAll(ws) <==> SelfApart(ws)
  {
    forall j | 0 <= j < |ws|
      ensures Get(PutAll(map[], ws[..j]), ws[j].key) == [] <==>
              forall i :: 0 <= i < j && ws[i].key == ws[j].key ==> ws[i].objs == []
    {
      var init := ws[..j];
      GetEmpty(init, ws[j].key);
      assert forall i :: 0 <= i < j ==> init[i] == ws[i];
      if forall i :: 0 <= i < j && ws[i].key == ws[j].key ==> ws[i].objs == [] {
        forall i | 0 <= i < j && init[i].key == ws[j].key ensures init[i].objs == [] { assert init[i] == ws[i]; }
      }
    }
    if SelfApart(ws) {
      forall i, j | 0 <= i < j < |ws| && ws[j].replace && ws[i].key == ws[j].key ensures ws[i].objs == [] {
        assert Spares(ws[i], ws[j]);
      }
    }
  }

  lemma SelfApartConcat(a: seq<Write>, b: seq<Write>)
    ensures SelfApart(a + b) <==> SelfApart(a) && SelfApart(b) && Apart(a, b)
  {
    hide Spares;
    var c := a + b;
    if SelfApart(c) {
      forall i, j | 0 <= i < j < |a| ensures Spares(a[i], a[j]) { assert Spares(c[i], c[j]); }
      forall i, j | 0 <= i < j < |b| ensures Spares(b[i], b[j]) { assert Spares(c[|a| + i], c[|a| + j]); }
      forall i, j | 0 <= i < |a| && 0 <= j < |b| ensures Spares(a[i], b[j]) { assert Spares(c[i], c[|a| + j]); }
    }
    if SelfApart(a) && SelfApart(b) && Apart(a, b) {
      forall i, j | 0 <= i < j < |c| ensures Spares(c[i], c[j]) {
        if j < |a| { assert c[i] == a[i] && c[j] == a[j]; }
        else if i < |a| { assert c[i] == a[i] && c[j] == b[j - |a|]; }
        else { assert c[i] == b[i - |a|] && c[j] == b[j - |a|]; }
      }
    }
  }

  lemma ApartConcat(a: seq<Write>, b: seq<Write>, c: seq<Write>)
    ensures Apart(a + b, c) <==> Apart(a, c) && Apart(b, c)
    ensures Apart(c, a + b) <==> Apart(c, a) && Apart(c, b)
  {
    hide Spares;
    var d := a + b;
    assert forall i :: 0 <= i < |a| ==> d[i] == a[i];
    assert forall i :: 0 <= i < |b| ==> d[|a| + i] == b[i];
    if Apart(a, c) && Apart(b, c) {
      forall i, j | 0 <= i < |d| && 0 <= j < |c| ensures Spares(d[i], c[j]) {
        if i < |a| { assert Spares(a[i], c[j]); } else { assert Spares(b[i - |a|], c[j]); }
      }
    }
    if Apart(c, a) && Apart(c, b) {
      forall i, j | 0 <= i < |c| && 0 <= j < |d| ensures Spares(c[i], d[j]) {
        if j < |a| { assert Spares(c[i], a[j]); } else { assert Spares(c[i], b[j - |a|]); }
      }
    }
    if Apart(d, c) {
      forall i, j | 0 <= i < |a| && 0 <= j < |c| ensures Spares(a[i], c[j]) { assert Spares(d[i], c[j]); }
      forall i, j | 0 <= i < |b| && 0 <= j < |c| ensures Spares(b[i], c[j]) { assert Spares(d[|a| + i], c[j]); }
    }
    if Apart(c, d) {
      forall i, j | 0 <= i < |c| && 0 <= j < |a| ensures Spares(c[i], a[j]) { assert Spares(c[i], d[j]); }
      forall i, j | 0 <= i < |c| && 0 <= j < |b| ensures Spares(c[i], b[j]) { assert Spares(c[i], d[|a| + j]); }
    }
  }

  /** Keys of the form tag-rest, as all but the workloads' are. */
  ghost predicate Tagged(ws: seq<Write>, tag: string)
  {
    forall w :: w in ws ==> exists rest :: w.key == tag + "-" + rest
  }

  /** Keys under different tags never meet. */
  lemma TagsApart(xs: seq<Write>, s: string, ys: seq<Write>, t: string)
    requires Tagged(xs, s) && Tagged(ys, t) && '-' !in s && '-' !in t && s != t
    ensures Apart(xs, ys)
  {
    forall i, j | 0 <= i < |xs| && 0 <= j < |ys| ensures Spares(xs[i], ys[j]) {
      if xs[i].key == ys[j].key {
        assert xs[i] in xs && ys[j] in ys;
        var x :| xs[i].key == s + "-" + x;
        var y :| ys[j].key == t + "-" + y;
        IndexOfJoin(s, '-', x);
        IndexOfJoin(t, '-', y);
        var key := xs[i].key;
        assert key == s + ['-'] + x == t + ['-'] + y;
        assert key[..|s|] == s && key[..|t|] == t;
      }
    }
  }

  predicate AppendsOnly(ws: seq<Write>)
  {
    forall w :: w in ws ==> !w.replace
  }

  lemma AppendsSpare(xs: seq<Write>, ys: seq<Write>)
    requires AppendsOnly(ys)
    ensures Apart(xs, ys) && SelfApart(ys)
  {
    forall i, j | 0 <= i < |xs| && 0 <= j < |ys| ensures Spares(xs[i], ys[j]) { assert ys[j] in ys; }
    forall i, j | 0 <= i < j < |ys| ensures Spares(ys[i], ys[j]) { assert ys[j] in ys; }
  }

  predicate ReplacesOnly(ws: seq<Write>)
  {
    forall w :: w in ws ==> w.replace && w.objs != []
  }

  predicate Full(ws: seq<Write>)
  {
    forall w :: w in ws ==> w.objs != []
  }

  function WriteKeys(ws: seq<Write>): (r: seq<string>)
    ensures |r| == |ws|
  {
    seq(|ws|, i requires 0 <= i < |ws| => ws[i].key)
  }

  function KeySet(ws: seq<Write>): set<string>
  {
    set w | w in ws :: w.key
  }

  lemma SelfApartByKeys(ws: seq<Write>)
    requires ReplacesOnly(ws)
    ensures SelfApart(ws) <==> NoDup(WriteKeys(ws))
  {
    var keys := WriteKeys(ws);
    if SelfApart(ws) {
      forall i, j | 0 <= i < j < |keys| ensures keys[i] != keys[j] {
        assert Spares(ws[i], ws[j]) && ws[i] in ws && ws[j] in ws;
      }
    }
    if NoDup(keys) {
      forall i, j | 0 <= i < j < |ws| ensures Spares(ws[i], ws[j]) { assert keys[i] != keys[j]; }
    }
  }

  lemma ApartByKeys(xs: seq<Write>, ys: seq<Write>)
    requires Full(xs) && ReplacesOnly(ys)
    ensures Apart(xs, ys) <==> KeySet(xs) !! KeySet(ys)
  {
    if Apart(xs, ys) {
      forall k | k in KeySet(xs) ensures k !in KeySet(ys) {
        var x :| x in xs && x.key == k;
        var i :| 0 <= i < |xs| && xs[i] == x;
        forall y | y in ys ensures y.key != k {
          var j :| 0 <= j < |ys| && ys[j] == y;
          assert Spares(xs[i], ys[j]);
        }
      }
    }
    if KeySet(xs) !! KeySet(ys) {
      forall i, j | 0 <= i < |xs| && 0 <= j < |ys| ensures Spares(xs[i], ys[j]) {
        assert xs[i] in xs && ys[j] in ys;
        assert xs[i].key in KeySet(xs) && ys[j].key in KeySet(ys);
      }
    }
  }

  // ---------------------------------------------------- the config's own terms

  predicate Declares(c: Config, p: (string, string))
  {
    Resolve(c.accounts, p.0, p.1).Some?
  }

  /** No two used, declared accounts share a result key: "sa-a-b-c" is both account
    * a-b in namespace c and account a in namespace b-c. */
  ghost predicate AccountsApart(c: Config, order: seq<(string, string)>)
  {
    forall i, j :: 0 <= i < j < |order| && Declares(c, order[i]) && Declares(c, order[j]) ==>
      AccountKey(order[i].0, order[i].1) != AccountKey(order[j].0, order[j].1)
  }

  ghost predicate ClusterNamesUnique(c: Config)
  {
    && NoDup(ScopelessPairs(c.clusterRoles)) && NoDup(ScopelessPairs(c.clusterRoleBindings))
    && NoDup(ScopelessPairs(c.crds)) && NoDup(ScopelessPairs(c.csiDrivers))
  }

  function BlockNames(c: Config): set<string>
  {
    (set w | w in c.deployments :: w.name) + (set w | w in c.daemonSets :: w.name)
    + (set w | w in c.statefulSets :: w.name) + (set j | j in c.cronJobs :: j.name)
  }

  function ClusterResultKeys(c: Config): set<string>
  {
    (set s | s in c.clusterRoles :: "clusterrole-" + s.name)
    + (set s | s in c.clusterRoleBindings :: "clusterrolebinding-" + s.name)
    + (set s | s in c.crds :: "crd-" + s.name) + (set s | s in c.csiDrivers :: "csidriver-" + s.name)
  }

  /** No result key is replaced while in use. */
  ghost predicate Lossless(c: Config, order: seq<(string, string)>)
  {
    && AccountsApart(c, order)
    && ClusterNamesUnique(c)
    && BlockNames(c) !! ClusterResultKeys(c)
  }

  lemma NamespacesSelfApart(nss: seq<string>)
    ensures SelfApart(NamespaceWrites(Distinct(nss))) && ReplacesOnly(NamespaceWrites(Distinct(nss)))
    ensures Tagged(NamespaceWrites(Distinct(nss)), "namespace")
  {
    var d := Distinct(nss);
    var ws := NamespaceWrites(d);
    DistinctIs(nss);
    forall w | w in ws ensures exists rest :: w.key == "namespace" + "-" + rest {
      var i :| 0 <= i < |ws| && ws[i] == w;
      assert w.key == "namespace" + "-" + d[i];
    }
    forall i, j | 0 <= i < j < |ws| ensures WriteKeys(ws)[i] != WriteKeys(ws)[j] {
      assert d[i] != d[j];
      assert ws[i].key[10..] == d[i] && ws[j].key[10..] == d[j];
    }
    SelfApartByKeys(ws);
  }

  lemma {:induction false} AccountKeySet(accounts: seq<Account>, order: seq<(string, string)>, key: string)
    ensures ReplacesOnly(AccountWrites(accounts, order))
    ensures Tagged(AccountWrites(accounts, order), "sa")
    ensures key in WriteKeys(AccountWrites(accounts, order)) <==>
            exists i :: 0 <= i < |order| && Resolve(accounts, order[i].0, order[i].1).Some?
                        && AccountKey(order[i].0, order[i].1) == key
  {
    hide Resolve;
    if order != [] {
      var n := |order| - 1;
      var name, ns := order[n].0, order[n].1;
      AccountKeySet(accounts, order[..n], key);
      var init := AccountWrites(accounts, order[..n]);
      var sa := Resolve(accounts, name, ns);
      if sa.Some? {
        var w := AccountWrite(sa.value, name, ns);
        assert w.key == "sa" + "-" + (name + "-" + ns);
        assert WriteKeys(init + [w]) == WriteKeys(init) + [w.key];
      } else {
        assert init + [] == init;
      }
      assert forall i :: 0 <= i < n ==> order[..n][i] == order[i];
      if i :| 0 <= i < |order| && Resolve(accounts, order[i].0, order[i].1).Some?
              && AccountKey(order[i].0, order[i].1) == key {
        if i < n { assert order[..n][i] == order[i]; }
      }
    }
  }

  lemma {:induction false} AccountsSelfApart(c: Config, order: seq<(string, string)>)
    ensures NoDup(WriteKeys(AccountWrites(c.accounts, order))) <==> AccountsApart(c, order)
  {
    if order != [] {
      var n := |order| - 1;
      var init, p := order[..n], order[n];
      AccountsSelfApart(c, init);
      AccountsApartSnoc(c, order);
      NextAccountKey(c, order);
      hide Resolve, AccountKey, NoDup, AccountsApart, AccountWrites;
      var names, key := WriteKeys(AccountWrites(c.accounts, init)), AccountKey(p.0, p.1);
      AccountKeySet(c.accounts, init, key);
      NoDupSnoc(names, key);
      assert names + [] == names;
    }
  }

  lemma NextAccountKey(c: Config, order: seq<(string, string)>)
    requires order != []
    ensures var n := |order| - 1;
            WriteKeys(AccountWrites(c.accounts, order)) ==
            WriteKeys(AccountWrites(c.accounts, order[..n]))
            + if Declares(c, order[n]) then [AccountKey(order[n].0, order[n].1)] else []
  {
    hide Resolve, AccountKey, WriteKeys;
    var p := order[|order| - 1];
    var more := if Declares(c, p) then [AccountWrite(Resolve(c.accounts, p.0, p.1).value, p.0, p.1)] else [];
    WriteKeysConcat(AccountWrites(c.accounts, order[..|order| - 1]), more);
    WriteKeysOne(more);
  }

  lemma WriteKeysConcat(a: seq<Write>, b: seq<Write>)
    ensures WriteKeys(a + b) == WriteKeys(a) + WriteKeys(b)
  {
  }

  lemma WriteKeysOne(ws: seq<Write>)
    ensures ws == [] ==> WriteKeys(ws) == []
    ensures |ws| == 1 ==> WriteKeys(ws) == [ws[0].key]
  {
  }

  /** One more pair stays apart exactly when it is undeclared or its key is new. */
  lemma AccountsApartSnoc(c: Config, order: seq<(string, string)>)
    requires order != []
    ensures var n := |order| - 1;
            var key := AccountKey(order[n].0, order[n].1);
            AccountsApart(c, order) <==>
              && AccountsApart(c, order[..n])
              && (Declares(c, order[n]) ==>
                    forall i :: 0 <= i < n && Declares(c, order[..n][i]) ==>
                      AccountKey(order[..n][i].0, order[..n][i].1) != key)
  {
    hide Declares, AccountKey;
    var n := |order| - 1;
    assert forall i :: 0 <= i < n ==> order[..n][i] == order[i];
  }

  lemma ScopelessKeySet(tag: string, kind: string, ss: seq<Scopeless>)
    ensures var ws := ScopelessWrites(tag + "-", kind, ss);
            && ReplacesOnly(ws) && Tagged(ws, tag)
            && KeySet(ws) == (set s | s in ss :: tag + "-" + s.name)
  {
    var ws := ScopelessWrites(tag + "-", kind, ss);
    forall w | w in ws ensures exists rest :: w.key == tag + "-" + rest {
      var i :| 0 <= i < |ws| && ws[i] == w;
      assert w.key == tag + "-" + ss[i].name;
    }
    forall k | k in KeySet(ws) ensures k in (set s | s in ss :: tag + "-" + s.name) {
      var i :| 0 <= i < |ws| && ws[i].key == k;
      assert ss[i] in ss;
    }
    forall s | s in ss ensures tag + "-" + s.name in KeySet(ws) {
      var i :| 0 <= i < |ss| && ss[i] == s;
      assert ws[i] in ws;
    }
  }

  lemma ScopelessSelfApart(tag: string, kind: string, ss: seq<Scopeless>)
    ensures SelfApart(ScopelessWrites(tag + "-", kind, ss)) <==> NoDup(ScopelessPairs(ss))
  {
    hide SelfApart;
    var ws := ScopelessWrites(tag + "-", kind, ss);
    SelfApartByKeys(ws);
    ScopelessPairsAre(ss);
    var keys, pairs := WriteKeys(ws), ScopelessPairs(ss);
    forall i, j | 0 <= i < j < |ss| ensures keys[i] == keys[j] <==> pairs[i] == pairs[j] {
      assert (tag + "-" + ss[i].name)[|tag| + 1..] == ss[i].name;
      assert (tag + "-" + ss[j].name)[|tag| + 1..] == ss[j].name;
    }
  }

  lemma {:induction false} ScopelessPairsAre(ss: seq<Scopeless>)
    ensures |ScopelessPairs(ss)| == |ss|
    ensures forall i :: 0 <= i < |ss| ==> ScopelessPairs(ss)[i] == ("", ss[i].name)
  {
    if ss != [] { ScopelessPairsAre(ss[1..]); }
  }

  lemma PlainTagged(tag: string, kind: string, ps: seq<Plain>)
    ensures Tagged(PlainWrites(tag + "-", kind, ps), tag) && AppendsOnly(PlainWrites(tag + "-", kind, ps))
  {
    var ws := PlainWrites(tag + "-", kind, ps);
    forall w | w in ws ensures exists rest :: w.key == tag + "-" + rest {
      var i :| 0 <= i < |ws| && ws[i] == w;
      assert w.key == tag + "-" + ps[i].name;
    }
  }

  lemma IngressTagged(ings: seq<Ingress>, mode: string)
    ensures Tagged(IngressWrites(ings, mode), "ingress") && AppendsOnly(IngressWrites(ings, mode))
  {
    hide SlotManifests, TopLevelSlots;
    var ws := IngressWrites(ings, mode);
    forall w | w in ws ensures exists rest :: w.key == "ingress" + "-" + rest {
      var i :| 0 <= i < |ws| && ws[i] == w;
      assert w.key == "ingress" + "-" + ings[i].name;
    }
  }

  lemma WorkloadKeySet(writes: seq<Write>, ws: seq<Workload>)
    requires |writes| == |ws| && forall i :: 0 <= i < |ws| ==> writes[i].key == ws[i].name
    ensures KeySet(writes) == (set w | w in ws :: w.name)
  {
    forall k | k in KeySet(writes) ensures k in (set w | w in ws :: w.name) {
      var i :| 0 <= i < |writes| && writes[i].key == k;
      assert ws[i] in ws;
    }
    forall w | w in ws ensures w.name in KeySet(writes) {
      var i :| 0 <= i < |ws| && ws[i] == w;
      assert writes[i] in writes;
    }
  }

  lemma CronJobKeySet(cs: seq<CronJob>)
    ensures KeySet(CronJobWrites(cs)) == (set j | j in cs :: j.name)
  {
    var writes := CronJobWrites(cs);
    forall k | k in KeySet(writes) ensures k in (set j | j in cs :: j.name) {
      var i :| 0 <= i < |writes| && writes[i].key == k;
      assert cs[i] in cs;
    }
    forall j | j in cs ensures j.name in KeySet(writes) {
      var i :| 0 <= i < |cs| && cs[i] == j;
      assert writes[i] in writes;
    }
  }

  lemma NamedWritesAre(c: Config)
    ensures AppendsOnly(NamedWrites(c)) && Full(NamedWrites(c))
    ensures KeySet(NamedWrites(c)) == BlockNames(c)
  {
    hide ServiceManifest, SlotsManifests, ScalerManifest, NestedSlots;
    var mode := ModeOf(c.ingressDefaults);
    var d, e, s, j := DeploymentWrites(c.deployments, mode), DaemonSetWrites(c.daemonSets),
                      StatefulSetWrites(c.statefulSets, mode), CronJobWrites(c.cronJobs);
    WorkloadKeySet(d, c.deployments);
    WorkloadKeySet(e, c.daemonSets);
    WorkloadKeySet(s, c.statefulSets);
    CronJobKeySet(c.cronJobs);
    assert KeySet(d + e + s + j) == KeySet(d) + KeySet(e) + KeySet(s) + KeySet(j);
  }

  // --------------------------------------------------------- the theorems

  lemma LiteralTags()
    ensures "namespace-" == "namespace" + "-" && "sa-" == "sa" + "-"
    ensures "configmap-" == "configmap" + "-" && "ingress-" == "ingress" + "-" && "secret-" == "secret" + "-"
    ensures "sealedsecret-" == "sealedsecret" + "-" && "pvc-" == "pvc" + "-"
    ensures "clusterrole-" == "clusterrole" + "-" && "clusterrolebinding-" == "clusterrolebinding" + "-"
    ensures "crd-" == "crd" + "-" && "csidriver-" == "csidriver" + "-"
  {
  }

  const CLUSTER_TAGS := ["clusterrole", "clusterrolebinding", "crd", "csidriver"]
  const OTHER_TAGS := ["namespace", "sa", "configmap", "ingress", "secret", "sealedsecret", "pvc"]

  lemma TagsDiffer()
    ensures forall t :: t in CLUSTER_TAGS + OTHER_TAGS ==> '-' !in t
    ensures forall i, j :: 0 <= i < j < |CLUSTER_TAGS| ==> CLUSTER_TAGS[i] != CLUSTER_TAGS[j]
    ensures forall s, t :: s in OTHER_TAGS && t in CLUSTER_TAGS ==> s != t
    ensures "namespace" != "sa"
  {
  }

  /** Writes under a non-cluster tag never meet a cluster write. */
  lemma ClusterSpares(xs: seq<Write>, tag: string, c: Config)
    requires Tagged(xs, tag) && tag in OTHER_TAGS
    ensures Apart(xs, ClusterWrites(c))
  {
    hide ScopelessWrites, Tagged, Apart;
    LiteralTags();
    TagsDiffer();
    ScopelessKeySet("clusterrole", "ClusterRole", c.clusterRoles);
    ScopelessKeySet("clusterrolebinding", "ClusterRoleBinding", c.clusterRoleBindings);
    ScopelessKeySet("crd", "CustomResourceDefinition", c.crds);
    ScopelessKeySet("csidriver", "CSIDriver", c.csiDrivers);
    var a, b := ScopelessWrites("clusterrole-", "ClusterRole", c.clusterRoles),
                ScopelessWrites("clusterrolebinding-", "ClusterRoleBinding", c.clusterRoleBindings);
    var d, e := ScopelessWrites("crd-", "CustomResourceDefinition", c.crds),
                ScopelessWrites("csidriver-", "CSIDriver", c.csiDrivers);
    assert tag in CLUSTER_TAGS + OTHER_TAGS;
    assert CLUSTER_TAGS[0] in CLUSTER_TAGS && CLUSTER_TAGS[1] in CLUSTER_TAGS;
    assert CLUSTER_TAGS[2] in CLUSTER_TAGS && CLUSTER_TAGS[3] in CLUSTER_TAGS;
    TagsApart(xs, tag, a, CLUSTER_TAGS[0]);
    TagsApart(xs, tag, b, CLUSTER_TAGS[1]);
    TagsApart(xs, tag, d, CLUSTER_TAGS[2]);
    TagsApart(xs, tag, e, CLUSTER_TAGS[3]);
    ApartConcat(a + b + d, e, xs);
    ApartConcat(a + b, d, xs);
    ApartConcat(a, b, xs);
  }

  lemma ClusterSelfApart(c: Config)
    ensures SelfApart(ClusterWrites(c)) <==> ClusterNamesUnique(c)
    ensures ReplacesOnly(ClusterWrites(c)) && KeySet(ClusterWrites(c)) == ClusterResultKeys(c)
  {
    hide ScopelessWrites, Tagged, Apart, SelfApart, ScopelessPairs;
    LiteralTags();
    TagsDiffer();
    ScopelessKeySet("clusterrole", "ClusterRole", c.clusterRoles);
    ScopelessKeySet("clusterrolebinding", "ClusterRoleBinding", c.clusterRoleBindings);
    ScopelessKeySet("crd", "CustomResourceDefinition", c.crds);
    ScopelessKeySet("csidriver", "CSIDriver", c.csiDrivers);
    ScopelessSelfApart("clusterrole", "ClusterRole", c.clusterRoles);
    ScopelessSelfApart("clusterrolebinding", "ClusterRoleBinding", c.clusterRoleBindings);
    ScopelessSelfApart("crd", "CustomResourceDefinition", c.crds);
    ScopelessSelfApart("csidriver", "CSIDriver", c.csiDrivers);
    var a, b := ScopelessWrites("clusterrole-", "ClusterRole", c.clusterRoles),
                ScopelessWrites("clusterrolebinding-", "ClusterRoleBinding", c.clusterRoleBindings);
    var d, e := ScopelessWrites("crd-", "CustomResourceDefinition", c.crds),
                ScopelessWrites("csidriver-", "CSIDriver", c.csiDrivers);
    ClusterPairsApart(a, b, d, e);
    SelfApartConcat(a + b + d, e);
    SelfApartConcat(a + b, d);
    SelfApartConcat(a, b);
    assert KeySet(a + b + d + e) == KeySet(a) + KeySet(b) + KeySet(d) + KeySet(e);
  }

  lemma ClusterPairsApart(a: seq<Write>, b: seq<Write>, d: seq<Write>, e: seq<Write>)
    requires Tagged(a, "clusterrole") && Tagged(b, "clusterrolebinding") && Tagged(d, "crd") && Tagged(e, "csidriver")
    ensures Apart(a, b) && Apart(a + b, d) && Apart(a + b + d, e)
  {
    hide Tagged, Apart;
    TagsDiffer();
    assert forall t :: t in CLUSTER_TAGS ==> t in CLUSTER_TAGS + OTHER_TAGS;
    assert CLUSTER_TAGS[0] in CLUSTER_TAGS && CLUSTER_TAGS[1] in CLUSTER_TAGS;
    assert CLUSTER_TAGS[2] in CLUSTER_TAGS && CLUSTER_TAGS[3] in CLUSTER_TAGS;
    TagsApart(a, CLUSTER_TAGS[0], b, CLUSTER_TAGS[1]);
    TagsApart(a, CLUSTER_TAGS[0], d, CLUSTER_TAGS[2]);
    TagsApart(b, CLUSTER_TAGS[1], d, CLUSTER_TAGS[2]);
    TagsApart(a, CLUSTER_TAGS[0], e, CLUSTER_TAGS[3]);
    TagsApart(b, CLUSTER_TAGS[1], e, CLUSTER_TAGS[3]);
    TagsApart(d, CLUSTER_TAGS[2], e, CLUSTER_TAGS[3]);
    ApartConcat(a, b, d);
    ApartConcat(a + b, d, e);
    ApartConcat(a, b, e);
  }

  lemma PrefixedSpared(c: Config)
    ensures AppendsOnly(PrefixedWrites(c)) && Apart(PrefixedWrites(c), ClusterWrites(c))
  {
    hide PlainWrites, IngressWrites, Tagged, Apart, ClusterWrites, ModeOf;
    LiteralTags();
    var mode := ModeOf(c.ingressDefaults);
    PlainTagged("configmap", "ConfigMap", c.configMaps);
    PlainTagged("secret", "Secret", c.secrets);
    PlainTagged("sealedsecret", "SealedSecret", c.sealedSecrets);
    PlainTagged("pvc", "PersistentVolumeClaim", c.claims);
    IngressTagged(c.ingresses, mode);
    var a, b := PlainWrites("configmap-", "ConfigMap", c.configMaps), IngressWrites(c.ingresses, mode);
    var d, e := PlainWrites("secret-", "Secret", c.secrets), PlainWrites("sealedsecret-", "SealedSecret", c.sealedSecrets);
    var f := PlainWrites("pvc-", "PersistentVolumeClaim", c.claims);
    assert OTHER_TAGS[2] in OTHER_TAGS && OTHER_TAGS[3] in OTHER_TAGS && OTHER_TAGS[4] in OTHER_TAGS;
    assert OTHER_TAGS[5] in OTHER_TAGS && OTHER_TAGS[6] in OTHER_TAGS;
    ClusterSpares(a, OTHER_TAGS[2], c);
    ClusterSpares(b, OTHER_TAGS[3], c);
    ClusterSpares(d, OTHER_TAGS[4], c);
    ClusterSpares(e, OTHER_TAGS[5], c);
    ClusterSpares(f, OTHER_TAGS[6], c);
    ApartConcat(a + b + d + e, f, ClusterWrites(c));
    ApartConcat(a + b + d, e, ClusterWrites(c));
    ApartConcat(a + b, d, ClusterWrites(c));
    ApartConcat(a, b, ClusterWrites(c));
  }

  lemma AllWritesApart(c: Config, order: seq<(string, string)>)
    ensures ReplacesAreFull(AllWrites(c, order))
    ensures SelfApart(AllWrites(c, order)) <==> Lossless(c, order)
  {
    hide NamespaceWrites, AccountWrites, NamedWrites, PrefixedWrites, ClusterWrites, Distinct, Tagged, Apart,
         SelfApart, KeySet, WriteKeys, BlockNames, ClusterResultKeys, AccountsApart, ClusterNamesUnique;
    var n, a := NamespaceWrites(Distinct(c.namespaces)), AccountWrites(c.accounts, order);
    var w, p, k := NamedWrites(c), PrefixedWrites(c), ClusterWrites(c);
    NamespacesSelfApart(c.namespaces);
    AccountKeySet(c.accounts, order, "");
    SelfApartByKeys(a);
    AccountsSelfApart(c, order);
    NamedWritesAre(c);
    PrefixedSpared(c);
    ClusterSelfApart(c);
    ApartByKeys(w, k);
    TagsDiffer();
    assert forall t :: t in OTHER_TAGS ==> t in CLUSTER_TAGS + OTHER_TAGS;
    assert OTHER_TAGS[0] in OTHER_TAGS && OTHER_TAGS[1] in OTHER_TAGS;
    TagsApart(n, OTHER_TAGS[0], a, OTHER_TAGS[1]);
    ClusterSpares(n, OTHER_TAGS[0], c);
    ClusterSpares(a, OTHER_TAGS[1], c);
    AppendsSpare(n + a, w);
    AppendsSpare(n + a + w, p);
    SelfApartConcat(n + a + w + p, k);
    SelfApartConcat(n + a + w, p);
    SelfApartConcat(n + a, w);
    SelfApartConcat(n, a);
    ApartConcat(n + a + w, p, k);
    ApartConcat(n + a, w, k);
    ApartConcat(n, a, k);
  }

  /** Conservation: the result map holds every block's own objects, one Namespace
    * per distinct namespace and one ServiceAccount per used and declared pair,
    * each once; exactly when no result key is replaced while in use. Nothing is
    * ever added. */
  lemma ConservationExact(c: Config, order: seq<(string, string)>)
    ensures Total(Generated(c, order)) <= multiset(Expected(c, order))
    ensures Total(Generated(c, order)) == multiset(Expected(c, order)) <==> Lossless(c, order)
  {
    hide Total, AllWrites, Lossless, KeepsAll, SelfApart, PutAll;
    var ws := AllWrites(c, order);
    AllWritesApart(c, order);
    KeepsAllIs(ws);
    TotalIs(ws);
  }
}
