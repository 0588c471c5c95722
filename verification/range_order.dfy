/** Generate against Go's freedom to range over the account maps in any order. */
module RangeOrder {
  import opened Options
  import opened Text
  import opened Seqs
  import opened StableSort
  import opened SortedKeying
  import opened Blocks
  import opened Acceptance
  import opened Duplicates
  import opened IngressChecks
  import opened Generator
  import opened Assembly
  import opened CollisionFree
  import opened Conservation
  import opened GenerateTheorems

  // ------------------------------------------------------------ range order

  /** The last declared pair of the order that writes the key. */
  function Winner(c: Config, order: seq<(string, string)>, key: string): Option<(string, string)>
  {
    if order == [] then None
    else
      var n := |order| - 1;
      if Declares(c, order[n]) && AccountKey(order[n].0, order[n].1) == key then Some(order[n])
      else Winner(c, order[..n], key)
  }

  lemma {:induction false} WinnerIs(c: Config, order: seq<(string, string)>, key: string)
    ensures match Winner(c, order, key)
            case Some(p) => p in order && Declares(c, p) && AccountKey(p.0, p.1) == key
            case None => forall p :: p in order && Declares(c, p) ==> AccountKey(p.0, p.1) != key
  {
    hide Resolve, AccountKey;
    if order != [] {
      var n := |order| - 1;
      WinnerIs(c, order[..n], key);
      assert order == order[..n] + [order[n]];
    }
  }

  /** What the accounts' loop leaves under a key. */
  ghost predicate Holds(c: Config, m: ResultMap, r: ResultMap, key: string, winner: Option<(string, string)>)
  {
    match winner
    case None => (key in r <==> key in m) && (key in m ==> r[key] == m[key])
    case Some(p) => Declares(c, p) && key in r
                    && r[key] == AccountWrite(Resolve(c.accounts, p.0, p.1).value, p.0, p.1).objs
  }

  lemma {:induction false} AccountsPut(c: Config, m: ResultMap, order: seq<(string, string)>, key: string)
    ensures Holds(c, m, PutAll(m, AccountWrites(c.accounts, order)), key, Winner(c, order, key))
  {
    hide Resolve, AccountKey;
    if order != [] {
      var n := |order| - 1;
      var init, p := order[..n], order[n];
      AccountsPut(c, m, init, key);
      if Declares(c, p) {
        PutAllSnoc(m, AccountWrites(c.accounts, init), AccountWrite(Resolve(c.accounts, p.0, p.1).value, p.0, p.1));
      } else {
        assert AccountWrites(c.accounts, init) + [] == AccountWrites(c.accounts, init);
      }
    }
  }

  lemma SameWinner(c: Config, a: seq<(string, string)>, b: seq<(string, string)>, key: string)
    requires AccountsApart(c, a)
    requires forall p :: p in a <==> p in b
    ensures Winner(c, a, key) == Winner(c, b, key)
  {
    hide Resolve, AccountKey;
    WinnerIs(c, a, key);
    WinnerIs(c, b, key);
    if Winner(c, a, key).Some? && Winner(c, b, key).Some? {
      var p, q := Winner(c, a, key).value, Winner(c, b, key).value;
      var i :| 0 <= i < |a| && a[i] == p;
      var j :| 0 <= j < |a| && a[j] == q;
      assert i == j || i < j || j < i;
    }
  }

  lemma AccountsPutSame(c: Config, m: ResultMap, a: seq<(string, string)>, b: seq<(string, string)>)
    requires AccountsApart(c, a)
    requires forall p :: p in a <==> p in b
    ensures PutAll(m, AccountWrites(c.accounts, a)) == PutAll(m, AccountWrites(c.accounts, b))
  {
    hide Resolve, AccountKey, PutAll, AccountWrites, AccountsApart;
    var r, s := PutAll(m, AccountWrites(c.accounts, a)), PutAll(m, AccountWrites(c.accounts, b));
    forall k ensures (k in r <==> k in s) && (k in r ==> r[k] == s[k]) {
      AccountsPut(c, m, a, k);
      AccountsPut(c, m, b, k);
      SameWinner(c, a, b, k);
    }
  }

  /** With distinct account keys the result is the same for every range order. */
  lemma RangeOrderIrrelevant(c: Config, a: seq<(string, string)>, b: seq<(string, string)>)
    requires Enumerates(a, UsedAccounts(c)) && Enumerates(b, UsedAccounts(c))
    requires AccountsApart(c, a)
    ensures Generated(c, a) == Generated(c, b)
  {
    hide AccountWrites, NamespaceWrites, NamedWrites, PrefixedWrites, ClusterWrites, PutAll, UsedAccounts, AccountsApart;
    var n := NamespaceWrites(Distinct(c.namespaces));
    AccountsPutSame(c, PutAll(map[], n), a, b);
    GeneratedInParts(c, a);
    GeneratedInParts(c, b);
  }

  lemma GeneratedInParts(c: Config, order: seq<(string, string)>)
    ensures Generated(c, order) ==
            PutAll(PutAll(PutAll(PutAll(PutAll(map[], NamespaceWrites(Distinct(c.namespaces))),
              AccountWrites(c.accounts, order)), NamedWrites(c)), PrefixedWrites(c)), ClusterWrites(c))
  {
    hide AccountWrites, NamespaceWrites, NamedWrites, PrefixedWrites, ClusterWrites, PutAll;
    var n, a := NamespaceWrites(Distinct(c.namespaces)), AccountWrites(c.accounts, order);
    var w, p, k := NamedWrites(c), PrefixedWrites(c), ClusterWrites(c);
    PutAllConcat(map[], n + a + w + p, k);
    PutAllConcat(map[], n + a + w, p);
    PutAllConcat(map[], n + a, w);
    PutAllConcat(map[], n, a);
  }

  // ------------------------------------------- and when it does matter

  /** What a key's first object is does not change by appending. */
  lemma {:induction false} FirstStays(m: ResultMap, ws: seq<Write>, key: string)
    requires AppendsOnly(ws) || forall w :: w in ws ==> w.key != key
    requires key in m && m[key] != []
    ensures var r := PutAll(m, ws);
            key in r && r[key] != [] && r[key][0] == m[key][0]
  {
    if ws != [] {
      var n := |ws| - 1;
      assert ws[n] in ws;
      assert forall w :: w in ws[..n] ==> w in ws;
      FirstStays(m, ws[..n], key);
    }
  }

  /** The pair that writes a key last is the one in the result, whatever is written later. */
  lemma WinnerStays(c: Config, order: seq<(string, string)>, key: string)
    requires Winner(c, order, key).Some?
    ensures var r, p := Generated(c, order), Winner(c, order, key).value;
            && key in r && r[key] != [] && r[key][0].namespace == p.1
            && r[key][0].name == p.0 && r[key][0].kind == "ServiceAccount"
  {
    hide NamedWrites, PrefixedWrites, ClusterWrites, PutAll, Resolve, AccountWrites, Winner;
    var p := Winner(c, order, key).value;
    WinnerIs(c, order, key);
    ResolveIs(c.accounts, p.0, p.1);
    GeneratedInParts(c, order);
    var m0 := PutAll(map[], NamespaceWrites(Distinct(c.namespaces)));
    AccountsPut(c, m0, order, key);
    var m := PutAll(m0, AccountWrites(c.accounts, order));
    NamedWritesAre(c);
    PrefixedSpared(c);
    FirstStays(m, NamedWrites(c), key);
    FirstStays(PutAll(m, NamedWrites(c)), PrefixedWrites(c), key);
    ClusterKeysApart(c, key, p);
    FirstStays(PutAll(PutAll(m, NamedWrites(c)), PrefixedWrites(c)), ClusterWrites(c), key);
  }

  /** Name order, but with one name after all others. */
  predicate Earlier(last: string, p: (string, string), q: (string, string))
  {
    p.0 != last && (q.0 == last || LexLess(p.0, q.0))
  }

  function WithLast(last: string, order: seq<(string, string)>): seq<(string, string)>
  {
    Sort((p, q) => Earlier(last, p, q), order)
  }

  lemma EarlierIsWeakOrder(last: string)
    ensures WeakOrder((p, q) => Earlier(last, p, q))
  {
    hide LexLess;
    LexIsWeakOrder();
    forall p: (string, string), q: (string, string) | Earlier(last, p, q) ensures !Earlier(last, q, p) {
      LexTrichotomy(p.0, q.0);
    }
    forall x: (string, string), y: (string, string), z: (string, string) | !Earlier(last, x, y) && !Earlier(last, y, z)
      ensures !Earlier(last, x, z)
    {
      assert !LexLess(x.0, y.0) && !LexLess(y.0, z.0) ==> !LexLess(x.0, z.0);
    }
  }

  /** A range order in which the named account comes last. */
  lemma WithLastIsRange(last: string, order: seq<(string, string)>, s: set<(string, string)>)
    requires Enumerates(order, s)
    ensures Enumerates(WithLast(last, order), s) && Grouped(WithLast(last, order))
    ensures var r := WithLast(last, order);
            forall i, j :: 0 <= i < j < |r| && r[i].0 == last ==> r[j].0 == last
  {
    hide Sort, LexLess;
    var less := (p, q) => Earlier(last, p, q);
    var r := WithLast(last, order);
    EarlierIsWeakOrder(last);
    SortIsStable(less, order);
    NoDupPermuted(r, order);
    forall p ensures p in r <==> p in s {
      assert p in r <==> p in multiset(r);
      assert p in order <==> p in multiset(order);
    }
    forall i, j, k | 0 <= i < j < k < |r| && r[i].0 == r[k].0 ensures r[j].0 == r[i].0 {
      assert !less(r[j], r[i]) && !less(r[k], r[j]);
      LexTrichotomy(r[i].0, r[j].0);
    }
    forall i, j | 0 <= i < j < |r| && r[i].0 == last ensures r[j].0 == last {
      assert !less(r[j], r[i]);
    }
  }

  /** The named account wins its key in that order: no other pair of its own has the key. */
  lemma {:induction false} LastWins(c: Config, order: seq<(string, string)>, p: (string, string), n: nat)
    requires n <= |order| && NoDup(order) && Declares(c, p)
    requires forall i, j :: 0 <= i < j < |order| && order[i].0 == p.0 ==> order[j].0 == p.0
    requires p in order[..n]
    ensures Winner(c, order[..n], AccountKey(p.0, p.1)) == Some(p)
  {
    hide Resolve, NoDup, Declares;
    var init := order[..n - 1];
    assert order[..n][..n - 1] == init && order[..n] == init + [order[n - 1]];
    if order[n - 1] != p {
      var i :| 0 <= i < n - 1 && order[i] == p;
      assert order[n - 1].0 == p.0;
      SameAccountKeys(p.0, p.1, order[n - 1].1);
      assert p in init;
      LastWins(c, order, p, n - 1);
    }
  }

  lemma SameAccountKeys(name: string, x: string, y: string)
    ensures AccountKey(name, x) == AccountKey(name, y) <==> x == y
  {
    var k, l := AccountKey(name, x), AccountKey(name, y);
    assert k == ("sa-" + name + "-") + x && l == ("sa-" + name + "-") + y;
    assert k[|name| + 4..] == x && l[|name| + 4..] == y;
  }

  lemma WinsWhenLast(c: Config, order: seq<(string, string)>, p: (string, string))
    requires Enumerates(order, UsedAccounts(c)) && p in order && Declares(c, p)
    ensures var r, key := Generated(c, WithLast(p.0, order)), AccountKey(p.0, p.1);
            key in r && r[key] != [] && r[key][0].name == p.0
  {
    hide Generated, Winner, AccountKey, Declares, WithLast, Grouped, UsedAccounts;
    var r := WithLast(p.0, order);
    WithLastIsRange(p.0, order, UsedAccounts(c));
    assert p in r && r[..|r|] == r;
    LastWins(c, r, p, |r|);
    WinnerStays(c, r, AccountKey(p.0, p.1));
  }

  /** The result depends on nothing but the config: every two orders that Go may range in give
    * the same map. */
  ghost predicate OneResult(c: Config)
  {
    forall a, b :: Enumerates(a, UsedAccounts(c)) && Grouped(a) && Enumerates(b, UsedAccounts(c)) && Grouped(b) ==>
      Generated(c, a) == Generated(c, b)
  }

  /** With two used and declared accounts on one key, two orders that Go may range in differ in
    * which of them is generated. */
  lemma RangeOrderMatters(c: Config, order: seq<(string, string)>)
    requires Enumerates(order, UsedAccounts(c)) && !AccountsApart(c, order)
    ensures exists a, b :: Enumerates(a, UsedAccounts(c)) && Grouped(a) && Enumerates(b, UsedAccounts(c)) && Grouped(b)
              && Generated(c, a) != Generated(c, b)
  {
    hide Generated, Resolve, WithLast, Grouped, UsedAccounts;
    var i, j :| 0 <= i < j < |order| && Declares(c, order[i]) && Declares(c, order[j])
                && AccountKey(order[i].0, order[i].1) == AccountKey(order[j].0, order[j].1);
    var p, q := order[i], order[j];
    if p.0 == q.0 {
      SameAccountKeys(p.0, p.1, q.1);
    }
    assert p.0 != q.0;
    WinsWhenLast(c, order, p);
    WinsWhenLast(c, order, q);
    WithLastIsRange(p.0, order, UsedAccounts(c));
    WithLastIsRange(q.0, order, UsedAccounts(c));
    var a, b := WithLast(p.0, order), WithLast(q.0, order);
    assert Generated(c, a)[AccountKey(p.0, p.1)][0].name != Generated(c, b)[AccountKey(p.0, p.1)][0].name;
  }

  /** Every range order gives the same result exactly when no two used and declared accounts
    * share a result key; be it every order of the pairs, or every order account by account. */
  lemma RangeOrderExact(c: Config, order: seq<(string, string)>)
    requires Enumerates(order, UsedAccounts(c))
    ensures AccountsApart(c, order) <==> OneResult(c)
    ensures AccountsApart(c, order) <==>
            forall a, b :: Enumerates(a, UsedAccounts(c)) && Enumerates(b, UsedAccounts(c)) ==>
              Generated(c, a) == Generated(c, b)
  {
    hide Generated, AccountsApart, UsedAccounts, Grouped, Enumerates;
    if AccountsApart(c, order) {
      forall a, b | Enumerates(a, UsedAccounts(c)) && Enumerates(b, UsedAccounts(c))
        ensures Generated(c, a) == Generated(c, b)
      {
        RangeOrderIrrelevant(c, order, a);
        RangeOrderIrrelevant(c, order, b);
      }
    } else {
      RangeOrderMatters(c, order);
    }
  }

  lemma ClusterKeysApart(c: Config, key: string, p: (string, string))
    requires key == AccountKey(p.0, p.1)
    ensures forall w :: w in ClusterWrites(c) ==> w.key != key
  {
    hide ClusterWrites;
    ClusterSelfApart(c);
    PrefixApart("sa-", "clusterrole-", 0);
    PrefixApart("sa-", "clusterrolebinding-", 0);
    PrefixApart("sa-", "crd-", 0);
    PrefixApart("sa-", "csidriver-", 0);
    forall w | w in ClusterWrites(c) ensures w.key != key {
      assert w.key in KeySet(ClusterWrites(c));
      assert w.key in ClusterResultKeys(c);
    }
  }

  // ------------------------------------------------ two accounts on one key

  /** Two cronjobs whose accounts share the result key "sa-a-b-n". */
  function Clash(a: string, b: string, n: string): Config
  {
    EMPTY.(cronJobs := [CronJob("x", b + "-" + n, a, ""), CronJob("x", n, a + "-" + b, "")],
           accounts := [Account(a, "", []), Account(a + "-" + b, "", [])])
  }

  lemma ClashAccepted(a: string, b: string, n: string)
    ensures Accepted(Clash(a, b, n))
  {
    hide AllKeys, NoConflict;
    var c := Clash(a, b, n);
    var p, q := (b + "-" + n, "x"), (n, "x");
    assert |p.0| != |q.0|;
    assert CronJobPairs(c.cronJobs) == [p, q] by {
      assert CronJobPairs(c.cronJobs[1..]) == [q] + CronJobPairs([]);
    }
    TwoPairs(p, q);
    assert forall i :: 0 <= i < 14 ==> |ClaimGroups(c)[i].pairs| <= 1 || ClaimGroups(c)[i].pairs == [p, q];
    FewClaims(c);
    NoSlots();
  }

  /** The loader accepts the two cronjobs, and which account is generated for them depends on
    * the order Go happens to range in. */
  lemma AccountsClash(a: string, b: string, n: string)
    requires a != ""
    ensures Accepted(Clash(a, b, n)) && !OneResult(Clash(a, b, n))
  {
    var c := Clash(a, b, n);
    ClashAccepted(a, b, n);
    hide Accepted, Generated, OneResult;
    var p, q := (a, b + "-" + n), (a + "-" + b, n);
    var order := [p, q];
    ClashUses(a, b, n);
    hide UsedAccounts;
    assert |p.0| != |q.0|;
    assert Enumerates(order, UsedAccounts(c));
    ResolveIs(c.accounts, p.0, p.1);
    ResolveIs(c.accounts, q.0, q.1);
    hide Resolve;
    assert Applies(c.accounts[0], p.0, p.1) && Applies(c.accounts[1], q.0, q.1);
    assert c.accounts[0] in c.accounts && c.accounts[1] in c.accounts;
    assert AccountKey(p.0, p.1) == AccountKey(q.0, q.1) by {
      assert a + "-" + (b + "-" + n) == (a + "-" + b) + "-" + n;
    }
    assert Declares(c, order[0]) && Declares(c, order[1]);
    RangeOrderExact(c, order);
  }

  lemma ClashUses(a: string, b: string, n: string)
    requires a != ""
    ensures UsedAccounts(Clash(a, b, n)) == {(a, b + "-" + n), (a + "-" + b, n)}
  {
    var cs := Clash(a, b, n).cronJobs;
    assert cs[0] in cs && cs[1] in cs;
    assert CronJobUses(cs) == {(a, b + "-" + n), (a + "-" + b, n)};
  }
}
