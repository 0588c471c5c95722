/** The sorted keys of a Go map. */
module SortedKeying {
  import opened Text
  import opened Seqs
  import opened StableSort

  /** The names of a set, each once, in Go's string order. */
  ghost predicate SortedNames(names: seq<string>, s: set<string>)
  {
    NoDup(names) && (forall n :: n in names <==> n in s) && Sorted(LexLess, names)
  }

  lemma LexIsWeakOrder()
    ensures WeakOrder(LexLess)
  {
    forall x, y | LexLess(x, y) ensures !LexLess(y, x) { LexTrichotomy(x, y); }
    forall x, y, z | !LexLess(x, y) && !LexLess(y, z) ensures !LexLess(x, z) {
      LexTrichotomy(x, y);
      LexTrichotomy(y, z);
      if LexLess(y, x) && LexLess(z, y) {
        LexTransitive(z, y, x);
      }
      LexTrichotomy(x, z);
    }
  }

  /** The keys of a map have one sorted enumeration, however the map is ranged over. */
  lemma SortedNamesUnique(a: seq<string>, b: seq<string>, s: set<string>)
    requires SortedNames(a, s) && SortedNames(b, s)
    ensures a == b
  {
    LexIsWeakOrder();
    forall c ensures Ties(LexLess, a, c) == Ties(LexLess, b, c) {
      TiesOfDistinct(a, c);
      TiesOfDistinct(b, c);
    }
    SortedIsUnique(LexLess, a, b);
  }

  lemma {:induction false} TiesOfDistinct(s: seq<string>, c: string)
    requires NoDup(s)
    ensures Ties(LexLess, s, c) == if c in s then [c] else []
  {
    if s != [] {
      NoDupConcat([s[0]], s[1..]);
      assert s == [s[0]] + s[1..];
      TiesOfDistinct(s[1..], c);
      LexTrichotomy(s[0], c);
    }
  }

  lemma SortedEnumeration(order: seq<string>, s: set<string>)
    requires NoDup(order) && forall n :: n in order <==> n in s
    ensures SortedNames(Sort(LexLess, order), s)
  {
    hide LexLess, NoDup;
    var names := Sort(LexLess, order);
    LexIsWeakOrder();
    SortIsStable(LexLess, order);
    NoDupPermuted(names, order);
    forall n ensures n in names <==> n in s {
      assert n in names <==> n in multiset(names);
      assert n in order <==> n in multiset(order);
    }
  }

  lemma {:induction false} EnumerationExists(s: set<string>) returns (order: seq<string>)
    ensures NoDup(order) && forall n :: n in order <==> n in s
  {
    if s == {} {
      order := [];
    } else {
      var x :| x in s;
      order := EnumerationExists(s - {x});
      NoDupSnoc(order, x);
      order := order + [x];
    }
  }

  /** The sorted enumeration of a set. */
  ghost function SortedOf(s: set<string>): (names: seq<string>)
    ensures SortedNames(names, s)
  {
    assert exists names :: SortedNames(names, s) by {
      var order := EnumerationExists(s);
      SortedEnumeration(order, s);
    }
    var names :| SortedNames(names, s);
    names
  }

  /** Ranges over the keys in any order and sorts them. */
  method SortedKeys(s: set<string>) returns (names: seq<string>)
    ensures SortedNames(names, s)
  {
    var order: seq<string> := [];
    var rest := s;
    while rest != {}
      invariant rest <= s && NoDup(order) && forall n :: n in order <==> n in s - rest
      decreases rest
    {
      var x :| x in rest;
      NoDupSnoc(order, x);
      order := order + [x];
      rest := rest - {x};
    }
    var a := new string[|order|](i requires 0 <= i < |order| => order[i]);
    assert a[..] == order;
    LexIsWeakOrder();
    SortInPlace(LexLess, a);
    names := a[..];
    SortedEnumeration(order, s);
  }
}
