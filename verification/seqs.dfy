/** Sequences without repetition. */
module Seqs {

  ghost predicate NoDup<T>(s: seq<T>)
  {
    forall i, j :: 0 <= i < j < |s| ==> s[i] != s[j]
  }

  lemma {:induction false} CountIsOccurrence<T>(s: seq<T>, x: T)
    ensures multiset(s)[x] >= 2 <==> exists i, j :: 0 <= i < j < |s| && s[i] == s[j] == x
  {
    if s != [] {
      var n := |s| - 1;
      CountIsOccurrence(s[..n], x);
      assert s == s[..n] + [s[n]];
      if multiset(s)[x] >= 2 {
        if multiset(s[..n])[x] >= 2 {
          var i, j :| 0 <= i < j < n && s[..n][i] == s[..n][j] == x;
          assert s[i] == s[j] == x;
        } else {
          assert s[n] == x && x in multiset(s[..n]);
          var i :| 0 <= i < n && s[..n][i] == x;
          assert s[i] == s[n] == x;
        }
      }
      if i, j :| 0 <= i < j < |s| && s[i] == s[j] == x {
        if j < n {
          assert s[..n][i] == s[..n][j] == x;
        } else {
          assert s[..n][i] == x && x in s[..n];
        }
      }
    }
  }

  /** Repetition does not depend on the order. */
  lemma NoDupByCount<T>(s: seq<T>)
    ensures NoDup(s) <==> forall x :: multiset(s)[x] <= 1
  {
    forall x ensures multiset(s)[x] >= 2 <==> exists i, j :: 0 <= i < j < |s| && s[i] == s[j] == x {
      CountIsOccurrence(s, x);
    }
    if !NoDup(s) {
      var i, j :| 0 <= i < j < |s| && s[i] == s[j];
      assert multiset(s)[s[i]] >= 2;
    }
  }

  lemma NoDupPermuted<T>(s: seq<T>, t: seq<T>)
    requires multiset(s) == multiset(t)
    ensures NoDup(s) <==> NoDup(t)
  {
    NoDupByCount(s);
    NoDupByCount(t);
  }

  /** Taking one element out of both leaves the same elements. */
  lemma RemoveShared<T>(a: seq<T>, b: seq<T>, i: nat)
    requires multiset(a) == multiset(b) && a != [] && i < |b| && b[i] == a[0]
    ensures multiset(a[1..]) == multiset(b[..i] + b[i + 1..])
  {
    assert a == [a[0]] + a[1..] && b == b[..i] + [b[i]] + b[i + 1..];
    assert multiset(a) == multiset{a[0]} + multiset(a[1..]);
    assert multiset(b) == multiset(b[..i]) + multiset{b[i]} + multiset(b[i + 1..]);
    assert multiset(b[..i] + b[i + 1..]) == multiset(b[..i]) + multiset(b[i + 1..]);
    assert multiset(a[1..]) == multiset(a) - multiset{a[0]};
  }

  function Mapped<S, T>(f: S -> T, s: seq<S>): (r: seq<T>)
    ensures |r| == |s|
  {
    seq(|s|, i requires 0 <= i < |s| => f(s[i]))
  }

  lemma MappedConcat<S, T>(f: S -> T, a: seq<S>, b: seq<S>)
    ensures Mapped(f, a + b) == Mapped(f, a) + Mapped(f, b)
  {
  }

  /** Images differ only of what differs. */
  lemma NoDupMapped<S, T>(f: S -> T, s: seq<S>)
    requires NoDup(Mapped(f, s))
    ensures NoDup(s)
  {
    forall i, j | 0 <= i < j < |s| ensures s[i] != s[j] {
      assert Mapped(f, s)[i] != Mapped(f, s)[j];
    }
  }

  /** The same elements have the same images. */
  lemma {:induction false} MappedPermuted<S, T>(f: S -> T, a: seq<S>, b: seq<S>)
    requires multiset(a) == multiset(b)
    ensures multiset(Mapped(f, a)) == multiset(Mapped(f, b))
  {
    if a == [] {
      assert |multiset(a)| == |multiset(b)|;
    } else {
      assert a[0] in multiset(b);
      var i :| 0 <= i < |b| && b[i] == a[0];
      RemoveShared(a, b, i);
      MappedPermuted(f, a[1..], b[..i] + b[i + 1..]);
      MappedWithout(f, a, 0);
      assert a[..0] + a[1..] == a[1..];
      MappedWithout(f, b, i);
    }
  }

  /** Taking out one element takes out its image. */
  lemma MappedWithout<S, T>(f: S -> T, s: seq<S>, i: nat)
    requires i < |s|
    ensures multiset(Mapped(f, s)) == multiset{f(s[i])} + multiset(Mapped(f, s[..i] + s[i + 1..]))
  {
    assert s == s[..i] + ([s[i]] + s[i + 1..]);
    MappedConcat(f, s[..i], [s[i]] + s[i + 1..]);
    MappedConcat(f, [s[i]], s[i + 1..]);
    MappedConcat(f, s[..i], s[i + 1..]);
    assert Mapped(f, [s[i]]) == [f(s[i])];
  }

  lemma NoDupConcat<T>(s: seq<T>, t: seq<T>)
    ensures NoDup(s + t) <==> NoDup(s) && NoDup(t) && forall x :: x in s ==> x !in t
  {
    var u := s + t;
    if NoDup(u) {
      forall i, j | 0 <= i < j < |s| ensures s[i] != s[j] { assert u[i] == s[i] && u[j] == s[j]; }
      forall i, j | 0 <= i < j < |t| ensures t[i] != t[j] { assert u[|s| + i] == t[i] && u[|s| + j] == t[j]; }
      forall x | x in s ensures x !in t {
        var i :| 0 <= i < |s| && s[i] == x;
        forall j | 0 <= j < |t| ensures t[j] != x { assert u[i] == x && u[|s| + j] == t[j]; }
      }
    }
    if NoDup(s) && NoDup(t) && forall x :: x in s ==> x !in t {
      forall i, j | 0 <= i < j < |u| ensures u[i] != u[j] {
        if i < |s| <= j { assert u[i] in s && u[j] in t; }
      }
    }
  }

  lemma NoDupSnoc<T>(s: seq<T>, x: T)
    ensures NoDup(s + [x]) <==> NoDup(s) && x !in s
  {
    NoDupConcat(s, [x]);
  }

  /** How many elements have a property. */
  function Count<T>(s: seq<T>, p: T -> bool): nat
  {
    if s == [] then 0 else (if p(s[0]) then 1 else 0) + Count(s[1..], p)
  }

  lemma {:induction false} CountConcat<T>(a: seq<T>, b: seq<T>, p: T -> bool)
    ensures Count(a + b, p) == Count(a, p) + Count(b, p)
  {
    if a == [] {
      assert a + b == b;
    } else {
      assert (a + b)[1..] == a[1..] + b;
      CountConcat(a[1..], b, p);
    }
  }

  lemma {:induction false} CountNone<T>(s: seq<T>, p: T -> bool)
    requires forall x :: x in s ==> !p(x)
    ensures Count(s, p) == 0
  {
    if s != [] { CountNone(s[1..], p); }
  }

  /** The elements with a given image are as many as its occurrences among the images. */
  lemma {:induction false} CountImages<S, T>(f: S -> T, s: seq<S>, y: T, p: S -> bool)
    requires forall x :: x in s ==> (p(x) <==> f(x) == y)
    ensures multiset(Mapped(f, s))[y] == Count(s, p)
  {
    if s != [] {
      assert Mapped(f, s) == [f(s[0])] + Mapped(f, s[1..]);
      CountImages(f, s[1..], y, p);
    }
  }

  /** Some elements have some of the images. */
  lemma {:induction false} MappedFewer<S, T>(f: S -> T, a: seq<S>, b: seq<S>)
    requires multiset(a) <= multiset(b)
    ensures multiset(Mapped(f, a)) <= multiset(Mapped(f, b))
  {
    if a != [] {
      assert a[0] in multiset(b);
      var i :| 0 <= i < |b| && b[i] == a[0];
      FewerWithout(a, b, i);
      MappedFewer(f, a[1..], b[..i] + b[i + 1..]);
      MappedWithout(f, a, 0);
      assert a[..0] + a[1..] == a[1..];
      MappedWithout(f, b, i);
    }
  }

  lemma FewerWithout<T>(a: seq<T>, b: seq<T>, i: nat)
    requires multiset(a) <= multiset(b) && a != [] && i < |b| && b[i] == a[0]
    ensures multiset(a[1..]) <= multiset(b[..i] + b[i + 1..])
  {
    assert a == [a[0]] + a[1..] && b == b[..i] + [b[i]] + b[i + 1..];
    assert multiset(a) == multiset{a[0]} + multiset(a[1..]);
    assert multiset(b) == multiset(b[..i] + b[i + 1..]) + multiset{b[i]};
    forall x ensures multiset(a[1..])[x] <= multiset(b[..i] + b[i + 1..])[x] {
      assert multiset(a)[x] <= multiset(b)[x];
    }
  }

  /** x stands in a set of the list, and y neither there nor before it. */
  predicate ListedBefore<T(==)>(groups: seq<set<T>>, x: T, y: T)
  {
    exists i :: 0 <= i < |groups| && x in groups[i] && forall j :: 0 <= j <= i ==> y !in groups[j]
  }

  function Flatten<T>(ss: seq<seq<T>>): seq<T>
  {
    if ss == [] then [] else ss[0] + Flatten(ss[1..])
  }

  lemma {:induction false} FlattenConcat<T>(a: seq<seq<T>>, b: seq<seq<T>>)
    ensures Flatten(a + b) == Flatten(a) + Flatten(b)
  {
    if a == [] {
      assert a + b == b;
    } else {
      assert (a + b)[1..] == a[1..] + b;
      FlattenConcat(a[1..], b);
    }
  }

  /** s without its later repetitions. */
  function Distinct<T(==)>(s: seq<T>): (r: seq<T>)
  {
    if s == [] then []
    else
      var n := |s| - 1;
      var r := Distinct(s[..n]);
      if s[n] in r then r else r + [s[n]]
  }

  lemma {:induction false} DistinctIs<T>(s: seq<T>)
    ensures NoDup(Distinct(s))
    ensures forall x :: x in Distinct(s) <==> x in s
  {
    if s != [] {
      var n := |s| - 1;
      DistinctIs(s[..n]);
      assert s == s[..n] + [s[n]];
      NoDupSnoc(Distinct(s[..n]), s[n]);
    }
  }
}
