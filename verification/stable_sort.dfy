/** What sort.SliceStable promises, and that the promise leaves it no choice.
  * `less` is always a strict weak order; two elements neither of which is less
  * than the other are tied. */
module StableSort {

  ghost predicate WeakOrder<T(!new)>(less: (T, T) -> bool)
  {
    && (forall x, y :: less(x, y) ==> !less(y, x))
    && (forall x, y, z :: !less(x, y) && !less(y, z) ==> !less(x, z))
  }

  predicate Tied<T>(less: (T, T) -> bool, x: T, y: T)
  {
    !less(x, y) && !less(y, x)
  }

  ghost predicate Sorted<T>(less: (T, T) -> bool, s: seq<T>)
  {
    forall i, j :: 0 <= i < j < |s| ==> !less(s[j], s[i])
  }

  /** The elements of s tied with c, in the order s holds them. */
  ghost function Ties<T>(less: (T, T) -> bool, s: seq<T>, c: T): (r: seq<T>)
  {
    if s == [] then []
    else (if Tied(less, s[0], c) then [s[0]] else []) + Ties(less, s[1..], c)
  }

  /** In a sorted sequence the smaller of two stands first. */
  lemma SmallerIsFirst<T(!new)>(less: (T, T) -> bool, s: seq<T>, i: nat, j: nat)
    requires WeakOrder(less) && Sorted(less, s)
    requires i < |s| && j < |s| && less(s[j], s[i])
    ensures j < i
  {
  }

  /** Same elements, tied ones in the same relative order. */
  ghost predicate SameTies<T(!new)>(less: (T, T) -> bool, a: seq<T>, b: seq<T>)
  {
    forall c :: Ties(less, a, c) == Ties(less, b, c)
  }

  function Insert<T>(less: (T, T) -> bool, x: T, s: seq<T>): seq<T>
  {
    if s == [] || !less(s[0], x) then [x] + s else [s[0]] + Insert(less, x, s[1..])
  }

  /** The stable sort of s. */
  function Sort<T>(less: (T, T) -> bool, s: seq<T>): seq<T>
  {
    if s == [] then [] else Insert(less, s[0], Sort(less, s[1..]))
  }

  lemma TiesStep<T>(less: (T, T) -> bool, s: seq<T>, c: T)
    ensures s == [] ==> Ties(less, s, c) == []
    ensures s != [] ==> Ties(less, s, c) == (if Tied(less, s[0], c) then [s[0]] else []) + Ties(less, s[1..], c)
  {
  }

  lemma {:induction false} TiesConcat<T>(less: (T, T) -> bool, a: seq<T>, b: seq<T>, c: T)
    ensures Ties(less, a + b, c) == Ties(less, a, c) + Ties(less, b, c)
  {
    hide Ties, Tied;
    TiesStep(less, a, c);
    if a == [] {
      assert a + b == b;
    } else {
      assert (a + b)[1..] == a[1..] + b;
      TiesStep(less, a + b, c);
      TiesConcat(less, a[1..], b, c);
    }
  }

  lemma {:induction false} InsertMembers<T>(less: (T, T) -> bool, x: T, s: seq<T>)
    ensures multiset(Insert(less, x, s)) == multiset{x} + multiset(s)
  {
    if s == [] || !less(s[0], x) {
    } else {
      InsertMembers(less, x, s[1..]);
      assert s == [s[0]] + s[1..];
    }
  }

  lemma {:induction false} InsertSorted<T(!new)>(less: (T, T) -> bool, x: T, s: seq<T>)
    requires WeakOrder(less) && Sorted(less, s)
    ensures Sorted(less, Insert(less, x, s))
  {
    if s == [] {
    } else if !less(s[0], x) {
      var r := [x] + s;
      forall i, j | 0 <= i < j < |r| ensures !less(r[j], r[i]) {
        if i == 0 { assert r[j] == s[j - 1] && !less(s[j - 1], s[0]); }
      }
    } else {
      InsertSorted(less, x, s[1..]);
      InsertMembers(less, x, s[1..]);
      var t := Insert(less, x, s[1..]);
      var r := [s[0]] + t;
      forall i, j | 0 <= i < j < |r| ensures !less(r[j], r[i]) {
        if i == 0 {
          assert r[j] in multiset(t);
          assert r[j] == x || r[j] in s[1..];
        }
      }
    }
  }

  lemma {:induction false} InsertTies<T(!new)>(less: (T, T) -> bool, x: T, s: seq<T>, c: T)
    requires WeakOrder(less)
    ensures Ties(less, Insert(less, x, s), c) == Ties(less, [x] + s, c)
  {
    if s == [] || !less(s[0], x) {
    } else {
      InsertTies(less, x, s[1..], c);
      assert s == [s[0]] + s[1..];
      assert ([x] + s)[1..] == s && ([x] + s[1..])[1..] == s[1..];
      assert Insert(less, x, s)[1..] == Insert(less, x, s[1..]);
      assert !(Tied(less, x, c) && Tied(less, s[0], c));
    }
  }

  /** The sort is ordered, and a tie keeps its input order. */
  lemma {:induction false} SortIsStable<T(!new)>(less: (T, T) -> bool, s: seq<T>)
    requires WeakOrder(less)
    ensures Sorted(less, Sort(less, s))
    ensures SameTies(less, Sort(less, s), s)
    ensures multiset(Sort(less, s)) == multiset(s)
  {
    if s != [] {
      SortIsStable(less, s[1..]);
      var t := Sort(less, s[1..]);
      InsertSorted(less, s[0], t);
      InsertMembers(less, s[0], t);
      assert s == [s[0]] + s[1..];
      forall c ensures Ties(less, Sort(less, s), c) == Ties(less, s, c) {
        InsertTies(less, s[0], t, c);
        assert ([s[0]] + t)[1..] == t;
      }
    }
  }

  lemma {:induction false} TiesMembers<T>(less: (T, T) -> bool, s: seq<T>, c: T, e: T)
    ensures e in Ties(less, s, c) <==> e in s && Tied(less, e, c)
  {
    if s != [] {
      TiesMembers(less, s[1..], c, e);
      assert s == [s[0]] + s[1..];
    }
  }

  lemma HeadShared<T(!new)>(less: (T, T) -> bool, a: seq<T>, b: seq<T>)
    requires WeakOrder(less) && SameTies(less, a, b) && b != []
    ensures b[0] in a
  {
    assert Tied(less, b[0], b[0]);
    TiesMembers(less, a, b[0], b[0]);
    TiesMembers(less, b, b[0], b[0]);
    assert Ties(less, a, b[0]) == Ties(less, b, b[0]);
  }

  /** Nothing but the stable sort is both ordered and tie-preserving. */
  lemma {:induction false} SortedIsUnique<T(!new)>(less: (T, T) -> bool, a: seq<T>, b: seq<T>)
    requires WeakOrder(less)
    requires Sorted(less, a) && Sorted(less, b) && SameTies(less, a, b)
    ensures a == b
  {
    if b != [] { HeadShared(less, a, b); }
    if a != [] {
      HeadShared(less, b, a);
      assert !less(a[0], b[0]) && !less(b[0], a[0]);
      assert Ties(less, a, a[0]) == Ties(less, b, a[0]);
      assert a[0] == Ties(less, a, a[0])[0] == Ties(less, b, a[0])[0] == b[0];
      forall c ensures Ties(less, a[1..], c) == Ties(less, b[1..], c) {
        var n := if Tied(less, a[0], c) then 1 else 0;
        assert Ties(less, a, c) == Ties(less, b, c);
        assert Ties(less, a[1..], c) == Ties(less, a, c)[n..];
        assert Ties(less, b[1..], c) == Ties(less, b, c)[n..];
      }
      SortedIsUnique(less, a[1..], b[1..]);
      assert a == [a[0]] + a[1..] && b == [b[0]] + b[1..];
    }
  }

  /** Order by `coarse`, and by `fine` among those it ties. */
  function Then<T>(coarse: (T, T) -> bool, fine: (T, T) -> bool): (T, T) -> bool
  {
    (x, y) => coarse(x, y) || (!coarse(y, x) && fine(x, y))
  }

  lemma ThenIsWeakOrder<T(!new)>(coarse: (T, T) -> bool, fine: (T, T) -> bool)
    requires WeakOrder(coarse) && WeakOrder(fine)
    ensures WeakOrder(Then(coarse, fine))
  {
    var both := Then(coarse, fine);
    forall x, y, z | !both(x, y) && !both(y, z) ensures !both(x, z) {
      assert !coarse(x, y) && !coarse(y, z);
      if !coarse(z, x) {
        assert !coarse(y, x) && !coarse(z, y);
      }
    }
  }

  lemma {:induction false} TiesOfTies<T(!new)>(coarse: (T, T) -> bool, fine: (T, T) -> bool, s: seq<T>, c: T)
    ensures Ties(fine, Ties(coarse, s, c), c) == Ties(Then(coarse, fine), s, c)
  {
    if s != [] {
      TiesOfTies(coarse, fine, s[1..], c);
      var head := if Tied(coarse, s[0], c) then [s[0]] else [];
      TiesConcat(fine, head, Ties(coarse, s[1..], c), c);
    }
  }

  lemma {:induction false} TiesStaySorted<T(!new)>(coarse: (T, T) -> bool, fine: (T, T) -> bool, s: seq<T>, c: T)
    requires Sorted(fine, s)
    ensures Sorted(fine, Ties(coarse, s, c))
  {
    if s != [] {
      assert Sorted(fine, s[1..]) by {
        forall i, j | 0 <= i < j < |s[1..]| ensures !fine(s[1..][j], s[1..][i]) {
          assert s[1..][j] == s[j + 1] && s[1..][i] == s[i + 1];
        }
      }
      TiesStaySorted(coarse, fine, s[1..], c);
      var r := Ties(coarse, s, c);
      var t := Ties(coarse, s[1..], c);
      forall i, j | 0 <= i < j < |r| ensures !fine(r[j], r[i]) {
        if Tied(coarse, s[0], c) && i == 0 {
          assert r[j] == t[j - 1];
          TiesMembers(coarse, s[1..], c, r[j]);
        }
      }
    }
  }

  /** Ordered by `coarse` with every tie ordered by `fine` is ordered by both. */
  lemma {:induction false} TiesSortedThen<T(!new)>(coarse: (T, T) -> bool, fine: (T, T) -> bool, s: seq<T>)
    requires WeakOrder(coarse)
    requires Sorted(coarse, s)
    requires forall c :: Sorted(fine, Ties(coarse, s, c))
    ensures Sorted(Then(coarse, fine), s)
  {
    if s != [] {
      forall i, j | 0 <= i < j < |s[1..]| ensures !coarse(s[1..][j], s[1..][i]) {
        assert s[1..][j] == s[j + 1] && s[1..][i] == s[i + 1];
      }
      forall c ensures Sorted(fine, Ties(coarse, s[1..], c)) {
        var r, t := Ties(coarse, s, c), Ties(coarse, s[1..], c);
        assert Sorted(fine, r);
        forall i, j | 0 <= i < j < |t| ensures !fine(t[j], t[i]) {
          var d := |r| - |t|;
          assert t[j] == r[j + d] && t[i] == r[i + d];
        }
      }
      TiesSortedThen(coarse, fine, s[1..]);
      var both := Then(coarse, fine);
      forall i, j | 0 <= i < j < |s| ensures !both(s[j], s[i]) {
        if 0 < i {
          assert s[j] == s[1..][j - 1] && s[i] == s[1..][i - 1];
        } else if !coarse(s[0], s[j]) {
          var r := Ties(coarse, s, s[0]);
          assert Sorted(fine, r) && Tied(coarse, s[0], s[0]) && r[0] == s[0];
          TiesMembers(coarse, s[1..], s[0], s[j]);
          assert s[j] == s[1..][j - 1] && s[j] in r[1..];
        }
      }
    }
  }

  /** Sorting by `fine` and then stably by `coarse` is one sort by both. */
  lemma TwoPassSort<T(!new)>(coarse: (T, T) -> bool, fine: (T, T) -> bool, s: seq<T>)
    requires WeakOrder(coarse) && WeakOrder(fine)
    ensures Sort(coarse, Sort(fine, s)) == Sort(Then(coarse, fine), s)
  {
    var both := Then(coarse, fine);
    var inner := Sort(fine, s);
    var outer := Sort(coarse, inner);
    SortIsStable(fine, s);
    SortIsStable(coarse, inner);
    ThenIsWeakOrder(coarse, fine);
    SortIsStable(both, s);
    forall c ensures Sorted(fine, Ties(coarse, outer, c)) {
      assert Ties(coarse, outer, c) == Ties(coarse, inner, c);
      TiesStaySorted(coarse, fine, inner, c);
    }
    TiesSortedThen(coarse, fine, outer);
    forall c ensures Ties(both, outer, c) == Ties(both, Sort(both, s), c) {
      TiesOfTies(coarse, fine, outer, c);
      TiesOfTies(coarse, fine, inner, c);
      assert Ties(coarse, outer, c) == Ties(coarse, inner, c);
      TiesThenSwap(coarse, fine, inner, c);
      TiesThenSwap(coarse, fine, s, c);
      assert Ties(fine, inner, c) == Ties(fine, s, c);
      assert Ties(both, s, c) == Ties(both, Sort(both, s), c);
    }
    SortedIsUnique(both, outer, Sort(both, s));
  }

  /** Being tied in both orders can be checked in either order. */
  lemma {:induction false} TiesThenSwap<T(!new)>(coarse: (T, T) -> bool, fine: (T, T) -> bool, s: seq<T>, c: T)
    ensures Ties(Then(coarse, fine), s, c) == Ties(coarse, Ties(fine, s, c), c)
  {
    if s != [] {
      TiesThenSwap(coarse, fine, s[1..], c);
      var head := if Tied(fine, s[0], c) then [s[0]] else [];
      TiesConcat(coarse, head, Ties(fine, s[1..], c), c);
    }
  }

  lemma SwapKeepsTies<T(!new)>(less: (T, T) -> bool, a: seq<T>, b: seq<T>, j: nat)
    requires WeakOrder(less)
    requires 0 < j < |a| && less(a[j], a[j - 1])
    requires b == a[j - 1 := a[j]][j := a[j - 1]]
    ensures SameTies(less, a, b)
  {
    var l, r := a[..j - 1], a[j + 1..];
    var x, y := a[j - 1], a[j];
    assert a == l + [x, y] + r && b == l + [y, x] + r;
    forall c ensures Ties(less, a, c) == Ties(less, b, c) {
      TiesConcat(less, l + [x, y], r, c);
      TiesConcat(less, l, [x, y], c);
      TiesConcat(less, l + [y, x], r, c);
      TiesConcat(less, l, [y, x], c);
      assert !(Tied(less, x, c) && Tied(less, y, c));
      assert [x, y][1..] == [y] && [y, x][1..] == [x];
      assert [x][1..] == [] && [y][1..] == [];
    }
  }

  /** Insertion sort in place, swap by swap. */
  method SortInPlace<T(!new)>(less: (T, T) -> bool, a: array<T>)
    requires WeakOrder(less)
    modifies a
    ensures a[..] == Sort(less, old(a[..]))
  {
    var i := 1;
    ghost var start := a[..];
    while i < a.Length
      invariant 1 <= i
      invariant forall p, q :: 0 <= p < q < i && q < a.Length ==> !less(a[q], a[p])
      invariant SameTies(less, start, a[..])
    {
      var j := i;
      while 0 < j && less(a[j], a[j - 1])
        invariant 0 <= j <= i < a.Length
        invariant forall p, q :: 0 <= p < q <= i && q != j ==> !less(a[q], a[p])
        invariant SameTies(less, start, a[..])
      {
        ghost var before := a[..];
        a[j], a[j - 1] := a[j - 1], a[j];
        SwapKeepsTies(less, before, a[..], j);
        forall p, q | 0 <= p < q <= i && q != j - 1 ensures !less(a[q], a[p]) {
          if q == j {
            if p < j - 1 { assert a[p] == before[p] && a[q] == before[j - 1]; }
            else { assert a[q] == before[j - 1] && a[p] == before[j]; }
          } else if p == j {
            assert a[q] == before[q] && a[p] == before[j - 1];
          } else if p == j - 1 {
            assert a[q] == before[q] && a[p] == before[j];
          } else {
            assert a[q] == before[q] && a[p] == before[p];
          }
        }
        j := j - 1;
      }
      i := i + 1;
    }
    assert Sorted(less, a[..]);
    SortIsStable(less, start);
    SortedIsUnique(less, a[..], Sort(less, start));
  }
}
