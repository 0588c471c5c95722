/** Strings as the Go program compares and cuts them. */
module Text {

  /** Go's `<` on strings: lexicographic, where Dafny's own `<` is the prefix order. */
  predicate LexLess(a: string, b: string)
  {
    if b == [] then false
    else if a == [] then true
    else if a[0] != b[0] then a[0] < b[0]
    else LexLess(a[1..], b[1..])
  }

  /** The texts agree up to k, and there a ends and b does not, or a has the smaller character. */
  predicate DiffersAt(a: string, b: string, k: nat)
  {
    && k <= |a| && k < |b| && a[..k] == b[..k]
    && (k == |a| || a[k] < b[k])
  }

  lemma FirstOfPrefix(a: string, b: string, k: nat)
    requires k <= |a| && k <= |b| && a[..k] == b[..k]
    ensures k > 0 ==> a[0] == b[0]
  {
    assert k > 0 ==> a[..k][0] == a[0] && b[..k][0] == b[0];
  }

  /** The first difference decides, and a proper prefix is the smaller text. */
  lemma {:induction false} LexLessIs(a: string, b: string)
    ensures LexLess(a, b) <==> exists k: nat :: DiffersAt(a, b, k)
  {
    if a == [] && b != [] {
      assert DiffersAt(a, b, 0);
    } else if a != [] && b != [] {
      if a[0] == b[0] {
        LexLessIs(a[1..], b[1..]);
        if k: nat :| DiffersAt(a[1..], b[1..], k) {
          assert a[..k + 1] == [a[0]] + a[1..][..k] && b[..k + 1] == [b[0]] + b[1..][..k];
          assert DiffersAt(a, b, k + 1);
        }
        if k: nat :| DiffersAt(a, b, k) {
          assert a[1..][..k - 1] == a[..k][1..] && b[1..][..k - 1] == b[..k][1..];
          assert DiffersAt(a[1..], b[1..], k - 1);
        }
      } else {
        if a[0] < b[0] { assert DiffersAt(a, b, 0); }
        forall k: nat | DiffersAt(a, b, k) ensures k == 0 {
          FirstOfPrefix(a, b, k);
        }
      }
    }
  }

  /** Of two different strings exactly one is the smaller. */
  lemma {:induction false} LexTrichotomy(a: string, b: string)
    ensures !(LexLess(a, b) && LexLess(b, a))
    ensures LexLess(a, b) || LexLess(b, a) <==> a != b
  {
    if a != [] && b != [] && a[0] == b[0] {
      LexTrichotomy(a[1..], b[1..]);
      assert a == [a[0]] + a[1..] && b == [b[0]] + b[1..];
    }
  }

  lemma {:induction false} LexTransitive(a: string, b: string, c: string)
    requires LexLess(a, b) && LexLess(b, c)
    ensures LexLess(a, c)
  {
    if a != [] && a[0] == b[0] && b[0] == c[0] {
      LexTransitive(a[1..], b[1..], c[1..]);
    }
  }

  /** strings.IndexByte for a byte that occurs. */
  function IndexOf(s: string, c: char): (i: nat)
    requires c in s
    ensures i < |s| && s[i] == c
  {
    if s[0] == c then 0 else 1 + IndexOf(s[1..], c)
  }

  /** strings.LastIndexByte for a byte that occurs. */
  function LastIndexOf(s: string, c: char): (i: nat)
    requires c in s
    ensures i < |s| && s[i] == c && c !in s[i + 1..]
  {
    if s[|s| - 1] == c then |s| - 1
    else
      var r := LastIndexOf(s[..|s| - 1], c);
      assert s[r + 1..] == s[..|s| - 1][r + 1..] + [s[|s| - 1]];
      r
  }

  /** The first separator is where the text before it ends. */
  lemma {:induction false} IndexOfJoin(a: string, c: char, b: string)
    requires c !in a
    ensures IndexOf(a + [c] + b, c) == |a|
  {
    if a != [] {
      IndexOfJoin(a[1..], c, b);
      assert (a + [c] + b)[1..] == a[1..] + [c] + b;
    }
  }

  /** The last separator is where the text after it begins. */
  lemma {:induction false} LastIndexOfJoin(a: string, c: char, b: string)
    requires c !in b
    ensures c in a + [c] + b && LastIndexOf(a + [c] + b, c) == |a|
  {
    var s := a + [c] + b;
    assert s[|a|] == c;
    if b != [] {
      LastIndexOfJoin(a, c, b[..|b| - 1]);
      assert s[..|s| - 1] == a + [c] + b[..|b| - 1];
      assert s[|s| - 1] == b[|b| - 1];
    }
  }

  lemma {:induction false} IndexOfFirst(s: string, c: char, j: nat)
    requires j < |s| && s[j] == c
    ensures IndexOf(s, c) <= j
  {
    if s[0] != c { IndexOfFirst(s[1..], c, j - 1); }
  }

  /** strings.SplitN: at most n pieces, the last one left uncut. */
  function SplitN(s: string, sep: char, n: nat): (parts: seq<string>)
    requires n >= 1
    ensures 1 <= |parts| <= n
    decreases n
  {
    if n == 1 || sep !in s then [s]
    else
      var i := IndexOf(s, sep);
      [s[..i]] + SplitN(s[i + 1..], sep, n - 1)
  }

  /** The decimal digits of n. */
  function Decimal(n: nat): string
  {
    if n < 10 then [DIGITS[n]] else Decimal(n / 10) + [DIGITS[n % 10]]
  }

  const DIGITS := "0123456789"

  lemma {:induction false} DecimalInjective(m: nat, n: nat)
    requires Decimal(m) == Decimal(n)
    ensures m == n
  {
    DecimalEnds(m);
    DecimalEnds(n);
    if m >= 10 && n >= 10 {
      DecimalInjective(m / 10, n / 10);
    }
  }

  lemma DecimalEnds(n: nat)
    ensures Decimal(n) != [] && Decimal(n)[|Decimal(n)| - 1] == DIGITS[n % 10]
    ensures n < 10 ==> |Decimal(n)| == 1
    ensures n >= 10 ==> |Decimal(n)| > 1 && Decimal(n)[..|Decimal(n)| - 1] == Decimal(n / 10)
    ensures forall d :: 0 <= d < 10 && DIGITS[d] == DIGITS[n % 10] ==> d == n % 10
  {
    if n >= 10 { DecimalEnds(n / 10); }
  }

  /** strings.ReplaceAll of one character by another. */
  function Replaced(s: string, from: char, to: char): (r: string)
    ensures |r| == |s|
  {
    if s == [] then [] else [if s[0] == from then to else s[0]] + Replaced(s[1..], from, to)
  }

  lemma {:induction false} ReplacedAt(s: string, from: char, to: char, k: nat)
    requires k < |s|
    ensures Replaced(s, from, to)[k] == if s[k] == from then to else s[k]
  {
    if k > 0 { ReplacedAt(s[1..], from, to, k - 1); }
  }

  /** Texts that begin differently are different. */
  lemma PrefixApart(p: string, q: string, k: nat)
    requires k < |p| && k < |q| && p[k] != q[k]
    ensures forall x: string, y: string :: p + x != q + y
  {
    forall x: string, y: string ensures p + x != q + y {
      assert (p + x)[k] == p[k] && (q + y)[k] == q[k];
    }
  }
}
