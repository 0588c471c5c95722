/** The text a declared resource is known by while a project loads. */
module Identities {
  import opened Text
  import opened Blocks

  const HEX := "0123456789abcdef"

  /** n in exactly `width` hexadecimal digits. */
  function Hex(n: nat, width: nat): (r: string)
    ensures |r| == width
  {
    if width == 0 then "" else Hex(n / 16, width - 1) + [HEX[n % 16]]
  }

  function Pow16(k: nat): nat
  {
    if k == 0 then 1 else 16 * Pow16(k - 1)
  }

  lemma {:induction false} HexInjective(m: nat, n: nat, width: nat)
    requires m < Pow16(width) && n < Pow16(width)
    requires Hex(m, width) == Hex(n, width)
    ensures m == n
  {
    if width > 0 {
      var a, b := Hex(m / 16, width - 1), Hex(n / 16, width - 1);
      assert Hex(m, width)[..width - 1] == a && Hex(n, width)[..width - 1] == b;
      assert Hex(m, width)[width - 1] == HEX[m % 16] && Hex(n, width)[width - 1] == HEX[n % 16];
      HexInjective(m / 16, n / 16, width - 1);
    }
  }

  /** One character inside a Go %q literal. `printable` stands for the Unicode
    * print table, whatever it is. */
  function Escape(c: char, printable: set<char>): (r: string)
    ensures r != [] && r[0] != '"'
  {
    if c == '"' || c == '\\' then ['\\', c]
    else if c in printable then [c]
    else if c == 7 as char then ['\\', 'a']
    else if c == 8 as char then ['\\', 'b']
    else if c == 12 as char then ['\\', 'f']
    else if c == 10 as char then ['\\', 'n']
    else if c == 13 as char then ['\\', 'r']
    else if c == 9 as char then ['\\', 't']
    else if c == 11 as char then ['\\', 'v']
    else if c < ' ' || c == 127 as char then ['\\', 'x'] + Hex(c as int, 2)
    else if (c as int) < 0x10000 then ['\\', 'u'] + Hex(c as int, 4)
    else ['\\', 'U'] + Hex(c as int, 8)
  }

  function Escapes(s: string, printable: set<char>): string
  {
    if s == [] then [] else Escape(s[0], printable) + Escapes(s[1..], printable)
  }

  /** Go's %q. */
  function Quote(s: string, printable: set<char>): string
  {
    ['"'] + Escapes(s, printable) + ['"']
  }

  lemma SameHex(c: char, d: char, tag: char, width: nat, s: string, t: string)
    requires (c as int) < Pow16(width) && (d as int) < Pow16(width)
    requires ['\\', tag] + Hex(c as int, width) + s == ['\\', tag] + Hex(d as int, width) + t
    ensures c == d && s == t
  {
    var x, y := ['\\', tag] + Hex(c as int, width) + s, ['\\', tag] + Hex(d as int, width) + t;
    assert x[2..2 + width] == Hex(c as int, width) && y[2..2 + width] == Hex(d as int, width);
    HexInjective(c as int, d as int, width);
    assert x[2 + width..] == s && y[2 + width..] == t;
  }

  /** How many hexadecimal digits follow an escape's tag. */
  function Width(tag: char): nat
  {
    if tag == 'x' then 2 else if tag == 'u' then 4 else if tag == 'U' then 8 else 0
  }

  lemma Pow16s()
    ensures Pow16(2) == 0x100 && Pow16(4) == 0x10000 && Pow16(8) == 0x1_0000_0000
  {
    assert Pow16(4) == 16 * (16 * Pow16(2));
    assert Pow16(8) == 16 * (16 * (16 * (16 * Pow16(4))));
  }

  /** An escape of more than one character: its tag says how many digits follow,
    * and without digits it says which character it is. */
  lemma EscapeShape(c: char, printable: set<char>)
    ensures var e := Escape(c, printable);
            || (e == [c] && c != '\\')
            || (|e| >= 2 && e[0] == '\\' &&
                if Width(e[1]) == 0 then |e| == 2
                else e == ['\\', e[1]] + Hex(c as int, Width(e[1])) && (c as int) < Pow16(Width(e[1])))
  {
    Pow16s();
  }

  lemma EscapePrefixFree(c: char, d: char, printable: set<char>, s: string, t: string)
    requires Escape(c, printable) + s == Escape(d, printable) + t
    ensures c == d && s == t
  {
    var e, f := Escape(c, printable), Escape(d, printable);
    EscapeShape(c, printable);
    EscapeShape(d, printable);
    var x := e + s;
    assert x[0] == e[0] == f[0];
    if e[0] != '\\' {
      assert x[1..] == s == t;
    } else {
      assert x[1] == e[1] == f[1];
      if Width(e[1]) == 0 {
        assert x[2..] == s == t;
        hide Hex;
      } else {
        hide Hex, Escape;
        SameHex(c, d, e[1], Width(e[1]), s, t);
      }
    }
  }

  /** The rest of a literal after its opening quote, and what follows it. */
  function Closing(a: string, printable: set<char>, s: string): string
  {
    Escapes(a, printable) + (['"'] + s)
  }

  lemma ClosingUnfolds(a: string, printable: set<char>, s: string)
    ensures if a == [] then Closing(a, printable, s) == ['"'] + s
            else Closing(a, printable, s) == Escape(a[0], printable) + Closing(a[1..], printable, s)
  {
    hide Escape;
    if a != [] {
      var e, r := Escape(a[0], printable), Escapes(a[1..], printable);
      assert e + r + (['"'] + s) == e + (r + (['"'] + s));
    }
  }

  lemma {:induction false} ClosingPrefixFree(a: string, b: string, printable: set<char>, s: string, t: string)
    requires Closing(a, printable, s) == Closing(b, printable, t)
    ensures a == b && s == t
  {
    hide Escape, Escapes, Closing;
    var x := Closing(a, printable, s);
    ClosingUnfolds(a, printable, s);
    ClosingUnfolds(b, printable, t);
    assert a == [] || b == [] ==> x[0] == '"';
    if a == [] {
      assert x[1..] == s && x[1..] == t;
    } else {
      EscapePrefixFree(a[0], b[0], printable, Closing(a[1..], printable, s), Closing(b[1..], printable, t));
      ClosingPrefixFree(a[1..], b[1..], printable, s, t);
      assert a == [a[0]] + a[1..] && b == [b[0]] + b[1..];
    }
  }

  /** A quoted text can be told from whatever follows it. */
  lemma QuotePrefixFree(a: string, b: string, printable: set<char>, s: string, t: string)
    requires Quote(a, printable) + s == Quote(b, printable) + t
    ensures a == b && s == t
  {
    hide Escapes;
    var x := Quote(a, printable) + s;
    assert x == ['"'] + Closing(a, printable, s) && x == ['"'] + Closing(b, printable, t);
    assert x[1..] == Closing(a, printable, s) && x[1..] == Closing(b, printable, t);
    ClosingPrefixFree(a, b, printable, s, t);
  }

  /** kind "name", with the namespace when there is one. */
  function Identity(k: Key, printable: set<char>): string
  {
    k.kind + " " + (Quote(k.name, printable) +
                    if k.namespace == "" then "" else " in namespace " + Quote(k.namespace, printable))
  }

  /** Different resources have different identity texts, odd names included. */
  lemma IdentityInjective(k: Key, l: Key, printable: set<char>)
    requires ' ' !in k.kind && ' ' !in l.kind
    ensures Identity(k, printable) == Identity(l, printable) <==> k == l
  {
    if Identity(k, printable) == Identity(l, printable) {
      hide Quote;
      var rest1 := if k.namespace == "" then "" else " in namespace " + Quote(k.namespace, printable);
      var rest2 := if l.namespace == "" then "" else " in namespace " + Quote(l.namespace, printable);
      var tail1, tail2 := Quote(k.name, printable) + rest1, Quote(l.name, printable) + rest2;
      IndexOfJoin(k.kind, ' ', tail1);
      IndexOfJoin(l.kind, ' ', tail2);
      var x := Identity(k, printable);
      assert x == k.kind + [' '] + tail1 == l.kind + [' '] + tail2;
      assert x[..|k.kind|] == k.kind && x[..|l.kind|] == l.kind;
      assert x[|k.kind| + 1..] == tail1 == tail2;
      QuotePrefixFree(k.name, l.name, printable, rest1, rest2);
      if k.namespace != "" && l.namespace != "" {
        assert rest1[14..] == Quote(k.namespace, printable) && rest2[14..] == Quote(l.namespace, printable);
        assert Quote(k.namespace, printable) + "" == Quote(l.namespace, printable) + "";
        QuotePrefixFree(k.namespace, l.namespace, printable, "", "");
      }
    }
  }
}
