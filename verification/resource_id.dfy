/** Inventory ids: how an applied object is written down, and what a prune reads back. */
module ResourceIds {
  import opened Options
  import opened Text

  /** A rendered object as far as the controller looks at it. The apiVersion is
    * kept as the group and version it denotes. */
  datatype Object = Object(namespace: string, name: string, group: string, version: string, kind: string)

  /** Namespace field, name, group and kind. */
  datatype Identity = Identity(namespace: string, name: string, group: string, kind: string)

  /** An inventory entry: the id text, and the apiVersion beside it. */
  datatype ResourceRef = ResourceRef(id: string, group: string, version: string)

  /** The rendered kinds that live outside any namespace. */
  predicate ClusterScoped(kind: string)
  {
    kind in {"Namespace", "CustomResourceDefinition", "CSIDriver", "ClusterRole", "ClusterRoleBinding"}
  }

  /** What an object says of itself, and its id spells out. */
  function Label(o: Object): Identity
  {
    Identity(o.namespace, o.name, o.group, o.kind)
  }

  /** What the API server tells objects apart by: it ignores the namespace field of a
    * cluster-scoped kind. */
  function Served(id: Identity): Identity
  {
    if ClusterScoped(id.kind) then id.(namespace := "") else id
  }

  function IdentityOf(o: Object): Identity
  {
    Served(Label(o))
  }

  /** namespace_name_group_kind */
  function ResourceId(o: Object): string
  {
    o.namespace + "_" + o.name + "_" + o.group + "_" + o.kind
  }

  function RefOf(o: Object): ResourceRef
  {
    ResourceRef(ResourceId(o), o.group, o.version)
  }

  /** The object a prune deletes for an entry; the third piece of the id is not
    * read, the group comes from the apiVersion. */
  function ObjectFromRef(ref: ResourceRef): Option<Object>
  {
    var parts := SplitN(ref.id, '_', 4);
    if |parts| != 4 then None
    else Some(Object(parts[0], parts[1], ref.group, ref.version, parts[3]))
  }

  /** The id text can be cut back into its parts. */
  predicate Clean(o: Object)
  {
    '_' !in o.namespace && '_' !in o.name && '_' !in o.group
  }

  /** No underscore where no API server accepts one: namespaces are DNS labels, groups DNS
    * subdomains, kinds identifiers. Names are free: those of RBAC objects may have one. */
  predicate Sound(o: Object)
  {
    '_' !in o.namespace && '_' !in o.group && '_' !in o.kind
  }

  predicate PlainName(name: string)
  {
    '_' !in name
  }

  /** A kind text that no API server has. */
  predicate Unknown(kind: string)
  {
    '_' in kind
  }

  /** What the id was written for: namespace before the first joint, kind after the last, group
    * after the last but one, name between. */
  function LabelFromId(id: string): Option<Identity>
  {
    if '_' !in id then None
    else
      var i := IndexOf(id, '_');
      var rest := id[i + 1..];
      if '_' !in rest then None
      else
        var j := LastIndexOf(rest, '_');
        var middle := rest[..j];
        if '_' !in middle then None
        else
          var k := LastIndexOf(middle, '_');
          Some(Identity(id[..i], middle[..k], middle[k + 1..], rest[j + 1..]))
  }

  /** The first piece is the text before the first joint exactly when that text has no separator. */
  lemma FirstPiece(a: string, b: string, n: nat)
    requires n >= 2
    ensures var parts := SplitN(a + "_" + b, '_', n);
            && |parts| >= 2
            && (parts[0] == a <==> '_' !in a)
            && ('_' !in a ==> parts == [a] + SplitN(b, '_', n - 1))
  {
    var s := a + "_" + b;
    assert s[|a|] == '_';
    var i := IndexOf(s, '_');
    if '_' !in a {
      IndexOfJoin(a, '_', b);
      assert s[..|a|] == a && s[|a| + 1..] == b;
    } else {
      IndexOfFirst(s, '_', IndexOf(a, '_'));
    }
  }

  predicate Full(s: string, n: nat)
    requires n >= 1
  {
    |SplitN(s, '_', n)| == n
  }

  lemma FullStep(s: string, n: nat)
    requires n >= 2
    ensures Full(s, n) <==> '_' in s && Full(s[IndexOf(s, '_') + 1..], n - 1)
  {
    hide IndexOf;
  }

  lemma {:induction false} FullFewer(s: string, n: nat)
    requires n >= 2 && Full(s, n)
    ensures Full(s, n - 1)
    decreases n
  {
    hide Full, IndexOf;
    FullStep(s, n);
    if n > 2 {
      FullFewer(s[IndexOf(s, '_') + 1..], n - 1);
      FullStep(s, n - 1);
    } else {
      AlwaysOne(s);
    }
  }

  lemma AlwaysOne(s: string)
    ensures Full(s, 1)
  {
  }

  lemma {:induction false} FullJoin(a: string, b: string, n: nat)
    requires n >= 2 && Full(b, n - 1)
    ensures Full(a + "_" + b, n)
    decreases n
  {
    hide Full;
    var s := a + "_" + b;
    FullStep(s, n);
    if '_' !in a {
      hide IndexOf;
      FirstJoint(a, b);
    } else {
      CutInFirst(a, b);
      hide IndexOf;
      var i := IndexOf(s, '_');
      if n > 2 {
        FullFewer(b, n - 1);
        FullJoin(a[i + 1..], b, n - 1);
      } else {
        AlwaysOne(s[i + 1..]);
      }
    }
  }

  lemma CutInFirst(a: string, b: string)
    requires '_' in a
    ensures var s := a + "_" + b;
            '_' in s && IndexOf(s, '_') < |a| && s[IndexOf(s, '_') + 1..] == a[IndexOf(s, '_') + 1..] + "_" + b
  {
    var k := IndexOf(a, '_');
    IndexOfFirst(a + "_" + b, '_', k);
    hide IndexOf;
    assert (a + "_" + b)[|a|] == '_';
  }

  /** The rest after the first joint is `b` only if the text before it has no separator. */
  lemma LastPiece(a: string, b: string)
    ensures SplitN(a + "_" + b, '_', 2)[1..] == [b] <==> '_' !in a
  {
    var s := a + "_" + b;
    FirstPiece(a, b, 2);
    var i := IndexOf(s, '_');
    assert SplitN(s, '_', 2) == [s[..i]] + SplitN(s[i + 1..], '_', 1) == [s[..i], s[i + 1..]];
    if s[i + 1..] == b {
      assert i == |a| && s[..i] == a;
    }
  }

  /** An id the controller wrote is never skipped, and it names its own object
    * exactly when namespace, name and group are free of underscores. */
  lemma RefRoundTrip(o: Object)
    ensures ObjectFromRef(RefOf(o)).Some?
    ensures ObjectFromRef(RefOf(o)).value == o <==> Clean(o)
  {
    var tail2 := o.group + "_" + o.kind;
    var tail1 := o.name + "_" + tail2;
    assert ResourceId(o) == o.namespace + "_" + tail1;
    FullJoin(o.group, o.kind, 2);
    FullJoin(o.name, tail2, 3);
    FullJoin(o.namespace, tail1, 4);
    FirstPiece(o.namespace, tail1, 4);
    FirstPiece(o.name, tail2, 3);
    LastPiece(o.group, o.kind);
  }

  lemma FirstJoint(a: string, b: string)
    requires '_' !in a
    ensures var s := a + "_" + b;
            '_' in s && s[..IndexOf(s, '_')] == a && s[IndexOf(s, '_') + 1..] == b
  {
    IndexOfJoin(a, '_', b);
    hide IndexOf;
    assert (a + "_" + b)[|a|] == '_';
  }

  lemma LastJoint(a: string, b: string)
    requires '_' !in b
    ensures var s := a + "_" + b;
            '_' in s && s[..LastIndexOf(s, '_')] == a && s[LastIndexOf(s, '_') + 1..] == b
  {
    LastIndexOfJoin(a, '_', b);
    hide LastIndexOf;
    assert (a + "_" + b)[|a|] == '_';
  }

  lemma LabelRoundTrip(o: Object)
    requires Sound(o)
    ensures LabelFromId(ResourceId(o)) == Some(Label(o))
  {
    hide IndexOf, LastIndexOf;
    var middle := o.name + "_" + o.group;
    var rest := middle + "_" + o.kind;
    IdIsNested(o);
    hide ResourceId;
    FirstJoint(o.namespace, rest);
    LastJoint(middle, o.kind);
    LastJoint(o.name, o.group);
  }

  lemma IdIsNested(o: Object)
    ensures ResourceId(o) == o.namespace + "_" + (o.name + "_" + o.group + "_" + o.kind)
  {
  }

  /** The id is injective up to the API version, whatever the names, empty namespace and group
    * included. */
  lemma IdInjective(o: Object, p: Object)
    requires Sound(o) && Sound(p)
    ensures ResourceId(o) == ResourceId(p) <==> Label(o) == Label(p)
  {
    LabelRoundTrip(o);
    LabelRoundTrip(p);
  }

  /** A prune reads an entry as its own object exactly when the name has no underscore; with one
    * it reads a kind that no server has. */
  lemma RefReadAs(o: Object)
    requires Sound(o)
    ensures ObjectFromRef(RefOf(o)).Some?
    ensures var p := ObjectFromRef(RefOf(o)).value;
            if PlainName(o.name) then p == o else Unknown(p.kind)
  {
    RefRoundTrip(o);
    if !PlainName(o.name) {
      hide ResourceId, SplitN;
      Misread(o);
    }
  }

  lemma Misread(o: Object)
    requires Sound(o) && !PlainName(o.name)
    ensures var parts := SplitN(ResourceId(o), '_', 4);
            |parts| == 4 && '_' in parts[3]
  {
    hide SplitN, IndexOf;
    var i := IndexOf(o.name, '_');
    var a, b := o.name[..i], o.name[i + 1..];
    FirstIsClear(o.name);
    var tail := o.group + "_" + o.kind;
    assert tail[|o.group|] == '_';
    var x := b + "_" + tail;
    assert ResourceId(o) == o.namespace + "_" + (a + "_" + x) by {
      assert o.name == a + "_" + b;
    }
    TwoCuts(b, tail);
    CutJoint(a, x, 3, SplitN(x, '_', 2));
    CutJoint(o.namespace, a + "_" + x, 4, [a] + SplitN(x, '_', 2));
  }

  lemma {:induction false} FirstIsClear(s: string)
    requires '_' in s
    ensures '_' !in s[..IndexOf(s, '_')]
  {
    if s[0] != '_' {
      FirstIsClear(s[1..]);
      assert s[..IndexOf(s, '_')] == [s[0]] + s[1..][..IndexOf(s[1..], '_')];
    }
  }

  lemma TwoCuts(b: string, tail: string)
    requires '_' in tail
    ensures var parts := SplitN(b + "_" + tail, '_', 2);
            |parts| == 2 && '_' in parts[1]
  {
    var s := b + "_" + tail;
    assert s[|b|] == '_';
    var i := IndexOf(s, '_');
    IndexOfFirst(s, '_', |b|);
    assert SplitN(s, '_', 2) == [s[..i]] + SplitN(s[i + 1..], '_', 1);
    var k :| 0 <= k < |tail| && tail[k] == '_';
    assert s[i + 1..][|b| + k - i] == '_';
  }

  lemma CutJoint(a: string, b: string, n: nat, rest: seq<string>)
    requires n >= 2 && '_' !in a && (SplitN(b, '_', n - 1) == rest || (n == 2 && rest == [b]))
    ensures SplitN(a + "_" + b, '_', n) == [a] + rest
  {
    FirstPiece(a, b, n);
  }

  /** A cluster-scoped name may carry an underscore (RBAC names do); the entry
    * then names an object of another name and of a kind that does not exist. */
  lemma UnderscoreNameMisread(a: string, b: string, group: string, version: string, kind: string)
    requires '_' !in a && '_' !in b
    ensures ObjectFromRef(RefOf(Object("", a + "_" + b, group, version, kind))) ==
            Some(Object("", a, group, version, group + "_" + kind))
  {
    hide SplitN;
    var tail2 := b + "_" + (group + "_" + kind);
    var tail1 := a + "_" + tail2;
    assert ResourceId(Object("", a + "_" + b, group, version, kind)) == "" + "_" + tail1;
    CutJoint(b, group + "_" + kind, 2, [group + "_" + kind]);
    CutJoint(a, tail2, 3, [b, group + "_" + kind]);
    CutJoint("", tail1, 4, [a, b, group + "_" + kind]);
  }

  /** With an underscore in a namespace, which no API server accepts, ids could collide. */
  lemma UnderscoreCollision()
    ensures var o := Object("a_b", "c", "g", "v1", "K");
            var p := Object("a", "b_c", "g", "v1", "K");
            IdentityOf(o) != IdentityOf(p) && ResourceId(o) == ResourceId(p)
  {
  }
}
