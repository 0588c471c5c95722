/** Grouping annotations on import, and flattening them again on load. */
module Annotations {
  import opened Text
  import opened Seqs
  import opened StableSort
  import opened SortedKeying

  // ------------------------------------------------- loading: flattening

  /** The evaluated attribute: fields in the order its iterator yields them. */
  datatype Value = Text(text: string) | Block(fields: seq<Field>)

  datatype Field = Field(key: string, value: Value)

  function Joined(prefix: string, key: string): string
  {
    if prefix != "" then prefix + "/" + key else key
  }

  /** What one field contributes. */
  function Piece(prefix: string, f: Field): map<string, string>
    decreases f, 0
  {
    if f.value.Text? then map[Joined(prefix, f.key) := f.value.text]
    else Flatten(Joined(prefix, f.key), f.value.fields)
  }

  /** A later field wins over an earlier one. */
  function Flatten(prefix: string, fields: seq<Field>): map<string, string>
    decreases fields, 1
  {
    if fields == [] then map[]
    else Flatten(prefix, fields[..|fields| - 1]) + Piece(prefix, fields[|fields| - 1])
  }

  method FlattenAnnotations(prefix: string, fields: seq<Field>) returns (result: map<string, string>)
    ensures result == Flatten(prefix, fields)
    decreases fields
  {
    result := map[];
    for i := 0 to |fields|
      invariant result == Flatten(prefix, fields[..i])
    {
      var key := fields[i].key;
      if prefix != "" {
        key := prefix + "/" + key;
      }
      assert fields[..i + 1][..i] == fields[..i];
      if fields[i].value.Block? {
        var inner := FlattenAnnotations(key, fields[i].value.fields);
        result := result + inner;
      } else {
        result := result[key := fields[i].value.text];
      }
    }
    assert fields[..|fields|] == fields;
  }

  /** A flattened key comes from some field, and takes its value from one of them. */
  lemma {:induction false} FlattenIs(prefix: string, fields: seq<Field>, key: string)
    ensures key in Flatten(prefix, fields) <==> exists f :: f in fields && key in Piece(prefix, f)
    ensures key in Flatten(prefix, fields) ==>
            exists f :: f in fields && key in Piece(prefix, f) && Flatten(prefix, fields)[key] == Piece(prefix, f)[key]
  {
    if fields != [] {
      var n := |fields| - 1;
      FlattenIs(prefix, fields[..n], key);
      assert fields == fields[..n] + [fields[n]];
      assert fields[n] in fields;
      assert forall f :: f in fields <==> f in fields[..n] || f == fields[n];
    }
  }

  /** What a field contributes: a line its text, under its own name below the prefix, a block what
    * its fields contribute below that name. */
  lemma PieceIs(prefix: string, f: Field)
    ensures var name := if prefix == "" then f.key else prefix + "/" + f.key;
            match f.value
            case Text(text) => Piece(prefix, f) == map[name := text]
            case Block(fields) => Piece(prefix, f) == Flatten(name, fields)
  {
  }

  /** The last field that contributes a key gives its value. */
  lemma {:induction false} LastFieldWins(prefix: string, fields: seq<Field>, i: nat, key: string)
    requires i < |fields| && key in Piece(prefix, fields[i])
    requires forall j :: i < j < |fields| ==> key !in Piece(prefix, fields[j])
    ensures key in Flatten(prefix, fields) && Flatten(prefix, fields)[key] == Piece(prefix, fields[i])[key]
    decreases |fields|
  {
    hide Piece;
    var n := |fields| - 1;
    if i < n {
      LastFieldWins(prefix, fields[..n], i, key);
      assert key !in Piece(prefix, fields[n]);
    }
  }

  // -------------------------------------------------- import: grouping

  function PrefixOf(key: string): string
    requires '/' in key
  {
    key[..LastIndexOf(key, '/')]
  }

  function SuffixOf(key: string): string
    requires '/' in key
  {
    key[LastIndexOf(key, '/') + 1..]
  }

  function Suffixes(ann: map<string, string>, prefix: string): set<string>
  {
    set k | k in ann && '/' in k && PrefixOf(k) == prefix :: SuffixOf(k)
  }

  /** The annotations below a prefix, by what follows its slash. */
  function Group(ann: map<string, string>, prefix: string): map<string, string>
  {
    map s | s in Suffixes(ann, prefix) && prefix + "/" + s in ann :: ann[prefix + "/" + s]
  }

  predicate Shared(ann: map<string, string>, prefix: string)
  {
    |Suffixes(ann, prefix)| >= 2
  }

  function SharedPrefixes(ann: map<string, string>): set<string>
  {
    set k | k in ann && '/' in k && Shared(ann, PrefixOf(k)) :: PrefixOf(k)
  }

  /** The keys written on a line of their own. */
  function FlatKeys(ann: map<string, string>): set<string>
  {
    set k | k in ann && !('/' in k && Shared(ann, PrefixOf(k)))
  }

  /** What a written attribute says of a key. */
  datatype Item = One(text: string) | Many(members: map<string, string>)

  /** The object that the written attribute denotes. */
  function Document(ann: map<string, string>): map<string, Item>
  {
    (map k | k in FlatKeys(ann) :: One(ann[k])) + (map p | p in SharedPrefixes(ann) :: Many(Group(ann, p)))
  }

  lemma LastSlash(prefix: string, suffix: string)
    requires '/' !in suffix
    ensures '/' in prefix + "/" + suffix
    ensures PrefixOf(prefix + "/" + suffix) == prefix && SuffixOf(prefix + "/" + suffix) == suffix
  {
    hide LastIndexOf;
    LastIndexOfJoin(prefix, '/', suffix);
    assert prefix + ['/'] + suffix == prefix + "/" + suffix;
  }

  lemma Cut(key: string)
    requires '/' in key
    ensures PrefixOf(key) + "/" + SuffixOf(key) == key && '/' !in SuffixOf(key)
  {
  }

  lemma GroupIs(ann: map<string, string>, prefix: string, s: string)
    ensures s in Suffixes(ann, prefix) <==> '/' !in s && prefix + "/" + s in ann
    ensures s in Group(ann, prefix) <==> s in Suffixes(ann, prefix)
  {
    if s in Suffixes(ann, prefix) {
      var k :| k in ann && '/' in k && PrefixOf(k) == prefix && SuffixOf(k) == s;
      Cut(k);
    }
    if '/' !in s {
      LastSlash(prefix, s);
    }
  }

  /** An annotation is written in a group exactly when another one has its prefix, and on a line
    * of its own otherwise. */
  lemma GroupedIff(ann: map<string, string>, key: string)
    requires key in ann
    ensures key in FlatKeys(ann) <==>
              ('/' !in key || forall l :: l in ann && '/' in l && PrefixOf(l) == PrefixOf(key) ==> l == key)
    ensures key !in FlatKeys(ann) ==>
              '/' in key && PrefixOf(key) in SharedPrefixes(ann)
              && SuffixOf(key) in Group(ann, PrefixOf(key)) && Group(ann, PrefixOf(key))[SuffixOf(key)] == ann[key]
  {
    if '/' in key {
      hide PrefixOf, SuffixOf;
      var p, all := PrefixOf(key), Suffixes(ann, PrefixOf(key));
      Cut(key);
      GroupIs(ann, p, SuffixOf(key));
      if forall l :: l in ann && '/' in l && PrefixOf(l) == p ==> l == key {
        assert all == {SuffixOf(key)};
      } else {
        var l :| l in ann && '/' in l && PrefixOf(l) == p && l != key;
        BothBelow(ann, key, l);
      }
    }
  }

  lemma BothBelow(ann: map<string, string>, k: string, l: string)
    requires k in ann && l in ann && k != l && '/' in k && '/' in l && PrefixOf(k) == PrefixOf(l)
    ensures Shared(ann, PrefixOf(k))
  {
    hide PrefixOf, SuffixOf;
    Cut(k);
    Cut(l);
    TwoOrMore(Suffixes(ann, PrefixOf(k)), {SuffixOf(k), SuffixOf(l)});
  }

  lemma TwoOrMore(s: set<string>, t: set<string>)
    requires t <= s
    ensures |t| <= |s|
  {
    assert s == t + (s - t);
  }

  // ------------------------------------------------------- round trip

  predicate Shows(v: Value, item: Item)
  {
    match item
    case One(text) => v == Text(text)
    case Many(members) =>
      && v.Block?
      && (forall f :: f in v.fields ==> f.key in members && f.value == Text(members[f.key]))
      && (forall s :: s in members ==> Field(s, Text(members[s])) in v.fields)
  }

  /** The fields are those of the object, in whatever order. */
  ghost predicate Iterates(fields: seq<Field>, doc: map<string, Item>)
  {
    && (forall f :: f in fields ==> f.key in doc && Shows(f.value, doc[f.key]))
    && (forall k :: k in doc ==> exists f :: f in fields && f.key == k)
  }

  /** No line key is also a shared prefix, and no two keys share the empty prefix. */
  predicate Regroupable(ann: map<string, string>)
  {
    FlatKeys(ann) !! SharedPrefixes(ann) && "" !in SharedPrefixes(ann)
  }

  /** The fields of a shared prefix flatten to the annotations below it. */
  lemma SharedPiece(ann: map<string, string>, prefix: string, fields: seq<Field>, key: string)
    requires prefix != "" && Shows(Block(fields), Many(Group(ann, prefix)))
    ensures key in Flatten(prefix, fields) <==> key in ann && '/' in key && PrefixOf(key) == prefix
    ensures key in Flatten(prefix, fields) ==> Flatten(prefix, fields)[key] == ann[key]
  {
    FlattenIs(prefix, fields, key);
    if key in Flatten(prefix, fields) {
      var f :| f in fields && key in Piece(prefix, f) && Flatten(prefix, fields)[key] == Piece(prefix, f)[key];
      GroupIs(ann, prefix, f.key);
      LastSlash(prefix, f.key);
    }
    if key in ann && '/' in key && PrefixOf(key) == prefix {
      Cut(key);
      GroupIs(ann, prefix, SuffixOf(key));
      var f := Field(SuffixOf(key), Text(Group(ann, prefix)[SuffixOf(key)]));
      assert f in fields && key in Piece(prefix, f);
    }
  }

  /** Below the empty prefix the slash is lost. */
  lemma EmptyPrefixPiece(ann: map<string, string>, fields: seq<Field>, key: string)
    requires Shows(Block(fields), Many(Group(ann, "")))
    ensures key in Flatten("", fields) ==> '/' !in key
  {
    FlattenIs("", fields, key);
    if key in Flatten("", fields) {
      var f :| f in fields && key in Piece("", f);
      GroupIs(ann, "", f.key);
    }
  }

  lemma FieldPiece(ann: map<string, string>, f: Field, key: string)
    requires f.key in Document(ann) && Shows(f.value, Document(ann)[f.key])
    ensures key in Piece("", f) && f.key != "" ==> key in ann && Piece("", f)[key] == ann[key]
    ensures key in Piece("", f) && f.key !in SharedPrefixes(ann) ==>
              key == f.key && key in FlatKeys(ann) && Piece("", f)[key] == ann[key]
    ensures key in Piece("", f) && f.key in SharedPrefixes(ann) && '/' in key ==>
              f.key != "" && PrefixOf(key) == f.key
  {
    if f.key in SharedPrefixes(ann) {
      if f.key == "" {
        EmptyPrefixPiece(ann, f.value.fields, key);
      } else {
        SharedPiece(ann, f.key, f.value.fields, key);
      }
    }
  }

  lemma {:induction false} RegroupableReturns(ann: map<string, string>, fields: seq<Field>)
    requires Regroupable(ann) && Iterates(fields, Document(ann))
    ensures Flatten("", fields) == ann
  {
    hide Flatten, Piece, Regroupable, Document, SharedPrefixes;
    var flat := Flatten("", fields);
    forall key ensures key in flat <==> key in ann
                 ensures key in flat ==> flat[key] == ann[key]
    {
      FlattenIs("", fields, key);
      if key in flat {
        var f :| f in fields && key in Piece("", f) && flat[key] == Piece("", f)[key];
        FieldPiece(ann, f, key);
        EmptyKey(ann);
      }
      if key in ann {
        AnnotationHasField(ann, fields, key);
      }
    }
  }

  lemma EmptyKey(ann: map<string, string>)
    requires Regroupable(ann)
    ensures "" !in SharedPrefixes(ann)
  {
  }

  lemma AnnotationHasField(ann: map<string, string>, fields: seq<Field>, key: string)
    requires Regroupable(ann) && Iterates(fields, Document(ann)) && key in ann
    ensures exists f :: f in fields && key in Piece("", f)
  {
    var top := if key in FlatKeys(ann) then key else PrefixOf(key);
    assert top in Document(ann);
    var f :| f in fields && f.key == top;
    if key !in FlatKeys(ann) {
      assert top in SharedPrefixes(ann);
      SharedPiece(ann, top, f.value.fields, key);
    }
  }

  /** Two keys below the empty prefix are lost. */
  lemma EmptyPrefixIsLost(ann: map<string, string>, fields: seq<Field>, key: string)
    requires Iterates(fields, Document(ann))
    requires key in ann && '/' in key && Shared(ann, PrefixOf(key)) && PrefixOf(key) == ""
    ensures key !in Flatten("", fields)
  {
    FlattenIs("", fields, key);
    if key in Flatten("", fields) {
      var f :| f in fields && key in Piece("", f);
      FieldPiece(ann, f, key);
    }
  }

  /** A line key that is also a shared prefix is overwritten by the group of that name. */
  lemma LineUnderGroupIsLost(ann: map<string, string>, fields: seq<Field>, key: string)
    requires Iterates(fields, Document(ann)) && "" !in SharedPrefixes(ann)
    requires key in FlatKeys(ann) && key in SharedPrefixes(ann)
    ensures key !in Flatten("", fields)
  {
    FlattenIs("", fields, key);
    if key in Flatten("", fields) {
      var f :| f in fields && key in Piece("", f);
      FieldPiece(ann, f, key);
      if f.key in SharedPrefixes(ann) {
        SharedPiece(ann, f.key, f.value.fields, key);
      }
    }
  }

  /** Grouping and flattening give the annotations back exactly when no line key is also a
    * shared prefix and the empty prefix is not shared, in whatever order fields are read. */
  lemma RoundTripExact(ann: map<string, string>, fields: seq<Field>)
    requires Iterates(fields, Document(ann))
    ensures Flatten("", fields) == ann <==> Regroupable(ann)
  {
    if Regroupable(ann) {
      RegroupableReturns(ann, fields);
    } else if "" in SharedPrefixes(ann) {
      var key :| key in ann && '/' in key && Shared(ann, PrefixOf(key)) && PrefixOf(key) == "";
      EmptyPrefixIsLost(ann, fields, key);
    } else {
      var key :| key in FlatKeys(ann) && key in SharedPrefixes(ann);
      LineUnderGroupIsLost(ann, fields, key);
    }
  }

  // ------------------------------------------------------------ writing

  datatype Entry = Line(key: string, text: string) | Lines(key: string, members: seq<(string, string)>)

  function MembersOf(members: seq<(string, string)>): map<string, string>
  {
    if members == [] then map[]
    else MembersOf(members[..|members| - 1])[members[|members| - 1].0 := members[|members| - 1].1]
  }

  function ItemOf(e: Entry): Item
  {
    if e.Line? then One(e.text) else Many(MembersOf(e.members))
  }

  /** The object an attribute written as these entries denotes: a repeated key keeps its last value. */
  function ObjectOf(entries: seq<Entry>): map<string, Item>
  {
    if entries == [] then map[]
    else ObjectOf(entries[..|entries| - 1])[entries[|entries| - 1].key := ItemOf(entries[|entries| - 1])]
  }

  /** The lines and the groups written once the prefixes done are. */
  function LineKeys(ann: map<string, string>, done: set<string>): (r: set<string>)
    ensures forall k :: k in r ==> k in ann
  {
    set k | k in FlatKeys(ann) && ('/' in k ==> PrefixOf(k) in done)
  }

  function GroupKeys(ann: map<string, string>, done: set<string>): set<string>
  {
    SharedPrefixes(ann) * done
  }

  function Partial(ann: map<string, string>, done: set<string>): map<string, Item>
  {
    (map k | k in LineKeys(ann, done) :: One(ann[k])) + (map p | p in GroupKeys(ann, done) :: Many(Group(ann, p)))
  }

  function Prefixes(ann: map<string, string>): set<string>
  {
    set k | k in ann && '/' in k :: PrefixOf(k)
  }

  lemma GroupGrows(seen: map<string, string>, k: string, v: string, prefix: string)
    requires k !in seen
    ensures Group(seen[k := v], prefix) ==
            if '/' in k && prefix == PrefixOf(k) then Group(seen, prefix)[SuffixOf(k) := v] else Group(seen, prefix)
  {
    var grown := seen[k := v];
    forall s ensures s in Group(grown, prefix) <==>
        s in Group(seen, prefix) || ('/' in k && prefix == PrefixOf(k) && s == SuffixOf(k))
    {
      GroupIs(grown, prefix, s);
      GroupIs(seen, prefix, s);
      if '/' !in s { LastSlash(prefix, s); }
      if '/' in k { Cut(k); }
    }
    if '/' in k { Cut(k); }
  }

  lemma GroupSize(ann: map<string, string>, prefix: string)
    ensures |Group(ann, prefix)| == |Suffixes(ann, prefix)|
  {
    forall s ensures s in Group(ann, prefix) <==> s in Suffixes(ann, prefix) { GroupIs(ann, prefix, s); }
    assert Group(ann, prefix).Keys == Suffixes(ann, prefix);
  }

  /** The map on the first keys of an enumeration. */
  function Taken(m: map<string, string>, names: seq<string>): map<string, string>
  {
    map k | k in m && k in names :: m[k]
  }

  lemma TakenStep(m: map<string, string>, names: seq<string>, i: nat)
    requires i < |names| && SortedNames(names, m.Keys)
    ensures names[i] in m && names[i] !in Taken(m, names[..i])
    ensures Taken(m, names[..i + 1]) == Taken(m, names[..i])[names[i] := m[names[i]]]
    ensures forall j | 0 <= j < i :: !LexLess(names[i], names[j])
  {
    hide LexLess;
    assert names[i] in names;
    assert names[..i + 1] == names[..i] + [names[i]];
  }

  lemma TakenEnds(m: map<string, string>, names: seq<string>)
    requires SortedNames(names, m.Keys)
    ensures Taken(m, names[..0]) == map[] && Taken(m, names[..|names|]) == m
  {
    hide LexLess, Sorted, NoDup;
    assert names[..|names|] == names;
  }

  lemma PrefixesGrow(seen: map<string, string>, k: string, v: string)
    ensures Prefixes(seen[k := v]) == Prefixes(seen) + if '/' in k then {PrefixOf(k)} else {}
  {
    hide LastIndexOf;
  }

  method GroupByPrefix(ann: map<string, string>)
    returns (groups: map<string, map<string, string>>, ungrouped: map<string, string>)
    ensures ungrouped == map k | k in ann && '/' !in k :: ann[k]
    ensures groups == map p | p in Prefixes(ann) :: Group(ann, p)
  {
    hide Group, LastIndexOf, SortedNames, Taken, Prefixes;
    groups, ungrouped := map[], map[];
    var names := SortedKeys(ann.Keys);
    TakenEnds(ann, names);
    ghost var seen: map<string, string> := map[];
    NoPrefixes();
    for i := 0 to |names|
      invariant seen == Taken(ann, names[..i])
      invariant ungrouped == map k | k in seen && '/' !in k :: seen[k]
      invariant groups == map p | p in Prefixes(seen) :: Group(seen, p)
    {
      var k := names[i];
      TakenStep(ann, names, i);
      forall p ensures Group(seen[k := ann[k]], p) ==
          if '/' in k && p == PrefixOf(k) then Group(seen, p)[SuffixOf(k) := ann[k]] else Group(seen, p)
      {
        GroupGrows(seen, k, ann[k], p);
      }
      PrefixesGrow(seen, k, ann[k]);
      var lastSlash := if '/' in k then LastIndexOf(k, '/') else -1;
      if lastSlash == -1 {
        ungrouped := ungrouped[k := ann[k]];
      } else {
        var prefix, suffix := k[..lastSlash], k[lastSlash + 1..];
        if prefix !in groups {
          NoSuffixesYet(seen, prefix);
          groups := groups[prefix := map[]];
        }
        groups := groups[prefix := groups[prefix][suffix := ann[k]]];
      }
      seen := seen[k := ann[k]];
    }
  }

  lemma NoPrefixes()
    ensures Prefixes(map[]) == {}
  {
  }

  lemma NoSuffixesYet(seen: map<string, string>, prefix: string)
    requires prefix !in Prefixes(seen)
    ensures Group(seen, prefix) == map[]
  {
  }

  lemma SharedKeys(ann: map<string, string>, done: set<string>, prefix: string)
    requires prefix in SharedPrefixes(ann)
    ensures LineKeys(ann, done + {prefix}) == LineKeys(ann, done)
    ensures GroupKeys(ann, done + {prefix}) == GroupKeys(ann, done) + {prefix}
  {
    hide LastIndexOf, Suffixes;
  }

  /** A group overrides a line of its name. */
  lemma SharedWritten(ann: map<string, string>, done: set<string>, prefix: string)
    requires prefix in SharedPrefixes(ann)
    ensures Partial(ann, done + {prefix}) == Partial(ann, done)[prefix := Many(Group(ann, prefix))]
  {
    hide LineKeys, GroupKeys, SharedPrefixes, Group;
    SharedKeys(ann, done, prefix);
  }

  lemma OneSuffix(ann: map<string, string>, prefix: string, suffix: string)
    requires Suffixes(ann, prefix) == {suffix}
    ensures var key := prefix + "/" + suffix;
            key in ann && '/' in key && forall k :: k in ann && '/' in k ==> (PrefixOf(k) == prefix <==> k == key)
  {
    GroupIs(ann, prefix, suffix);
    LastSlash(prefix, suffix);
    forall k | k in ann && '/' in k && PrefixOf(k) == prefix ensures k == prefix + "/" + suffix {
      Cut(k);
      GroupIs(ann, prefix, SuffixOf(k));
    }
  }

  lemma LoneKeys(ann: map<string, string>, done: set<string>, prefix: string, suffix: string)
    requires Suffixes(ann, prefix) == {suffix}
    ensures LineKeys(ann, done + {prefix}) == LineKeys(ann, done) + {prefix + "/" + suffix}
    ensures GroupKeys(ann, done + {prefix}) == GroupKeys(ann, done)
  {
    OneSuffix(ann, prefix, suffix);
    hide PrefixOf, Suffixes;
    assert |Suffixes(ann, prefix)| == 1;
  }

  lemma PartialWithLine(ann: map<string, string>, done: set<string>, next: set<string>, key: string)
    requires key in ann && key !in GroupKeys(ann, done)
    requires LineKeys(ann, next) == LineKeys(ann, done) + {key}
    requires GroupKeys(ann, next) == GroupKeys(ann, done)
    ensures Partial(ann, next) == Partial(ann, done)[key := One(ann[key])]
  {
    hide LineKeys, GroupKeys, Group;
  }

  /** A line stays: a group of its name sorts after it. */
  lemma LineWritten(ann: map<string, string>, done: set<string>, prefix: string, suffix: string)
    requires Group(ann, prefix).Keys == {suffix}
    requires forall d :: d in done ==> !LexLess(prefix, d)
    ensures Partial(ann, done + {prefix}) ==
            Partial(ann, done)[prefix + "/" + suffix := One(Group(ann, prefix)[suffix])]
  {
    hide LineKeys, SharedPrefixes, LexLess, Partial, Suffixes, PrefixOf;
    var key := prefix + "/" + suffix;
    assert Suffixes(ann, prefix) == {suffix} by {
      forall s ensures s in Suffixes(ann, prefix) <==> s == suffix { GroupIs(ann, prefix, s); }
    }
    LoneKeys(ann, done, prefix, suffix);
    OneSuffix(ann, prefix, suffix);
    LexExtends(prefix, "/" + suffix);
    assert prefix + ("/" + suffix) == key;
    assert key !in GroupKeys(ann, done);
    hide GroupKeys;
    PartialWithLine(ann, done, done + {prefix}, key);
  }

  lemma {:induction false} LexExtends(a: string, b: string)
    requires b != []
    ensures LexLess(a, a + b)
  {
    if a != [] {
      LexExtends(a[1..], b);
      assert (a + b)[1..] == a[1..] + b;
    }
  }

  method WriteMembers(suffixes: map<string, string>) returns (members: seq<(string, string)>)
    ensures MembersOf(members) == suffixes
  {
    hide SortedNames, Taken;
    members := [];
    var names := SortedKeys(suffixes.Keys);
    TakenEnds(suffixes, names);
    for i := 0 to |names|
      invariant MembersOf(members) == Taken(suffixes, names[..i])
    {
      TakenStep(suffixes, names, i);
      ghost var before := members;
      members := members + [(names[i], suffixes[names[i]])];
      assert members[..|members| - 1] == before;
    }
  }

  function Ones(m: map<string, string>): map<string, Item>
  {
    map k | k in m :: One(m[k])
  }

  lemma ObjectSnoc(entries: seq<Entry>, e: Entry)
    ensures ObjectOf(entries + [e]) == ObjectOf(entries)[e.key := ItemOf(e)]
  {
    assert (entries + [e])[..|entries|] == entries;
  }

  lemma NothingWritten()
    ensures ObjectOf([]) == map[]
  {
  }

  lemma NothingDone(ann: map<string, string>, ungrouped: map<string, string>)
    requires ungrouped == map k | k in ann && '/' !in k :: ann[k]
    ensures Ones(ungrouped) == Partial(ann, {})
  {
    hide LastIndexOf, Group, Shared;
  }

  method WriteUngrouped(ungrouped: map<string, string>) returns (entries: seq<Entry>)
    ensures ObjectOf(entries) == Ones(ungrouped)
  {
    hide SortedNames, Taken, ObjectOf;
    entries := [];
    var names := SortedKeys(ungrouped.Keys);
    TakenEnds(ungrouped, names);
    NothingWritten();
    for i := 0 to |names|
      invariant ObjectOf(entries) == Ones(Taken(ungrouped, names[..i]))
    {
      TakenStep(ungrouped, names, i);
      ObjectSnoc(entries, Line(names[i], ungrouped[names[i]]));
      entries := entries + [Line(names[i], ungrouped[names[i]])];
    }
  }

  /** One suffix is written on a line, several as a group. */
  method WriteGroup(ann: map<string, string>, prefix: string, suffixes: map<string, string>, ghost done: set<string>)
    returns (e: Entry)
    requires prefix in Prefixes(ann) && suffixes == Group(ann, prefix)
    requires forall d :: d in done ==> !LexLess(prefix, d)
    ensures Partial(ann, done + {prefix}) == Partial(ann, done)[e.key := ItemOf(e)]
  {
    hide LexLess, MembersOf, Partial, Group, Prefixes, SharedPrefixes, Suffixes;
    GroupSize(ann, prefix);
    if |suffixes| == 1 {
      var suffix :| suffix in suffixes;
      OnlyKey(suffixes, suffix);
      LineWritten(ann, done, prefix, suffix);
      return Line(prefix + "/" + suffix, suffixes[suffix]);
    }
    PrefixHasSuffix(ann, prefix);
    SharedWritten(ann, done, prefix);
    var members := WriteMembers(suffixes);
    return Lines(prefix, members);
  }

  lemma EarlierPrefixes(prefixes: seq<string>, s: set<string>, i: nat)
    requires SortedNames(prefixes, s) && i < |prefixes|
    ensures prefixes[i] in s
    ensures forall d :: d in prefixes[..i] ==> !LexLess(prefixes[i], d)
    ensures prefixes[..i + 1] == prefixes[..i] + [prefixes[i]]
  {
    hide LexLess;
  }

  method WriteGroupedAnnotations(ann: map<string, string>) returns (entries: seq<Entry>)
    ensures ObjectOf(entries) == Document(ann)
  {
    hide Group, LexLess, ObjectOf, Partial, Document, SortedNames, Prefixes;
    var groups, ungrouped := GroupByPrefix(ann);
    entries := WriteUngrouped(ungrouped);
    NothingDone(ann, ungrouped);
    var prefixes := SortedKeys(groups.Keys);
    ghost var done: set<string> := {};
    for i := 0 to |prefixes|
      invariant forall d :: d in done <==> d in prefixes[..i]
      invariant ObjectOf(entries) == Partial(ann, done)
    {
      EarlierPrefixes(prefixes, groups.Keys, i);
      var e := WriteGroup(ann, prefixes[i], groups[prefixes[i]], done);
      ObjectSnoc(entries, e);
      entries := entries + [e];
      done := done + {prefixes[i]};
    }
    assert prefixes[..|prefixes|] == prefixes;
    SortedCover(prefixes, groups.Keys);
    AllPrefixesWritten(ann, done);
  }

  lemma SortedCover(names: seq<string>, s: set<string>)
    requires SortedNames(names, s)
    ensures forall x :: x in names <==> x in s
  {
  }

  lemma OnlyKey(m: map<string, string>, k: string)
    requires |m| == 1 && k in m
    ensures m.Keys == {k}
  {
    assert |m.Keys - {k}| == 0;
    assert m.Keys == {k} + (m.Keys - {k});
  }

  lemma PrefixHasSuffix(ann: map<string, string>, prefix: string)
    requires prefix in Prefixes(ann) && |Suffixes(ann, prefix)| != 1
    ensures prefix in SharedPrefixes(ann)
  {
    var k :| k in ann && '/' in k && PrefixOf(k) == prefix;
    assert SuffixOf(k) in Suffixes(ann, prefix);
    assert Shared(ann, PrefixOf(k));
  }

  lemma AllPrefixesWritten(ann: map<string, string>, done: set<string>)
    requires forall p :: p in done <==> p in Prefixes(ann)
    ensures Partial(ann, done) == Document(ann)
  {
    hide Group, Shared;
  }
}
