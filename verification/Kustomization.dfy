/** Adding moved files to a custom kustomization.yaml (prepareCustomKustomization of
    cmd/cluster_migrate_layout.go). YAML text is behind an abstract codec. */
module Kustomization {
  import opened Text

  datatype Node = Scalar(value: string) | Alias(anchor: string) | Sequence(items: seq<Node>) | Mapping(pairs: seq<Pair>)
  datatype Pair = Pair(key: Node, value: Node)

  datatype Document = Malformed | Empty | Doc(root: Node)

  datatype Codec = Codec(parse: string -> Document, render: Node -> string)

  // ---------- filepath.Clean ----------

  /** One segment after those kept so far. */
  function CleanStep(kept: seq<string>, rooted: bool, part: string): seq<string> {
    if part == "" || part == "." then kept
    else if part != ".." then kept + [part]
    else if kept != [] && kept[|kept| - 1] != ".." then kept[..|kept| - 1]
    else if rooted then kept
    else kept + [part]
  }

  function CleanParts(parts: seq<string>, rooted: bool): seq<string> {
    if parts == [] then [] else CleanStep(CleanParts(parts[..|parts| - 1], rooted), rooted, parts[|parts| - 1])
  }

  function Clean(path: string): string {
    var rooted := path != "" && path[0] == '/';
    var parts := CleanParts(Split(path, '/'), rooted);
    if rooted then "/" + Join(parts, '/')
    else if parts == [] then "." else Join(parts, '/')
  }

  /** A file name as it stands in a directory. */
  predicate IsName(s: string) {
    s != "" && s != "." && s != ".." && '/' !in s
  }

  function Trimmed(value: string): string {
    if HasPrefix(value, "./") then value[2..] else value
  }

  /** The file a resource entry is taken to name. */
  function Named(value: string): string {
    Clean(Trimmed(value))
  }

  lemma {:induction false} SplitWhole(s: string)
    requires '/' !in s
    ensures Split(s, '/') == [s]
  {
    if s != [] {
      SplitWhole(s[1..]);
      assert s == [s[0]] + s[1..];
    }
  }

  lemma DotSlash(s: string)
    ensures HasPrefix(s, "./") ==> '/' in s
  {
    if HasPrefix(s, "./") {
      assert s[1] == '/';
    }
  }

  lemma {:induction false} NameNamesItself(s: string)
    requires IsName(s)
    ensures Named(s) == s
  {
    DotSlash(s);
    SplitWhole(s);
    assert CleanParts([s][..0], false) == [];
    assert CleanParts([s], false) == [s];
  }

  // ---------- Mappings ----------

  function ValueOf(n: Node): string {
    match n case Scalar(v) => v case Alias(a) => a case _ => ""
  }

  /** The first pair with a key. */
  function Find(pairs: seq<Pair>, key: string): Option<Node> {
    if pairs == [] then None
    else if ValueOf(pairs[0].key) == key then Some(pairs[0].value)
    else Find(pairs[1..], key)
  }

  function Put(pairs: seq<Pair>, key: string, value: Node): seq<Pair> {
    if pairs == [] then [Pair(Scalar(key), value)]
    else if ValueOf(pairs[0].key) == key then [Pair(pairs[0].key, value)] + pairs[1..]
    else [pairs[0]] + Put(pairs[1..], key, value)
  }

  /** A value put under a key is found there, and nothing else in the mapping changes. */
  lemma {:induction false} PutThenFind(pairs: seq<Pair>, key: string, value: Node, other: string)
    ensures Find(Put(pairs, key, value), key) == Some(value)
    ensures other != key ==> Find(Put(pairs, key, value), other) == Find(pairs, other)
  {
    if pairs != [] && ValueOf(pairs[0].key) != key {
      PutThenFind(pairs[1..], key, value, other);
    }
  }

  ghost predicate Lacks(pairs: seq<Pair>, key: string, n: nat)
    requires n <= |pairs|
  {
    forall j :: 0 <= j < n ==> ValueOf(pairs[j].key) != key
  }

  lemma {:induction false} PutAt(pairs: seq<Pair>, key: string, value: Node, i: nat)
    requires i <= |pairs| && Lacks(pairs, key, i)
    requires i < |pairs| ==> ValueOf(pairs[i].key) == key
    ensures i < |pairs| ==> Put(pairs, key, value) == pairs[..i] + [Pair(pairs[i].key, value)] + pairs[i + 1..]
    ensures i == |pairs| ==> Put(pairs, key, value) == pairs + [Pair(Scalar(key), value)]
  {
    if i > 0 {
      assert Lacks(pairs[1..], key, i - 1);
      PutAt(pairs[1..], key, value, i - 1);
    }
  }

  /** setMigrationYAMLValue. */
  method SetValue(pairs: seq<Pair>, key: string, value: Node) returns (r: seq<Pair>)
    ensures r == Put(pairs, key, value)
  {
    for i := 0 to |pairs|
      invariant Lacks(pairs, key, i)
    {
      if ValueOf(pairs[i].key) == key {
        PutAt(pairs, key, value, i);
        return pairs[..i] + [Pair(pairs[i].key, value)] + pairs[i + 1..];
      }
    }
    PutAt(pairs, key, value, |pairs|);
    return pairs + [Pair(Scalar(key), value)];
  }

  // ---------- Resources ----------

  /** The files named by scalar entries. */
  function Seen(items: seq<Node>): set<string> {
    if items == [] then {}
    else
      var last := items[|items| - 1];
      Seen(items[..|items| - 1]) + if last.Scalar? then {Named(last.value)} else {}
  }

  /** The resources that have no entry yet, each once, in order. */
  function Fresh(seen: set<string>, resources: seq<string>): seq<string> {
    if resources == [] then []
    else
      var last := resources[|resources| - 1];
      var before := Fresh(seen, resources[..|resources| - 1]);
      if last in seen || last in before then before else before + [last]
  }

  function Scalars(values: seq<string>): seq<Node> {
    if values == [] then [] else Scalars(values[..|values| - 1]) + [Scalar(values[|values| - 1])]
  }

  function Extended(items: seq<Node>, resources: seq<string>): seq<Node> {
    items + Scalars(Fresh(Seen(items), resources))
  }

  ghost predicate Once(values: seq<string>) {
    forall i, j :: 0 <= i < j < |values| ==> values[i] != values[j]
  }

  /** What is added: exactly the resources without an entry, none of them twice. */
  lemma {:induction false} FreshIsMissing(seen: set<string>, resources: seq<string>)
    ensures Once(Fresh(seen, resources))
    ensures forall r :: r in Fresh(seen, resources) <==> r in resources && r !in seen
    decreases |resources|
  {
    if resources != [] {
      var n := |resources| - 1;
      FreshIsMissing(seen, resources[..n]);
      assert resources == resources[..n] + [resources[n]];
    }
  }

  lemma SeenNext(items: seq<Node>, value: string)
    ensures Seen(items + [Scalar(value)]) == Seen(items) + {Named(value)}
  {
    var all := items + [Scalar(value)];
    assert all[..|all| - 1] == items;
  }

  lemma {:induction false} SeenMore(items: seq<Node>, values: seq<string>)
    requires Names(values)
    ensures Seen(items + Scalars(values)) == Seen(items) + ElementsOf(values)
    decreases |values|
  {
    var n := |values| - 1;
    if values == [] {
      assert items + Scalars(values) == items;
    } else {
      var before := Scalars(values[..n]);
      SeenMore(items, values[..n]);
      assert items + Scalars(values) == (items + before) + [Scalar(values[n])];
      SeenNext(items + before, values[n]);
      NameNamesItself(values[n]);
      ElementsNext(values);
    }
  }

  function ElementsOf(values: seq<string>): set<string> {
    set v | v in values
  }

  lemma ElementsNext(values: seq<string>)
    requires values != []
    ensures ElementsOf(values) == ElementsOf(values[..|values| - 1]) + {values[|values| - 1]}
  {
    assert values == values[..|values| - 1] + [values[|values| - 1]];
  }

  predicate Names(values: seq<string>) {
    forall v :: v in values ==> IsName(v)
  }

  lemma {:induction false} FreshNames(seen: set<string>, resources: seq<string>)
    requires Names(resources)
    ensures Names(Fresh(seen, resources))
  {
    FreshIsMissing(seen, resources);
  }

  lemma {:induction false} NothingFresh(seen: set<string>, resources: seq<string>)
    ensures Fresh(seen, resources) == [] <==> forall r :: r in resources ==> r in seen
  {
    FreshIsMissing(seen, resources);
    if Fresh(seen, resources) != [] {
      assert Fresh(seen, resources)[0] in Fresh(seen, resources);
    }
  }

  /** Existing entries stay first and in order, every resource is listed afterwards, and a second
      merge adds nothing. */
  lemma {:induction false} ExtendedListsAll(items: seq<Node>, resources: seq<string>)
    requires Names(resources)
    ensures var r := Extended(items, resources);
      && |items| <= |r| && r[..|items|] == items
      && (forall x :: x in resources ==> x in Seen(r))
      && Fresh(Seen(r), resources) == []
  {
    FreshIsMissing(Seen(items), resources);
    FreshNames(Seen(items), resources);
    SeenMore(items, Fresh(Seen(items), resources));
    NothingFresh(Seen(Extended(items, resources)), resources);
  }

  // ---------- The whole merge ----------

  /** What reading the file gave. */
  datatype Reading = NotFound | Unreadable | Contents(data: string)

  datatype Prepared = Refused | Unchanged | Rewrite(data: string)

  const RESOURCES := "resources"
  const API_VERSION := "kustomize.config.k8s.io/v1beta1"
  const KIND := "Kustomization"

  function NewRoot(resources: seq<string>): Node {
    Mapping([Pair(Scalar("apiVersion"), Scalar(API_VERSION)), Pair(Scalar("kind"), Scalar(KIND)),
             Pair(Scalar(RESOURCES), Sequence(Scalars(resources)))])
  }

  /** The resources of a root mapping, none when the key is missing. */
  function ResourcesOf(pairs: seq<Pair>): Node {
    match Find(pairs, RESOURCES) case Some(n) => n case None => Sequence([])
  }

  predicate Mergeable(d: Document) {
    d.Doc? && d.root.Mapping? && ResourcesOf(d.root.pairs).Sequence?
  }

  /** The root mapping with the resources listed. */
  function Merged(pairs: seq<Pair>, resources: seq<string>): Node
    requires ResourcesOf(pairs).Sequence?
  {
    Mapping(Put(pairs, RESOURCES, Sequence(Extended(ResourcesOf(pairs).items, resources))))
  }

  /** A parsed document with resources added reads back as what was written. */
  ghost predicate ReadsBack(codec: Codec, data: string, resources: seq<string>) {
    var d := codec.parse(data);
    Mergeable(d) ==> codec.parse(codec.render(Merged(d.root.pairs, resources))) == Doc(Merged(d.root.pairs, resources))
  }

  ghost predicate NewReadsBack(codec: Codec, resources: seq<string>) {
    codec.parse(codec.render(NewRoot(resources))) == Doc(NewRoot(resources))
  }

  /** What the YAML library owes its callers: what it writes of a document it read, with plain names
      added to its resources, and of a new one, it reads back. */
  ghost predicate RoundTrips(codec: Codec) {
    && (forall data, resources :: Names(resources) ==> ReadsBack(codec, data, resources))
    && (forall resources :: Names(resources) ==> NewReadsBack(codec, resources))
  }

  function Preparation(codec: Codec, reading: Reading, resources: seq<string>): Prepared {
    match reading
    case Unreadable => Refused
    case NotFound => Rewrite(codec.render(NewRoot(resources)))
    case Contents(data) =>
      var d := codec.parse(data);
      if !Mergeable(d) then Refused
      else if Fresh(Seen(ResourcesOf(d.root.pairs).items), resources) == [] then Unchanged
      else Rewrite(codec.render(Merged(d.root.pairs, resources)))
  }

  /** prepareCustomKustomization. */
  method Prepare(codec: Codec, reading: Reading, resources: seq<string>) returns (r: Prepared)
    ensures r == Preparation(codec, reading, resources)
  {
    if reading.NotFound? {
      return Rewrite(codec.render(NewRoot(resources)));
    }
    if reading.Unreadable? {
      return Refused;
    }
    var d := codec.parse(reading.data);
    if !d.Doc? || !d.root.Mapping? {
      return Refused;
    }
    var pairs := d.root.pairs;
    var node := Find(pairs, RESOURCES);
    var list := if node.Some? then node.value else Sequence([]);
    if !list.Sequence? {
      return Refused;
    }
    var items, changed := MergeItems(list.items, resources);
    if !changed {
      return Unchanged;
    }
    var root := SetValue(pairs, RESOURCES, Sequence(items));
    return Rewrite(codec.render(Mapping(root)));
  }

  /** The two loops over the resources node. */
  method MergeItems(old_: seq<Node>, resources: seq<string>) returns (items: seq<Node>, changed: bool)
    ensures items == Extended(old_, resources)
    ensures changed <==> Fresh(Seen(old_), resources) != []
  {
    var seen := {};
    for i := 0 to |old_|
      invariant seen == Seen(old_[..i])
    {
      assert old_[..i + 1][..i] == old_[..i];
      if old_[i].Scalar? {
        seen := seen + {Named(old_[i].value)};
      }
    }
    assert old_[..|old_|] == old_;
    items, changed := AppendNew(old_, seen, resources);
  }

  method AppendNew(old_: seq<Node>, before: set<string>, resources: seq<string>) returns (items: seq<Node>, changed: bool)
    ensures items == old_ + Scalars(Fresh(before, resources))
    ensures changed <==> Fresh(before, resources) != []
  {
    items, changed := old_, false;
    var seen := before;
    ghost var added: seq<string> := [];
    for i := 0 to |resources|
      invariant added == Fresh(before, resources[..i])
      invariant items == old_ + Scalars(added)
      invariant changed <==> added != []
      invariant seen == before + ElementsOf(added)
    {
      FreshNext(before, resources, i);
      if resources[i] !in seen {
        OneMore(old_, added, resources[i]);
        items := items + [Scalar(resources[i])];
        seen := seen + {resources[i]};
        added := added + [resources[i]];
        changed := true;
      }
    }
    assert resources[..|resources|] == resources;
  }

  lemma FreshNext(seen: set<string>, resources: seq<string>, i: nat)
    requires i < |resources|
    ensures var before := Fresh(seen, resources[..i]);
      Fresh(seen, resources[..i + 1]) == if resources[i] in seen || resources[i] in before then before else before + [resources[i]]
  {
    assert resources[..i + 1][..i] == resources[..i];
  }

  lemma OneMore(items: seq<Node>, values: seq<string>, value: string)
    ensures items + Scalars(values + [value]) == items + Scalars(values) + [Scalar(value)]
    ensures ElementsOf(values + [value]) == ElementsOf(values) + {value}
  {
    var all := values + [value];
    assert all[..|all| - 1] == values;
    ElementsNext(all);
  }

  lemma {:induction false} NewRootLists(resources: seq<string>)
    requires Names(resources)
    ensures var pairs := NewRoot(resources).pairs;
      && ResourcesOf(pairs) == Sequence(Scalars(resources))
      && Fresh(Seen(Scalars(resources)), resources) == []
  {
    var pairs := NewRoot(resources).pairs;
    assert |RESOURCES| == 9 && |ValueOf(pairs[0].key)| == 10 && |ValueOf(pairs[1].key)| == 4;
    assert Find(pairs[1..][1..], RESOURCES) == Some(Sequence(Scalars(resources)));
    assert Find(pairs[1..], RESOURCES) == Some(Sequence(Scalars(resources)));
    SeenMore([], resources);
    assert [] + Scalars(resources) == Scalars(resources);
    NothingFresh(Seen(Scalars(resources)), resources);
  }

  /** Preparing again what a preparation wrote reports no change. */
  lemma {:induction false} PreparedIsSettled(codec: Codec, reading: Reading, resources: seq<string>)
    requires RoundTrips(codec) && Names(resources)
    requires Preparation(codec, reading, resources).Rewrite?
    ensures Preparation(codec, Contents(Preparation(codec, reading, resources).data), resources) == Unchanged
  {
    if reading.NotFound? {
      assert NewReadsBack(codec, resources);
      NewRootLists(resources);
    } else {
      assert ReadsBack(codec, reading.data, resources);
      var pairs := codec.parse(reading.data).root.pairs;
      var items := ResourcesOf(pairs).items;
      PutThenFind(pairs, RESOURCES, Sequence(Extended(items, resources)), RESOURCES);
      ExtendedListsAll(items, resources);
      assert ResourcesOf(Merged(pairs, resources).pairs) == Sequence(Extended(items, resources));
    }
  }

  lemma {:induction false} FreshSplits(seen: set<string>, a: seq<string>, b: seq<string>)
    ensures Fresh(seen, a + b) == Fresh(seen, a) + Fresh(seen + ElementsOf(Fresh(seen, a)), b)
    decreases |b|
  {
    if b == [] {
      assert a + b == a;
    } else {
      var n := |b| - 1;
      FreshSplits(seen, a, b[..n]);
      assert (a + b)[..|a + b| - 1] == a + b[..n];
    }
  }

  lemma {:induction false} ScalarsSplit(items: seq<Node>, a: seq<string>, b: seq<string>)
    ensures items + Scalars(a + b) == items + Scalars(a) + Scalars(b)
    decreases |b|
  {
    if b == [] {
      assert a + b == a;
    } else {
      var n := |b| - 1;
      ScalarsSplit(items, a, b[..n]);
      var x := [Scalar(b[n])];
      assert (a + b)[..|a + b| - 1] == a + b[..n] && (a + b)[|a + b| - 1] == b[n];
      assert items + (Scalars(a + b[..n]) + x) == items + Scalars(a + b[..n]) + x;
      assert items + Scalars(a) + (Scalars(b[..n]) + x) == items + Scalars(a) + Scalars(b[..n]) + x;
    }
  }

  /** Merging two lists one after the other is merging their concatenation. */
  lemma {:induction false} ExtendedTwice(items: seq<Node>, a: seq<string>, b: seq<string>)
    requires Names(a)
    ensures Extended(Extended(items, a), b) == Extended(items, a + b)
  {
    var first := Fresh(Seen(items), a);
    FreshNames(Seen(items), a);
    SeenMore(items, first);
    FreshSplits(Seen(items), a, b);
    ScalarsSplit(items, first, Fresh(Seen(items) + ElementsOf(first), b));
  }
}
