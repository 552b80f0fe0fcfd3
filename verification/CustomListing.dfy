/** What the kustomizations beside the moved files say after a custom overlay migration. */
module CustomListing {
  import opened Text
  import opened CustomMigration
  import opened CustomApply
  import opened CustomRun
  import opened CustomLaws
  import opened CustomChoice
  import K = Kustomization

  /** The document is a mapping whose first resources list has an entry that names the file. */
  ghost predicate Lists(d: K.Document, name: string) {
    && d.Doc? && d.root.Mapping?
    && exists j :: 0 <= j < |d.root.pairs| && ListsAt(d.root.pairs, name, j)
  }

  ghost predicate ListsAt(pairs: seq<K.Pair>, name: string, j: nat)
    requires j < |pairs|
  {
    && K.ValueOf(pairs[j].key) == "resources" && K.Lacks(pairs, "resources", j)
    && pairs[j].value.Sequence? && exists n :: n in pairs[j].value.items && Names(n, name)
  }

  predicate Names(n: K.Node, name: string) {
    n.Scalar? && K.Named(n.value) == name
  }

  lemma {:induction false} SeenIff(items: seq<K.Node>, name: string)
    ensures name in K.Seen(items) <==> exists n :: n in items && Names(n, name)
    decreases |items|
  {
    if items != [] {
      var k := |items| - 1;
      SeenIff(items[..k], name);
      assert items == items[..k] + [items[k]];
      assert name in K.Seen(items) <==> name in K.Seen(items[..k]) || Names(items[k], name);
      assert (exists n :: n in items && Names(n, name)) <==> (exists n :: n in items[..k] && Names(n, name)) || Names(items[k], name);
    }
  }

  lemma {:induction false} FoundAt(pairs: seq<K.Pair>, key: string) returns (j: nat)
    requires K.Find(pairs, key).Some?
    ensures j < |pairs| && K.ValueOf(pairs[j].key) == key && K.Lacks(pairs, key, j)
    ensures K.Find(pairs, key) == Some(pairs[j].value)
  {
    if K.ValueOf(pairs[0].key) == key {
      return 0;
    }
    var i := FoundAt(pairs[1..], key);
    return i + 1;
  }

  lemma {:induction false} SeenIsListed(d: K.Document, name: string)
    requires K.Mergeable(d) && name in K.Seen(K.ResourcesOf(d.root.pairs).items)
    ensures Lists(d, name)
  {
    SeenIff(K.ResourcesOf(d.root.pairs).items, name);
    var j := FoundAt(d.root.pairs, K.RESOURCES);
    assert ListsAt(d.root.pairs, name, j);
  }

  lemma {:induction false} ResourcesHave(moves: seq<Move>, c: Move)
    requires c in moves
    ensures Last(c.to) in Resources(moves, KustomizationOf(c))
    decreases |moves|
  {
    var n := |moves| - 1;
    if c != moves[n] {
      assert c in moves[..n];
      ResourcesHave(moves[..n], c);
    }
  }

  lemma SettledLists(codec: K.Codec, reading: K.Reading, resources: seq<string>, name: string)
    requires K.Preparation(codec, reading, resources) == K.Unchanged && name in resources
    ensures reading.Contents? && Lists(codec.parse(reading.data), name)
  {
    var d := codec.parse(reading.data);
    K.NothingFresh(K.Seen(K.ResourcesOf(d.root.pairs).items), resources);
    SeenIsListed(d, name);
  }

  lemma {:induction false} NameOfMove(fs: FS, c: Move)
    requires Good(fs, c)
    ensures |c.from| >= 3 && KustomizationOf(c) == Home(c.from) + ["kustomization.yaml"] && Last(c.to) == c.from[|c.from| - 1]
  {
    PlaceIs(c.from);
  }

  /** After a run the kustomization beside every moved file can be read, and lists it. */
  lemma {:induction false} MovedFileIsListed(codec: K.Codec, fs: FS, moves: seq<Move>, updates: map<Path, string>, c: Move)
    requires K.RoundTrips(codec) && Ready(fs, moves) && Rewrites(codec, fs, moves, updates) && c in moves
    ensures |c.from| >= 3
    ensures var r := Reading(After(fs, moves, updates), Home(c.from) + ["kustomization.yaml"]);
      r.Contents? && Lists(codec.parse(r.data), c.from[|c.from| - 1])
  {
    assert c in Elements(moves) && Good(fs, c);
    NameOfMove(fs, c);
    var k := KustomizationOf(c);
    KustomizationsSettle(codec, fs, moves, updates, k);
    ResourcesHave(moves, c);
    SettledLists(codec, Reading(After(fs, moves, updates), k), Resources(moves, k), Last(c.to));
  }

  /** A rewritten kustomization keeps its other keys, and the old entries of its list come first. */
  lemma {:induction false} RewrittenKeeps(codec: K.Codec, data: string, resources: seq<string>, now: string, key: string)
    requires K.RoundTrips(codec) && K.Names(resources)
    requires K.Preparation(codec, K.Contents(data), resources) == K.Rewrite(now)
    ensures K.Mergeable(codec.parse(data)) && K.Mergeable(codec.parse(now))
    ensures var before, after := codec.parse(data).root.pairs, codec.parse(now).root.pairs;
      && (key != "resources" ==> K.Find(after, key) == K.Find(before, key))
      && K.ResourcesOf(before).items <= K.ResourcesOf(after).items
  {
    var before := codec.parse(data).root.pairs;
    assert K.ReadsBack(codec, data, resources);
    var list := K.Sequence(K.Extended(K.ResourcesOf(before).items, resources));
    K.PutThenFind(before, K.RESOURCES, list, key);
    K.PutThenFind(before, K.RESOURCES, list, K.RESOURCES);
  }

  /** A kustomization is refused exactly if it cannot be read, holds no mapping, or has something other
      than a list for its first resources. */
  lemma {:induction false} RefusedIff(codec: K.Codec, reading: K.Reading, resources: seq<string>)
    ensures K.Preparation(codec, reading, resources) == K.Refused <==>
            || reading.Unreadable?
            || (reading.Contents? && !HoldsList(codec.parse(reading.data)))
  {
    if reading.Contents? {
      var d := codec.parse(reading.data);
      if d.Doc? && d.root.Mapping? {
        if K.Find(d.root.pairs, K.RESOURCES).Some? {
          var j := FoundAt(d.root.pairs, K.RESOURCES);
        } else {
          NotFoundAt(d.root.pairs, K.RESOURCES);
        }
      }
    }
  }

  ghost predicate HoldsList(d: K.Document) {
    && d.Doc? && d.root.Mapping?
    && forall j :: 0 <= j < |d.root.pairs| && IsFirst(d.root.pairs, "resources", j) ==> d.root.pairs[j].value.Sequence?
  }

  ghost predicate IsFirst(pairs: seq<K.Pair>, key: string, j: nat)
    requires j < |pairs|
  {
    K.ValueOf(pairs[j].key) == key && K.Lacks(pairs, key, j)
  }

  lemma {:induction false} NotFoundAt(pairs: seq<K.Pair>, key: string)
    requires K.Find(pairs, key).None?
    ensures forall j :: 0 <= j < |pairs| ==> K.ValueOf(pairs[j].key) != key
  {
    if pairs != [] {
      NotFoundAt(pairs[1..], key);
      assert forall j :: 0 < j < |pairs| ==> pairs[j] == pairs[1..][j - 1];
    }
  }

  /** A new kustomization is of the right kind and lists the files, in order. */
  lemma {:induction false} NewSays(resources: seq<string>)
    ensures var root := K.NewRoot(resources);
      && root.Mapping? && |root.pairs| == 3
      && root.pairs[0] == K.Pair(K.Scalar("apiVersion"), K.Scalar("kustomize.config.k8s.io/v1beta1"))
      && root.pairs[1] == K.Pair(K.Scalar("kind"), K.Scalar("Kustomization"))
      && root.pairs[2].key == K.Scalar("resources") && root.pairs[2].value.Sequence?
      && |root.pairs[2].value.items| == |resources|
      && forall i :: 0 <= i < |resources| ==> root.pairs[2].value.items[i] == K.Scalar(resources[i])
  {
    ScalarsAre(resources);
  }

  lemma {:induction false} ScalarsAre(values: seq<string>)
    ensures |K.Scalars(values)| == |values| && forall i :: 0 <= i < |values| ==> K.Scalars(values)[i] == K.Scalar(values[i])
    decreases |values|
  {
    if values != [] {
      ScalarsAre(values[..|values| - 1]);
    }
  }
}
