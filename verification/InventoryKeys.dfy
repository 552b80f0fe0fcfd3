/** When nodes share a key, and what the inventory loses by it. */
module InventoryKeys {
  import opened Text
  import opened Inventory
  import opened InventoryLaws

  // ---------- Which keys are shared ----------

  function Nuls(s: string): nat {
    if s == [] then 0 else Nuls(s[..|s| - 1]) + if s[|s| - 1] == '\0' then 1 else 0
  }

  lemma {:induction false} NulsConcat(a: string, b: string)
    ensures Nuls(a + b) == Nuls(a) + Nuls(b)
    decreases |b|
  {
    if b == [] {
      assert a + b == a;
    } else {
      assert (a + b)[..|a + b| - 1] == a + b[..|b| - 1];
      NulsConcat(a, b[..|b| - 1]);
    }
  }

  lemma {:induction false} NoNuls(s: string)
    ensures Nuls(s) == 0 <==> '\0' !in s
  {
    if s != [] {
      NoNuls(s[..|s| - 1]);
      assert s == s[..|s| - 1] + [s[|s| - 1]];
    }
  }

  lemma OneNul()
    ensures Nuls(['\0']) == 1
  {
    assert ['\0'][..0] == [];
  }

  /** A key has the three separators, and the NULs of its fields. */
  lemma {:induction false} KeyNuls(n: Node)
    ensures Nuls(Key(n)) == 3 + Nuls(n.role) + Nuls(n.name) + Nuls(n.internalIP) + Nuls(n.externalIP)
    ensures Nuls(Key(n)) == 3 <==> Free4(n)
  {
    OneNul();
    NulsConcat(n.role, ['\0']);
    NulsConcat(n.role + ['\0'], n.name);
    NulsConcat(n.role + ['\0'] + n.name, ['\0']);
    NulsConcat(n.role + ['\0'] + n.name + ['\0'], n.internalIP);
    NulsConcat(n.role + ['\0'] + n.name + ['\0'] + n.internalIP, ['\0']);
    NulsConcat(n.role + ['\0'] + n.name + ['\0'] + n.internalIP + ['\0'], n.externalIP);
    NoNuls(n.role);
    NoNuls(n.name);
    NoNuls(n.internalIP);
    NoNuls(n.externalIP);
  }

  /** A node that reads a NUL of a field as a separator, and a separator beside it as part of a field. */
  function Shifted(n: Node): Node {
    var r, m, i, e := IndexOf(n.role, '\0'), IndexOf(n.name, '\0'), IndexOf(n.internalIP, '\0'), IndexOf(n.externalIP, '\0');
    if r < |n.role| then n.(role := n.role[..r], name := n.role[r + 1..] + ['\0'] + n.name)
    else if m < |n.name| then n.(name := n.name[..m], internalIP := n.name[m + 1..] + ['\0'] + n.internalIP)
    else if i < |n.internalIP| then n.(internalIP := n.internalIP[..i], externalIP := n.internalIP[i + 1..] + ['\0'] + n.externalIP)
    else if e < |n.externalIP| then n.(internalIP := n.internalIP + ['\0'] + n.externalIP[..e], externalIP := n.externalIP[e + 1..])
    else n
  }

  lemma CutAt(s: string, i: nat)
    requires i < |s| && s[i] == '\0'
    ensures s == s[..i] + ['\0'] + s[i + 1..]
  {
  }

  lemma FoundNul(s: string)
    ensures IndexOf(s, '\0') < |s| <==> '\0' in s
  {
    if IndexOf(s, '\0') == |s| {
      assert s[..|s|] == s;
    }
  }

  lemma {:induction false} ShiftedSharesKey(n: Node)
    requires !Free4(n)
    ensures Key(Shifted(n)) == Key(n) && !Alike(Shifted(n), n)
    ensures '\0' !in n.role ==> Shifted(n).role == n.role
  {
    FoundNul(n.role);
    FoundNul(n.name);
    FoundNul(n.internalIP);
    FoundNul(n.externalIP);
    var r, m, i, e := IndexOf(n.role, '\0'), IndexOf(n.name, '\0'), IndexOf(n.internalIP, '\0'), IndexOf(n.externalIP, '\0');
    if r < |n.role| {
      CutAt(n.role, r);
      Regroup(n.role[..r], n.role[r + 1..], n.name, n.internalIP, n.externalIP);
    } else if m < |n.name| {
      CutAt(n.name, m);
      Regroup2(n.role, n.name[..m], n.name[m + 1..], n.internalIP, n.externalIP);
    } else if i < |n.internalIP| {
      CutAt(n.internalIP, i);
      Regroup3(n.role, n.name, n.internalIP[..i], n.internalIP[i + 1..], n.externalIP);
    } else {
      CutAt(n.externalIP, e);
      Regroup4(n.role, n.name, n.internalIP, n.externalIP[..e], n.externalIP[e + 1..]);
    }
  }

  lemma Regroup(a: string, b: string, c: string, d: string, e: string)
    ensures a + ['\0'] + (b + ['\0'] + c) + ['\0'] + d + ['\0'] + e == (a + ['\0'] + b) + ['\0'] + c + ['\0'] + d + ['\0'] + e
  {
  }

  lemma Regroup2(a: string, b: string, c: string, d: string, e: string)
    ensures a + ['\0'] + b + ['\0'] + (c + ['\0'] + d) + ['\0'] + e == a + ['\0'] + (b + ['\0'] + c) + ['\0'] + d + ['\0'] + e
  {
  }

  lemma Regroup3(a: string, b: string, c: string, d: string, e: string)
    ensures a + ['\0'] + b + ['\0'] + c + ['\0'] + (d + ['\0'] + e) == a + ['\0'] + b + ['\0'] + (c + ['\0'] + d) + ['\0'] + e
  {
  }

  lemma Regroup4(a: string, b: string, c: string, d: string, e: string)
    ensures a + ['\0'] + b + ['\0'] + (c + ['\0'] + d) + ['\0'] + e == a + ['\0'] + b + ['\0'] + c + ['\0'] + (d + ['\0'] + e)
  {
  }

  /** A key tells a node from every other one exactly if no field of the node holds NUL; and the same
      among nodes of its role. */
  lemma {:induction false} KeyTellsApartIff(n: Node)
    ensures Free4(n) <==> forall m: Node :: Key(m) == Key(n) ==> Alike(m, n)
    ensures '\0' !in n.role ==> (Free4(n) <==> forall m: Node :: m.role == n.role && Key(m) == Key(n) ==> Alike(m, n))
  {
    if Free4(n) {
      forall m | Key(m) == Key(n) ensures Alike(m, n) {
        KeyNuls(m);
        KeyNuls(n);
        KeyIsInjective(m, n);
      }
    } else {
      ShiftedSharesKey(n);
    }
  }

  // ---------- What is lost ----------

  /** Two unlike nodes of a list share a key. */
  predicate Collides(nodes: seq<Node>) {
    exists i, j :: 0 <= i < j < |nodes| && Clash(nodes[i], nodes[j])
  }

  predicate Clash(m: Node, n: Node) {
    Key(m) == Key(n) && !Alike(m, n)
  }

  ghost predicate Sourced(nodes: seq<Node>) {
    forall i :: 0 <= i < |nodes| ==> nodes[i].source != ""
  }

  lemma {:induction false} ListedSourced(nodes: seq<Node>, key: string)
    requires Sourced(nodes)
    ensures Inventory.Listed(AddAll([], nodes), key) <==> Inventory.Listed(nodes, key)
    decreases |nodes|
  {
    if nodes != [] {
      var n := |nodes| - 1;
      ListedSourced(nodes[..n], key);
      ListedSourced(nodes[..n], Key(nodes[n]));
      ListedNext(nodes, key);
      AddLists(AddAll([], nodes[..n]), nodes[n], key);
    }
  }

  /** Deduplicating by key never keeps more than the first occurrences, and fewer when keys collide. */
  ghost predicate Fewer(nodes: seq<Node>) {
    && |AddAll([], nodes)| <= |Firsts(nodes)|
    && (Collides(nodes) ==> |AddAll([], nodes)| < |Firsts(nodes)|)
    && (!Collides(nodes) ==> AddAll([], nodes) == Firsts(nodes))
  }

  lemma {:induction false} AddedAreFewer(nodes: seq<Node>)
    requires Sourced(nodes)
    ensures Fewer(nodes)
    decreases |nodes|
  {
    if nodes != [] {
      AddedAreFewer(nodes[..|nodes| - 1]);
      FewerNext(nodes);
    }
  }

  lemma {:induction false} FewerNext(nodes: seq<Node>)
    requires Sourced(nodes) && nodes != [] && Fewer(nodes[..|nodes| - 1])
    ensures Fewer(nodes)
  {
    var before, last := nodes[..|nodes| - 1], nodes[|nodes| - 1];
    ListedSourced(before, Key(last));
    CollidesNext(nodes);
    MetIsListed(before, last);
    AddedNext(nodes);
  }

  lemma AddedNext(nodes: seq<Node>)
    requires Sourced(nodes) && nodes != []
    ensures var before, last := nodes[..|nodes| - 1], nodes[|nodes| - 1];
      && AddAll([], nodes) == (if Inventory.Listed(AddAll([], before), Key(last)) then AddAll([], before) else AddAll([], before) + [last])
      && Firsts(nodes) == (if MetBefore(before, last) then Firsts(before) else Firsts(before) + [last])
  {
  }

  lemma CollidesNext(nodes: seq<Node>)
    requires nodes != []
    ensures var n := |nodes| - 1;
      Collides(nodes) <==> Collides(nodes[..n]) || exists i :: 0 <= i < n && Clash(nodes[i], nodes[n])
  {
    var before := nodes[..|nodes| - 1];
    assert forall i :: 0 <= i < |before| ==> before[i] == nodes[i];
    if Collides(before) {
      var i, j :| 0 <= i < j < |before| && Clash(before[i], before[j]);
      assert Clash(nodes[i], nodes[j]);
    }
    if Collides(nodes) {
      var i, j :| 0 <= i < j < |nodes| && Clash(nodes[i], nodes[j]);
      assert j < |before| ==> Clash(before[i], before[j]);
    }
  }

  /** A node met before is listed by its key; one listed and not met before clashes with another; and
      one met before clashes only where a clash was before. */
  lemma {:induction false} MetIsListed(nodes: seq<Node>, n: Node)
    ensures MetBefore(nodes, n) ==> Inventory.Listed(nodes, Key(n))
    ensures Inventory.Listed(nodes, Key(n)) && !MetBefore(nodes, n) ==> exists i :: 0 <= i < |nodes| && Clash(nodes[i], n)
    ensures MetBefore(nodes, n) && (exists i :: 0 <= i < |nodes| && Clash(nodes[i], n)) ==> Collides(nodes)
  {
    if MetBefore(nodes, n) {
      var k :| 0 <= k < |nodes| && Alike(nodes[k], n);
      assert Key(nodes[k]) == Key(n);
      if i :| 0 <= i < |nodes| && Clash(nodes[i], n) {
        assert Clash(nodes[i], nodes[k]) && Clash(nodes[k], nodes[i]);
        assert i < k || k < i;
      }
    } else if Inventory.Listed(nodes, Key(n)) {
      var i :| 0 <= i < |nodes| && Key(nodes[i]) == Key(n);
      assert Clash(nodes[i], n);
    }
  }

  // ---------- Every node has a source ----------

  lemma SourcedConcat(a: seq<Node>, b: seq<Node>)
    requires Sourced(a) && Sourced(b)
    ensures Sourced(a + b)
  {
  }

  lemma {:induction false} NodesAreSourced(raw: Json, role: string)
    ensures Sourced(NodesFrom(raw, role))
    decreases raw, 1, 0
  {
    match raw {
      case Arr(items) => ItemsAreSourced(raw, role, |items|);
      case Obj(fields) =>
        if !LooksLikeNode(fields) {
          var keys := SortedKeys(fields.Keys);
          KeysAreSourced(raw, keys, role, |keys|);
        }
      case _ =>
    }
  }

  lemma {:induction false} ItemsAreSourced(raw: Json, role: string, n: nat)
    requires raw.Arr? && n <= |raw.items|
    ensures Sourced(ItemNodes(raw, role, n))
    decreases raw, 0, n
  {
    if n > 0 {
      ItemsAreSourced(raw, role, n - 1);
      NodesAreSourced(raw.items[n - 1], role);
      SourcedConcat(ItemNodes(raw, role, n - 1), NodesFrom(raw.items[n - 1], role));
    }
  }

  lemma {:induction false} KeysAreSourced(raw: Json, keys: seq<string>, role: string, n: nat)
    requires raw.Obj? && n <= |keys| && forall k :: k in keys ==> k in raw.fields
    ensures Sourced(KeyNodes(raw, keys, role, n))
    decreases raw, 0, n
  {
    if n > 0 {
      KeysAreSourced(raw, keys, role, n - 1);
      NodesAreSourced(raw.fields[keys[n - 1]], role);
      SourcedConcat(KeyNodes(raw, keys, role, n - 1), NodesFrom(raw.fields[keys[n - 1]], role));
    }
  }

  lemma {:induction false} SourcedNodesOf(v: Values)
    ensures Sourced(NodesOf(v))
  {
    NodesAreSourced(TerraformValue(Field(v, "master_nodes")), CONTROLLER);
    NodesAreSourced(TerraformValue(Field(v, "worker_nodes")), WORKER);
    NodesAreSourced(TerraformValue(Field(v, "windows_nodes")), WINDOWS);
    NodesAreSourced(TerraformValue(Field(v, "additional_worker_pools_nodes")), WORKER);
    NodesAreSourced(TerraformValue(Field(v, "additional_worker_pools_windows_nodes")), WINDOWS);
  }

  lemma {:induction false} SourcedMet(visits: seq<Values>)
    ensures Sourced(Met(visits))
    decreases |visits|
  {
    if visits != [] {
      var n := |visits| - 1;
      SourcedMet(visits[..n]);
      SourcedNodesOf(visits[n]);
      SourcedConcat(Met(visits[..n]), NodesOf(visits[n]));
    }
  }

  /** Over any state the list is the traversal's nodes, each at its first occurrence, exactly if no two
      unlike nodes met share a key; otherwise it is shorter. */
  lemma {:induction false} NodesAreFirstsIff(visits: seq<Values>)
    ensures var nodes, firsts := MergeAll(NOTHING, visits).nodes, Firsts(Met(visits));
      && (nodes == firsts <==> !Collides(Met(visits)))
      && (Collides(Met(visits)) <==> |nodes| < |firsts|)
  {
    NodesAreMet(NOTHING, visits);
    SourcedMet(visits);
    AddedAreFewer(Met(visits));
  }

  // ---------- A state that loses a node ----------

  function NodeObject(name: string, ip: string): Values {
    map["name" := Str(name), "access_ip_v4" := Str(ip)]
  }

  /** A state's values with two controllers. */
  function TwoControllers(name: string, ip: string, name': string, ip': string): Values {
    map["master_nodes" := Arr([Obj(NodeObject(name, ip)), Obj(NodeObject(name', ip'))])]
  }

  predicate Trimmed(s: string) {
    s != "" && TrimSpace(s) == s
  }

  function Controller(name: string, ip: string): Node {
    Node(name, CONTROLLER, ip, "", STATE)
  }

  lemma FirstGiven(v: Values, keys: seq<string>, s: string)
    requires keys != [] && Field(v, keys[0]) == Str(s) && Trimmed(s)
    ensures FirstString(v, keys) == s
  {
  }

  lemma {:induction false} NoneGiven(v: Values, keys: seq<string>)
    requires forall i :: 0 <= i < |keys| ==> keys[i] !in v
    ensures FirstString(v, keys) == ""
  {
    if keys != [] {
      NoneGiven(v, keys[1..]);
    }
  }

  lemma {:induction false} NodeOfObject(name: string, ip: string)
    requires Trimmed(name) && Trimmed(ip)
    ensures NodesFrom(Obj(NodeObject(name, ip)), CONTROLLER) == [Controller(name, ip)]
  {
    var v := NodeObject(name, ip);
    assert NAME_KEYS[0] == "name" && INTERNAL_KEYS[0] == "access_ip_v4";
    assert |"name"| == 4 && |"access_ip_v4"| == 12;
    FirstGiven(v, NAME_KEYS, name);
    FirstGiven(v, INTERNAL_KEYS, ip);
    assert forall i :: 0 <= i < |EXTERNAL_KEYS| ==> |EXTERNAL_KEYS[i]| == 11 || |EXTERNAL_KEYS[i]| == 9;
    NoneGiven(v, EXTERNAL_KEYS);
    assert LooksLikeNode(v);
  }

  lemma {:induction false} NodesOfTwo(name: string, ip: string, name': string, ip': string)
    requires Trimmed(name) && Trimmed(ip) && Trimmed(name') && Trimmed(ip')
    ensures NodesOf(TwoControllers(name, ip, name', ip')) == [Controller(name, ip), Controller(name', ip')]
  {
    var v := TwoControllers(name, ip, name', ip');
    var raw := v["master_nodes"];
    NodeOfObject(name, ip);
    NodeOfObject(name', ip');
    assert ItemNodes(raw, CONTROLLER, 1) == [Controller(name, ip)];
    assert NodesFrom(raw, CONTROLLER) == ItemNodes(raw, CONTROLLER, 2);
    MastersAlone(v, NodesFrom(raw, CONTROLLER));
  }

  lemma MastersAlone(v: Values, nodes: seq<Node>)
    requires v.Keys == {"master_nodes"} && v["master_nodes"].Arr? && nodes == NodesFrom(v["master_nodes"], CONTROLLER)
    ensures NodesOf(v) == nodes
  {
    OnlyMasters(v);
  }

  lemma OnlyMasters(v: Values)
    requires v.Keys == {"master_nodes"}
    ensures Field(v, "worker_nodes") == Null && Field(v, "windows_nodes") == Null
    ensures Field(v, "additional_worker_pools_nodes") == Null && Field(v, "additional_worker_pools_windows_nodes") == Null
  {
    assert "master_nodes"[0] == 'm' && "worker_nodes"[0] == 'w' && "windows_nodes"[0] == 'w';
    assert "additional_worker_pools_nodes"[0] == 'a' && "additional_worker_pools_windows_nodes"[0] == 'a';
  }

  /** Two controllers whose name and address run together alike: the state has two nodes, the inventory
      one. */
  lemma {:induction false} StateLosesNode(name: string, ip: string, name': string, ip': string)
    requires Trimmed(name) && Trimmed(ip) && Trimmed(name') && Trimmed(ip')
    requires name + ['\0'] + ip == name' + ['\0'] + ip' && name != name'
    ensures var v := TwoControllers(name, ip, name', ip');
      && Met([v]) == [Controller(name, ip), Controller(name', ip')] == Firsts(Met([v]))
      && MergeAll(NOTHING, [v]).nodes == [Controller(name, ip)]
  {
    var v := TwoControllers(name, ip, name', ip');
    var m, n := Controller(name, ip), Controller(name', ip');
    NodesOfTwo(name, ip, name', ip');
    assert [v][..0] == [] && Met([v]) == [] + NodesOf(v);
    assert Met([v]) == [m, n];
    NodesAreMet(NOTHING, [v]);
    SameKey(name, ip, name', ip');
    TwoWithOneKey(m, n);
  }

  lemma {:induction false} TwoWithOneKey(m: Node, n: Node)
    requires Clash(m, n) && m.source != "" && n.source != ""
    ensures AddAll([], [m, n]) == [m] && Firsts([m, n]) == [m, n]
  {
    assert [m, n][..1] == [m] && [m][..0] == [];
    assert AddAll([], [m]) == [m] && Firsts([m]) == [m];
    assert Inventory.Listed([m], Key(n)) by {
      assert Key([m][0]) == Key(n);
    }
    assert !MetBefore([m], n);
  }

  lemma SameKey(name: string, ip: string, name': string, ip': string)
    requires name + ['\0'] + ip == name' + ['\0'] + ip'
    ensures Key(Controller(name, ip)) == Key(Controller(name', ip'))
  {
    assert Key(Controller(name, ip)) == CONTROLLER + ['\0'] + (name + ['\0'] + ip) + ['\0'] + "";
    assert Key(Controller(name', ip')) == CONTROLLER + ['\0'] + (name' + ['\0'] + ip') + ['\0'] + "";
  }

  /** Such are, for any name and address, the pairs that put a NUL on either side of the separator. */
  lemma {:induction false} NulMakesKeysCollide(name: string, ip: string)
    requires Trimmed(name) && Trimmed(ip)
    ensures var v := TwoControllers(name, ['\0'] + ip, name + ['\0'], ip);
      && Met([v]) == [Controller(name, ['\0'] + ip), Controller(name + ['\0'], ip)]
      && MergeAll(NOTHING, [v]).nodes == [Controller(name, ['\0'] + ip)]
  {
    Ends(name);
    Ends(ip);
    NotSpaced(['\0'] + ip);
    NotSpaced(name + ['\0']);
    assert name + ['\0'] + (['\0'] + ip) == (name + ['\0']) + ['\0'] + ip;
    assert |name| != |name + ['\0']|;
    StateLosesNode(name, ['\0'] + ip, name + ['\0'], ip);
  }

  lemma Ends(s: string)
    requires Trimmed(s)
    ensures !IsSpace(s[0]) && !IsSpace(s[|s| - 1]) && !IsSpace('\0')
  {
    assert TrimRight(TrimLeft(s)) <= TrimLeft(s);
  }

  lemma NotSpaced(s: string)
    requires s != "" && !IsSpace(s[0]) && !IsSpace(s[|s| - 1])
    ensures Trimmed(s)
  {
  }
}
