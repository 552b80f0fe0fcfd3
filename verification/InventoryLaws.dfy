/** What an extracted inventory holds: each node once, in the order first met, and each network field
    the first value that is not blank. */
module InventoryLaws {
  import opened Text
  import opened StringOrder
  import opened Inventory

  // ---------- Keys ----------

  predicate Free4(n: Node) {
    '\0' !in n.role && '\0' !in n.name && '\0' !in n.internalIP && '\0' !in n.externalIP
  }

  predicate Alike(m: Node, n: Node) {
    m.role == n.role && m.name == n.name && m.internalIP == n.internalIP && m.externalIP == n.externalIP
  }

  lemma KeyIsJoin(n: Node)
    ensures Key(n) == Join([n.role, n.name, n.internalIP, n.externalIP], '\0')
  {
    var parts := [n.role, n.name, n.internalIP, n.externalIP];
    assert parts[1..] == [n.name, n.internalIP, n.externalIP];
    assert parts[1..][1..] == [n.internalIP, n.externalIP];
    assert parts[1..][1..][1..] == [n.externalIP];
    assert Join(parts[1..][1..], '\0') == n.internalIP + ['\0'] + n.externalIP;
    assert Join(parts[1..], '\0') == n.name + ['\0'] + (n.internalIP + ['\0'] + n.externalIP);
    assert Join(parts, '\0') == n.role + ['\0'] + (n.name + ['\0'] + (n.internalIP + ['\0'] + n.externalIP));
  }

  /** Without NUL characters the key tells nodes apart. */
  lemma {:induction false} KeyIsInjective(m: Node, n: Node)
    requires Free4(m) && Free4(n)
    ensures Key(m) == Key(n) <==> Alike(m, n)
  {
    if Key(m) == Key(n) {
      var p, q := [m.role, m.name, m.internalIP, m.externalIP], [n.role, n.name, n.internalIP, n.externalIP];
      KeyIsJoin(m);
      KeyIsJoin(n);
      SplitJoin(p, '\0');
      SplitJoin(q, '\0');
      assert p[0] == q[0] && p[1] == q[1] && p[2] == q[2] && p[3] == q[3];
    }
  }

  // ---------- Each node once ----------

  ghost predicate NoTwoAlike(nodes: seq<Node>) {
    forall i, j :: 0 <= i < j < |nodes| ==> Key(nodes[i]) != Key(nodes[j])
  }

  lemma {:induction false} AddAllKeepsDistinct(nodes: seq<Node>, more: seq<Node>)
    requires NoTwoAlike(nodes)
    ensures NoTwoAlike(AddAll(nodes, more))
    decreases |more|
  {
    if more != [] {
      AddAllKeepsDistinct(nodes, more[..|more| - 1]);
    }
  }

  /** The list never holds two nodes equal in role, name and both addresses, whatever was merged. */
  lemma {:induction false} NodesAreDistinct(visits: seq<Values>)
    ensures NoTwoAlike(MergeAll(NOTHING, visits).nodes)
    ensures forall i, j :: 0 <= i < j < |MergeAll(NOTHING, visits).nodes| ==> !Alike(MergeAll(NOTHING, visits).nodes[i], MergeAll(NOTHING, visits).nodes[j])
    decreases |visits|
  {
    if visits != [] {
      var n := |visits| - 1;
      NodesAreDistinct(visits[..n]);
      AddAllKeepsDistinct(MergeAll(NOTHING, visits[..n]).nodes, NodesOf(visits[n]));
    }
    NotAlike(MergeAll(NOTHING, visits).nodes);
  }

  lemma NotAlike(nodes: seq<Node>)
    requires NoTwoAlike(nodes)
    ensures forall i, j :: 0 <= i < j < |nodes| ==> !Alike(nodes[i], nodes[j])
  {
    forall i, j | 0 <= i < j < |nodes| ensures !Alike(nodes[i], nodes[j]) {
      assert Key(nodes[i]) != Key(nodes[j]);
    }
  }

  // ---------- In the order first met ----------

  /** All nodes met, in the order of the traversal. */
  ghost function Met(visits: seq<Values>): seq<Node> {
    if visits == [] then [] else Met(visits[..|visits| - 1]) + NodesOf(visits[|visits| - 1])
  }

  lemma {:induction false} NodesAreMet(f: Found, visits: seq<Values>)
    ensures MergeAll(f, visits).nodes == AddAll(f.nodes, Met(visits))
    decreases |visits|
  {
    if visits != [] {
      var n := |visits| - 1;
      NodesAreMet(f, visits[..n]);
      AddAllConcat(f.nodes, Met(visits[..n]), NodesOf(visits[n]));
    }
  }

  predicate MetBefore(nodes: seq<Node>, n: Node) {
    exists i :: 0 <= i < |nodes| && Alike(nodes[i], n)
  }

  /** The nodes unlike any before them. */
  function Firsts(nodes: seq<Node>): seq<Node> {
    if nodes == [] then []
    else
      var last, before := nodes[|nodes| - 1], nodes[..|nodes| - 1];
      Firsts(before) + if MetBefore(before, last) then [] else [last]
  }

  predicate Plain(n: Node) {
    Free4(n) && n.source != ""
  }

  ghost predicate AllPlain(nodes: seq<Node>) {
    forall i :: 0 <= i < |nodes| ==> Plain(nodes[i])
  }

  lemma {:induction false} ListedIffMet(nodes: seq<Node>, key: string)
    requires AllPlain(nodes)
    ensures Inventory.Listed(AddAll([], nodes), key) <==> Inventory.Listed(nodes, key)
    ensures AllPlain(AddAll([], nodes))
    decreases |nodes|
  {
    if nodes != [] {
      var n := |nodes| - 1;
      ListedIffMet(nodes[..n], key);
      ListedIffMet(nodes[..n], Key(nodes[n]));
      ListedNext(nodes, key);
      AddLists(AddAll([], nodes[..n]), nodes[n], key);
    }
  }

  lemma ListedNext(nodes: seq<Node>, key: string)
    requires nodes != []
    ensures var n := |nodes| - 1;
      Inventory.Listed(nodes, key) <==> Inventory.Listed(nodes[..n], key) || Key(nodes[n]) == key
  {
    var n := |nodes| - 1;
    assert forall i :: 0 <= i < n ==> nodes[..n][i] == nodes[i];
  }

  lemma AddLists(nodes: seq<Node>, n: Node, key: string)
    requires n.source != ""
    ensures Inventory.Listed(Add(nodes, n), key) <==> Inventory.Listed(nodes, key) || Key(n) == key
  {
    if !Inventory.Listed(nodes, Key(n)) {
      ListedNext(nodes + [n], key);
      assert (nodes + [n])[..|nodes|] == nodes;
    }
  }

  /** Deduplicating by key keeps exactly the first occurrences. */
  lemma {:induction false} AddedAreFirsts(nodes: seq<Node>)
    requires AllPlain(nodes)
    ensures AddAll([], nodes) == Firsts(nodes)
    decreases |nodes|
  {
    if nodes != [] {
      var n := |nodes| - 1;
      AddedAreFirsts(nodes[..n]);
      ListedIffMet(nodes[..n], Key(nodes[n]));
      MetIffListed(nodes[..n], nodes[n]);
    }
  }

  lemma MetIffListed(nodes: seq<Node>, n: Node)
    requires AllPlain(nodes) && Plain(n)
    ensures MetBefore(nodes, n) <==> Inventory.Listed(nodes, Key(n))
  {
    forall i | 0 <= i < |nodes| ensures Key(nodes[i]) == Key(n) <==> Alike(nodes[i], n) {
      assert Plain(nodes[i]);
      KeyIsInjective(nodes[i], n);
    }
  }

  // ---------- Values without NUL ----------

  ghost predicate NulFree(raw: Json)
    decreases raw
  {
    match raw
    case Str(s) => '\0' !in s
    case Arr(items) => forall i :: 0 <= i < |items| ==> NulFree(items[i])
    case Obj(fields) => forall k :: k in fields ==> NulFree(fields[k])
    case _ => true
  }

  lemma {:induction false} FirstIsFree(v: Values, keys: seq<string>)
    requires forall k :: k in v ==> NulFree(v[k])
    ensures '\0' !in FirstString(v, keys)
  {
    if keys != [] {
      var raw := Field(v, keys[0]);
      if raw.Str? {
        TrimLacks(raw.s, '\0');
      }
      FirstIsFree(v, keys[1..]);
    }
  }

  lemma {:induction false} PlainConcat(a: seq<Node>, b: seq<Node>)
    requires AllPlain(a) && AllPlain(b)
    ensures AllPlain(a + b)
  {
  }

  lemma {:induction false} OwnIsPlain(v: Values, role: string)
    requires (forall k :: k in v ==> NulFree(v[k])) && '\0' !in role
    ensures AllPlain(OwnNode(v, role))
  {
    FirstIsFree(v, NAME_KEYS);
    FirstIsFree(v, INTERNAL_KEYS);
    FirstIsFree(v, EXTERNAL_KEYS);
  }

  lemma {:induction false} NodesArePlain(raw: Json, role: string)
    requires NulFree(raw) && '\0' !in role
    ensures AllPlain(NodesFrom(raw, role))
    decreases raw, 1, 0
  {
    match raw {
      case Arr(items) => ItemsArePlain(raw, role, |items|);
      case Obj(fields) =>
        if LooksLikeNode(fields) {
          OwnIsPlain(fields, role);
        } else {
          var keys := SortedKeys(fields.Keys);
          KeysArePlain(raw, keys, role, |keys|);
        }
      case _ =>
    }
  }

  lemma {:induction false} ItemsArePlain(raw: Json, role: string, n: nat)
    requires raw.Arr? && n <= |raw.items| && NulFree(raw) && '\0' !in role
    ensures AllPlain(ItemNodes(raw, role, n))
    decreases raw, 0, n
  {
    if n > 0 {
      ItemsArePlain(raw, role, n - 1);
      NodesArePlain(raw.items[n - 1], role);
      PlainConcat(ItemNodes(raw, role, n - 1), NodesFrom(raw.items[n - 1], role));
    }
  }

  lemma {:induction false} KeysArePlain(raw: Json, keys: seq<string>, role: string, n: nat)
    requires raw.Obj? && n <= |keys| && (forall k :: k in keys ==> k in raw.fields) && NulFree(raw) && '\0' !in role
    ensures AllPlain(KeyNodes(raw, keys, role, n))
    decreases raw, 0, n
  {
    if n > 0 {
      KeysArePlain(raw, keys, role, n - 1);
      NodesArePlain(raw.fields[keys[n - 1]], role);
      PlainConcat(KeyNodes(raw, keys, role, n - 1), NodesFrom(raw.fields[keys[n - 1]], role));
    }
  }

  ghost predicate NulFreeValues(v: Values) {
    forall k :: k in v ==> NulFree(v[k])
  }

  ghost predicate AllFree(visits: seq<Values>) {
    forall i :: 0 <= i < |visits| ==> NulFreeValues(visits[i])
  }

  lemma FieldIsFree(v: Values, key: string)
    requires NulFreeValues(v)
    ensures NulFree(TerraformValue(Field(v, key)))
  {
  }

  lemma RolesAreFree()
    ensures '\0' !in CONTROLLER && '\0' !in WORKER && '\0' !in WINDOWS
  {
  }

  lemma PlainUnder(v: Values, key: string, role: string)
    requires NulFreeValues(v) && '\0' !in role
    ensures AllPlain(NodesFrom(TerraformValue(Field(v, key)), role))
  {
    FieldIsFree(v, key);
    NodesArePlain(TerraformValue(Field(v, key)), role);
  }

  lemma {:induction false} PlainNodesOf(v: Values)
    requires NulFreeValues(v)
    ensures AllPlain(NodesOf(v))
  {
    RolesAreFree();
    PlainUnder(v, "master_nodes", CONTROLLER);
    PlainUnder(v, "worker_nodes", WORKER);
    PlainUnder(v, "windows_nodes", WINDOWS);
    PlainUnder(v, "additional_worker_pools_nodes", WORKER);
    PlainUnder(v, "additional_worker_pools_windows_nodes", WINDOWS);
  }

  lemma {:induction false} PlainMet(visits: seq<Values>)
    requires AllFree(visits)
    ensures AllPlain(Met(visits))
    decreases |visits|
  {
    if visits != [] {
      var n := |visits| - 1;
      PlainMet(visits[..n]);
      PlainNodesOf(visits[n]);
      PlainConcat(Met(visits[..n]), NodesOf(visits[n]));
    }
  }

  lemma FreeConcat(a: seq<Values>, b: seq<Values>)
    requires AllFree(a) && AllFree(b)
    ensures AllFree(a + b)
  {
  }

  lemma {:induction false} FreeUnder(items: seq<Json>, key: string, n: nat)
    requires n <= |items| && forall i :: 0 <= i < |items| ==> NulFree(items[i])
    ensures AllFree(Under(items, key, n))
  {
    if n > 0 {
      FreeUnder(items, key, n - 1);
      assert NulFree(items[n - 1]);
    }
  }

  lemma {:induction false} FreeModule(m: Json)
    requires m.Obj? && NulFree(m)
    ensures AllFree(ModuleVisits(m))
    decreases m, 1, 0
  {
    var v := m.fields;
    if ObjAt(v, "root_module") {
      FreeModule(v["root_module"]);
    } else {
      var a := OneIf(v, "outputs");
      var b := if ArrAt(v, "resources") then Under(v["resources"].items, "values", |v["resources"].items|) else [];
      var c := if ArrAt(v, "child_modules") then ChildVisits(v["child_modules"], |v["child_modules"].items|) else [];
      if ArrAt(v, "resources") {
        FreeUnder(v["resources"].items, "values", |v["resources"].items|);
      }
      if ArrAt(v, "child_modules") {
        FreeChildren(v["child_modules"], |v["child_modules"].items|);
      }
      FreeConcat(a, b);
      FreeConcat(a + b, c);
    }
  }

  lemma {:induction false} FreeChildren(children: Json, n: nat)
    requires children.Arr? && n <= |children.items| && NulFree(children)
    ensures AllFree(ChildVisits(children, n))
    decreases children, 0, n
  {
    if n > 0 {
      FreeChildren(children, n - 1);
      var child := children.items[n - 1];
      if child.Obj? {
        FreeModule(child);
        FreeConcat(ChildVisits(children, n - 1), ModuleVisits(child));
      }
    }
  }

  lemma {:induction false} FreeInstances(resources: seq<Json>, n: nat)
    requires n <= |resources| && forall i :: 0 <= i < |resources| ==> NulFree(resources[i])
    ensures AllFree(InstanceVisits(resources, n))
  {
    if n > 0 {
      FreeInstances(resources, n - 1);
      var r := resources[n - 1];
      if r.Obj? && ArrAt(r.fields, "instances") {
        var instances := r.fields["instances"].items;
        FreeAttributes(r);
        FreeConcat(InstanceVisits(resources, n - 1), Under(instances, "attributes", |instances|));
      }
    }
  }

  lemma FreeAttributes(r: Json)
    requires NulFree(r) && r.Obj? && ArrAt(r.fields, "instances")
    ensures var instances := r.fields["instances"].items; AllFree(Under(instances, "attributes", |instances|))
  {
    var instances := r.fields["instances"].items;
    FreeUnder(instances, "attributes", |instances|);
  }

  lemma {:induction false} FreeState(state: Values)
    requires NulFreeValues(state)
    ensures AllFree(StateVisits(state))
  {
    var a := OneIf(state, "outputs");
    var b := if ObjAt(state, "values") then ModuleVisits(state["values"]) else [];
    var c := if ArrAt(state, "resources") then InstanceVisits(state["resources"].items, |state["resources"].items|) else [];
    if ObjAt(state, "values") {
      FreeModule(state["values"]);
    }
    if ArrAt(state, "resources") {
      FreeInstances(state["resources"].items, |state["resources"].items|);
    }
    FreeConcat(a, b);
    FreeConcat(a + b, c);
  }

  /** For values free of NUL the node list is the traversal's nodes, each at its first occurrence. */
  lemma {:induction false} NodesAreFirstOccurrences(visits: seq<Values>)
    requires AllFree(visits)
    ensures MergeAll(NOTHING, visits).nodes == Firsts(Met(visits))
  {
    NodesAreMet(NOTHING, visits);
    PlainMet(visits);
    AddedAreFirsts(Met(visits));
  }

  /** The nodes read from a state free of NUL: those of its traversal, each at its first occurrence. */
  lemma {:induction false} StateNodesAreFirstOccurrences(state: Values)
    requires NulFreeValues(state)
    ensures MergeAll(NOTHING, StateVisits(state)).nodes == Firsts(Met(StateVisits(state)))
  {
    FreeState(state);
    NodesAreFirstOccurrences(StateVisits(state));
  }

  // ---------- Network fields ----------

  function AllOffers(visits: seq<Values>, keys: seq<string>): seq<string> {
    if visits == [] then [] else AllOffers(visits[..|visits| - 1], keys) + Offers(visits[|visits| - 1], keys)
  }

  /** Each network field is the first offer that is not blank, over the whole traversal. */
  lemma {:induction false} FieldsAreFirst(visits: seq<Values>)
    ensures var f := MergeAll(NOTHING, visits);
      && f.apiVIP == FirstNonBlank(AllOffers(visits, API_KEYS))
      && f.internalVIP == FirstNonBlank(AllOffers(visits, VIP_KEYS))
      && f.bastion == FirstNonBlank(AllOffers(visits, BASTION_KEYS))
    decreases |visits|
  {
    if visits != [] {
      var n := |visits| - 1;
      FieldsAreFirst(visits[..n]);
      FirstOfBoth(AllOffers(visits[..n], API_KEYS), Offers(visits[n], API_KEYS));
      FirstOfBoth(AllOffers(visits[..n], VIP_KEYS), Offers(visits[n], VIP_KEYS));
      FirstOfBoth(AllOffers(visits[..n], BASTION_KEYS), Offers(visits[n], BASTION_KEYS));
    }
  }

  // ---------- Merging again ----------

  lemma {:induction false} AddedStays(nodes: seq<Node>, more: seq<Node>, key: string)
    requires Inventory.Listed(nodes, key)
    ensures Inventory.Listed(AddAll(nodes, more), key)
    decreases |more|
  {
    if more != [] {
      var before := AddAll(nodes, more[..|more| - 1]);
      AddedStays(nodes, more[..|more| - 1], key);
      StaysListed(before, WithSource(more[|more| - 1]), key);
    }
  }

  lemma StaysListed(nodes: seq<Node>, n: Node, key: string)
    requires Inventory.Listed(nodes, key)
    ensures Inventory.Listed(nodes + [n], key)
  {
    var i :| 0 <= i < |nodes| && Key(nodes[i]) == key;
    assert (nodes + [n])[i] == nodes[i];
  }

  lemma {:induction false} AddedIsListed(nodes: seq<Node>, more: seq<Node>, i: nat)
    requires i < |more|
    ensures Inventory.Listed(AddAll(nodes, more), Key(WithSource(more[i])))
    decreases |more|
  {
    var n := |more| - 1;
    var before := AddAll(nodes, more[..n]);
    var last := WithSource(more[n]);
    if i == n {
      assert (before + [last])[|before|] == last;
    } else {
      AddedIsListed(nodes, more[..n], i);
      StaysListed(before, last, Key(WithSource(more[i])));
    }
  }

  lemma {:induction false} AddListed(nodes: seq<Node>, more: seq<Node>)
    requires forall i :: 0 <= i < |more| ==> Inventory.Listed(nodes, Key(WithSource(more[i])))
    ensures AddAll(nodes, more) == nodes
    decreases |more|
  {
    if more != [] {
      AddListed(nodes, more[..|more| - 1]);
    }
  }

  lemma FilledAgain(current: string, offers: seq<string>)
    ensures Filled(Filled(current, offers), offers) == Filled(current, offers)
  {
  }

  /** Merging the same values twice in a row changes nothing more. */
  lemma {:induction false} MergeTwice(f: Found, v: Values)
    ensures Merged(Merged(f, v), v) == Merged(f, v)
  {
    var more := NodesOf(v);
    forall i | 0 <= i < |more| ensures Inventory.Listed(AddAll(f.nodes, more), Key(WithSource(more[i]))) {
      AddedIsListed(f.nodes, more, i);
    }
    AddListed(AddAll(f.nodes, more), more);
    FilledAgain(f.apiVIP, Offers(v, API_KEYS));
    FilledAgain(f.internalVIP, Offers(v, VIP_KEYS));
    FilledAgain(f.bastion, Offers(v, BASTION_KEYS));
  }

  lemma {:induction false} AddBetween(nodes: seq<Node>, a: seq<Node>, b: seq<Node>)
    ensures AddAll(AddAll(AddAll(nodes, a), b), a) == AddAll(AddAll(nodes, a), b)
  {
    forall i | 0 <= i < |a| ensures Inventory.Listed(AddAll(AddAll(nodes, a), b), Key(WithSource(a[i]))) {
      AddedIsListed(nodes, a, i);
      AddedStays(AddAll(nodes, a), b, Key(WithSource(a[i])));
    }
    AddListed(AddAll(AddAll(nodes, a), b), a);
  }

  /** Even with other values merged in between: what has been merged once adds nothing later. */
  lemma {:induction false} MergeLater(f: Found, v: Values, between: seq<Values>)
    ensures var g := MergeAll(Merged(f, v), between); Merged(g, v) == g
    decreases |between|
  {
    var h := Merged(f, v);
    var g := MergeAll(h, between);
    NodesAreMet(h, between);
    AddBetween(f.nodes, NodesOf(v), Met(between));
    FieldsAreFilled(h, between);
    StaysFilled(f.apiVIP, Offers(v, API_KEYS), AllOffers(between, API_KEYS));
    StaysFilled(f.internalVIP, Offers(v, VIP_KEYS), AllOffers(between, VIP_KEYS));
    StaysFilled(f.bastion, Offers(v, BASTION_KEYS), AllOffers(between, BASTION_KEYS));
  }

  lemma StaysFilled(current: string, a: seq<string>, b: seq<string>)
    ensures Filled(Filled(Filled(current, a), b), a) == Filled(Filled(current, a), b)
  {
  }

  lemma {:induction false} FieldsAreFilled(f: Found, visits: seq<Values>)
    ensures var g := MergeAll(f, visits);
      && g.apiVIP == Filled(f.apiVIP, AllOffers(visits, API_KEYS))
      && g.internalVIP == Filled(f.internalVIP, AllOffers(visits, VIP_KEYS))
      && g.bastion == Filled(f.bastion, AllOffers(visits, BASTION_KEYS))
    decreases |visits|
  {
    if visits != [] {
      var n := |visits| - 1;
      FieldsAreFilled(f, visits[..n]);
      FilledTwice(f.apiVIP, AllOffers(visits[..n], API_KEYS), Offers(visits[n], API_KEYS));
      FilledTwice(f.internalVIP, AllOffers(visits[..n], VIP_KEYS), Offers(visits[n], VIP_KEYS));
      FilledTwice(f.bastion, AllOffers(visits[..n], BASTION_KEYS), Offers(visits[n], BASTION_KEYS));
    }
  }
}
