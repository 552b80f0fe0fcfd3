/** Extracting a cluster inventory from an OpenTofu state tree (cmd/cluster_status_inventory.go). */
module Inventory {
  import opened Text
  import opened StringOrder

  /** A decoded JSON value. */
  datatype Json = Null | Flag(b: bool) | Number(text: string) | Str(s: string) | Arr(items: seq<Json>) | Obj(fields: map<string, Json>)

  type Values = map<string, Json>

  datatype Node = Node(name: string, role: string, internalIP: string, externalIP: string, source: string)

  const CONTROLLER := "controller"
  const WORKER := "worker"
  const WINDOWS := "windows-worker"
  const STATE := "opentofu_state"

  // ---------- Single values ----------

  function Field(v: Values, key: string): Json {
    if key in v then v[key] else Null
  }

  /** terraformValue: outputs wrap their value. */
  function TerraformValue(raw: Json): Json {
    if raw.Obj? && "value" in raw.fields then raw.fields["value"] else raw
  }

  function StringValue(raw: Json): string {
    if raw.Str? then TrimSpace(raw.s) else ""
  }

  /** The first string that is not blank. */
  function FirstNonBlank(s: seq<string>): string {
    if s == [] then "" else if s[0] != "" then s[0] else FirstNonBlank(s[1..])
  }

  function Strings(v: Values, keys: seq<string>): seq<string> {
    if keys == [] then [] else [StringValue(Field(v, keys[0]))] + Strings(v, keys[1..])
  }

  function FirstString(v: Values, keys: seq<string>): string {
    FirstNonBlank(Strings(v, keys))
  }

  const NAME_KEYS: seq<string> := ["name", "id", "hostname"]
  const INTERNAL_KEYS: seq<string> := ["access_ip_v4", "internal_ip", "fixed_ip", "ip", "private_ip", "address"]
  const EXTERNAL_KEYS: seq<string> := ["external_ip", "floating_ip", "public_ip"]

  predicate HasAny(v: Values, keys: seq<string>) {
    exists i :: 0 <= i < |keys| && keys[i] in v
  }

  predicate LooksLikeNode(v: Values) {
    HasAny(v, NAME_KEYS) || HasAny(v, INTERNAL_KEYS) || HasAny(v, EXTERNAL_KEYS)
  }

  /** nodeFromMap. */
  function NodeFromMap(v: Values, role: string): Option<Node> {
    var name, internalIP, externalIP := FirstString(v, NAME_KEYS), FirstString(v, INTERNAL_KEYS), FirstString(v, EXTERNAL_KEYS);
    var shown := if name == "" && internalIP != "" then internalIP else name;
    if shown == "" && internalIP == "" && externalIP == "" then None
    else Some(Node(shown, role, internalIP, externalIP, STATE))
  }

  function OwnNode(v: Values, role: string): seq<Node> {
    match NodeFromMap(v, role) case Some(n) => [n] case None => []
  }

  // ---------- Nodes of a tree ----------

  ghost function AnyList(keys: set<string>): (r: seq<string>)
    ensures multiset(r) == multiset(keys)
  {
    if keys == {} then []
    else
      var k :| k in keys;
      [k] + AnyList(keys - {k})
  }

  /** The keys of a map in order. */
  ghost function SortedKeys(keys: set<string>): (r: seq<string>)
    ensures forall k :: k in r <==> k in keys
    ensures multiset(r) == multiset(keys) && SortedBy(r, Same)
  {
    var r := SortStrings(AnyList(keys));
    assert forall k :: k in r <==> k in multiset(r);
    r
  }

  method SortKeys(keys: set<string>) returns (r: seq<string>)
    ensures r == SortedKeys(keys)
  {
    var list: seq<string> := [];
    var todo := keys;
    while todo != {}
      invariant todo <= keys
      invariant multiset(list) == multiset(keys - todo)
    {
      var k :| k in todo;
      assert keys - (todo - {k}) == (keys - todo) + {k};
      list := list + [k];
      todo := todo - {k};
    }
    assert keys - {} == keys;
    SortIsCanonical(list, AnyList(keys));
    return SortStrings(list);
  }

  /** The nodes of a value, in the order of lists and of sorted keys. */
  ghost function NodesFrom(raw: Json, role: string): seq<Node>
    decreases raw, 1, 0
  {
    match raw
    case Arr(items) => ItemNodes(raw, role, |items|)
    case Obj(fields) =>
      if LooksLikeNode(fields) then OwnNode(fields, role)
      else KeyNodes(raw, SortedKeys(fields.Keys), role, |SortedKeys(fields.Keys)|)
    case _ => []
  }

  /** The nodes of the first n items. */
  ghost function ItemNodes(raw: Json, role: string, n: nat): seq<Node>
    requires raw.Arr? && n <= |raw.items|
    decreases raw, 0, n
  {
    if n == 0 then [] else ItemNodes(raw, role, n - 1) + NodesFrom(raw.items[n - 1], role)
  }

  /** The nodes under the first n keys. */
  ghost function KeyNodes(raw: Json, keys: seq<string>, role: string, n: nat): seq<Node>
    requires raw.Obj? && n <= |keys| && forall k :: k in keys ==> k in raw.fields
    decreases raw, 0, n
  {
    if n == 0 then [] else KeyNodes(raw, keys, role, n - 1) + NodesFrom(raw.fields[keys[n - 1]], role)
  }

  /** nodesFromValue. */
  method NodesFromValue(raw: Json, role: string) returns (nodes: seq<Node>)
    ensures nodes == NodesFrom(raw, role)
    decreases raw
  {
    nodes := [];
    match raw {
      case Arr(items) =>
        for i := 0 to |items|
          invariant nodes == ItemNodes(raw, role, i)
        {
          var more := NodesFromValue(items[i], role);
          nodes := nodes + more;
        }
      case Obj(fields) =>
        if LooksLikeNode(fields) {
          return OwnNode(fields, role);
        }
        var keys := SortKeys(fields.Keys);
        for i := 0 to |keys|
          invariant nodes == KeyNodes(raw, keys, role, i)
        {
          assert keys[i] in fields;
          var more := NodesFromValue(fields[keys[i]], role);
          nodes := nodes + more;
        }
      case _ =>
    }
  }

  // ---------- The inventory ----------

  /** The text two nodes are compared by. */
  function Key(n: Node): string {
    n.role + ['\0'] + n.name + ['\0'] + n.internalIP + ['\0'] + n.externalIP
  }

  predicate Listed(nodes: seq<Node>, key: string) {
    exists i :: 0 <= i < |nodes| && Key(nodes[i]) == key
  }

  function WithSource(n: Node): Node {
    if n.source == "" then n.(source := STATE) else n
  }

  /** One node more, unless it is there. */
  function Add(nodes: seq<Node>, n: Node): seq<Node> {
    if Listed(nodes, Key(WithSource(n))) then nodes else nodes + [WithSource(n)]
  }

  function AddAll(nodes: seq<Node>, more: seq<Node>): seq<Node> {
    if more == [] then nodes else Add(AddAll(nodes, more[..|more| - 1]), more[|more| - 1])
  }

  const API_KEYS: seq<string> := ["k8s_api_ip", "api_vip"]
  const VIP_KEYS: seq<string> := ["k8s_internal_ip", "internal_vip", "vrrp_ip"]
  const BASTION_KEYS: seq<string> := ["bastion_floating_ip", "address_bastion"]

  /** What the values offer for a network field. */
  function Offers(v: Values, keys: seq<string>): seq<string> {
    if keys == [] then []
    else Offers(v, keys[..|keys| - 1])
         + if keys[|keys| - 1] in v then [StringValue(TerraformValue(v[keys[|keys| - 1]]))] else []
  }

  /** The places nodes are taken from, with their roles. */
  ghost function NodesOf(v: Values): seq<Node> {
    NodesFrom(TerraformValue(Field(v, "master_nodes")), CONTROLLER)
    + NodesFrom(TerraformValue(Field(v, "worker_nodes")), WORKER)
    + NodesFrom(TerraformValue(Field(v, "windows_nodes")), WINDOWS)
    + NodesFrom(TerraformValue(Field(v, "additional_worker_pools_nodes")), WORKER)
    + NodesFrom(TerraformValue(Field(v, "additional_worker_pools_windows_nodes")), WINDOWS)
  }

  datatype Found = Found(apiVIP: string, internalVIP: string, bastion: string, nodes: seq<Node>)

  const NOTHING := Found("", "", "", [])

  function Filled(current: string, offers: seq<string>): string {
    if current != "" then current else FirstNonBlank(offers)
  }

  /** An inventory with the values of one object merged in. */
  ghost function Merged(f: Found, v: Values): Found {
    Found(Filled(f.apiVIP, Offers(v, API_KEYS)), Filled(f.internalVIP, Offers(v, VIP_KEYS)),
          Filled(f.bastion, Offers(v, BASTION_KEYS)), AddAll(f.nodes, NodesOf(v)))
  }

  ghost function MergeAll(f: Found, visits: seq<Values>): Found {
    if visits == [] then f else Merged(MergeAll(f, visits[..|visits| - 1]), visits[|visits| - 1])
  }

  lemma {:induction false} FirstOfBoth(a: seq<string>, b: seq<string>)
    ensures FirstNonBlank(a + b) == Filled(FirstNonBlank(a), b)
  {
    if a == [] {
      assert a + b == b;
    } else {
      assert (a + b)[1..] == a[1..] + b;
      FirstOfBoth(a[1..], b);
    }
  }

  lemma FilledTwice(current: string, a: seq<string>, b: seq<string>)
    ensures Filled(Filled(current, a), b) == Filled(current, a + b)
  {
    FirstOfBoth(a, b);
  }

  lemma {:induction false} AddAllConcat(nodes: seq<Node>, a: seq<Node>, b: seq<Node>)
    ensures AddAll(nodes, a + b) == AddAll(AddAll(nodes, a), b)
    decreases |b|
  {
    if b == [] {
      assert a + b == a;
    } else {
      var n := |b| - 1;
      assert (a + b)[..|a + b| - 1] == a + b[..n] && (a + b)[|a + b| - 1] == b[n];
      AddAllConcat(nodes, a, b[..n]);
    }
  }

  class Collector {
    var apiVIP: string
    var internalVIP: string
    var bastion: string
    var nodes: seq<Node>

    constructor ()
      ensures Contents() == NOTHING
    {
      apiVIP, internalVIP, bastion, nodes := "", "", "", [];
    }

    function Contents(): Found
      reads this
    {
      Found(apiVIP, internalVIP, bastion, nodes)
    }

    /** appendInventoryNode. */
    method AppendNode(n: Node)
      modifies `nodes
      ensures nodes == Add(old(nodes), n)
    {
      var node := if n.source == "" then n.(source := STATE) else n;
      var key := node.role + ['\0'] + node.name + ['\0'] + node.internalIP + ['\0'] + node.externalIP;
      for i := 0 to |nodes|
        invariant forall j :: 0 <= j < i ==> Key(nodes[j]) != key
      {
        if Key(nodes[i]) == key {
          return;
        }
      }
      nodes := nodes + [node];
    }

    /** appendInventoryNodes. */
    method AppendNodes(role: string, raw: Json)
      modifies `nodes
      ensures nodes == AddAll(old(nodes), NodesFrom(raw, role))
    {
      if raw.Null? {
        return;
      }
      var more := NodesFromValue(raw, role);
      for i := 0 to |more|
        invariant nodes == AddAll(old(nodes), more[..i])
      {
        assert more[..i + 1][..i] == more[..i];
        AppendNode(more[i]);
      }
      assert more[..|more|] == more;
    }

    method AppendAllNodes(v: Values)
      modifies `nodes
      ensures nodes == AddAll(old(nodes), NodesOf(v))
    {
      ghost var a := NodesFrom(TerraformValue(Field(v, "master_nodes")), CONTROLLER);
      ghost var b := NodesFrom(TerraformValue(Field(v, "worker_nodes")), WORKER);
      ghost var c := NodesFrom(TerraformValue(Field(v, "windows_nodes")), WINDOWS);
      ghost var d := NodesFrom(TerraformValue(Field(v, "additional_worker_pools_nodes")), WORKER);
      ghost var e := NodesFrom(TerraformValue(Field(v, "additional_worker_pools_windows_nodes")), WINDOWS);
      FiveInTurn(nodes, a, b, c, d, e);
      AppendNodes(CONTROLLER, TerraformValue(Field(v, "master_nodes")));
      AppendNodes(WORKER, TerraformValue(Field(v, "worker_nodes")));
      AppendNodes(WINDOWS, TerraformValue(Field(v, "windows_nodes")));
      AppendNodes(WORKER, TerraformValue(Field(v, "additional_worker_pools_nodes")));
      AppendNodes(WINDOWS, TerraformValue(Field(v, "additional_worker_pools_windows_nodes")));
    }

    /** mergeInventoryValues. */
    method MergeValues(v: Values)
      modifies this
      ensures Contents() == Merged(old(Contents()), v)
    {
      if |v| == 0 {
        NothingToMerge(Contents(), v);
        return;
      }
      apiVIP := Fill(v, API_KEYS, apiVIP);
      internalVIP := Fill(v, VIP_KEYS, internalVIP);
      bastion := Fill(v, BASTION_KEYS, bastion);
      AppendAllNodes(v);
    }
  }

  /** One of the three loops over the keys of a network field. */
  method Fill(v: Values, keys: seq<string>, current: string) returns (r: string)
    ensures r == Filled(current, Offers(v, keys))
  {
    r := current;
    for i := 0 to |keys|
      invariant r == Filled(current, Offers(v, keys[..i]))
    {
      FillNext(v, keys, current, i);
      if keys[i] in v && r == "" {
        r := StringValue(TerraformValue(v[keys[i]]));
      }
    }
    assert keys[..|keys|] == keys;
  }

  lemma FillNext(v: Values, keys: seq<string>, current: string, i: nat)
    requires i < |keys|
    ensures var r := Filled(current, Offers(v, keys[..i]));
      Filled(current, Offers(v, keys[..i + 1])) == if keys[i] in v && r == "" then StringValue(TerraformValue(v[keys[i]])) else r
  {
    var upTo := keys[..i + 1];
    assert upTo[..i] == keys[..i];
    var before := Offers(v, keys[..i]);
    if keys[i] in v {
      var offer := StringValue(TerraformValue(v[keys[i]]));
      assert Offers(v, upTo) == before + [offer];
      FilledTwice(current, before, [offer]);
      assert FirstNonBlank([offer]) == offer by {
        assert [offer][1..] == [];
      }
    } else {
      assert Offers(v, upTo) == before + [];
      assert before + [] == before;
    }
  }

  lemma {:induction false} NoOffers(v: Values, keys: seq<string>)
    requires v == map[]
    ensures Offers(v, keys) == []
    decreases |keys|
  {
    if keys != [] {
      NoOffers(v, keys[..|keys| - 1]);
    }
  }

  lemma NothingToMerge(f: Found, v: Values)
    requires |v| == 0
    ensures Merged(f, v) == f
  {
    assert v == map[];
    NoOffers(v, API_KEYS);
    NoOffers(v, VIP_KEYS);
    NoOffers(v, BASTION_KEYS);
    assert NodesOf(v) == [];
  }

  lemma {:induction false} FiveInTurn(nodes: seq<Node>, a: seq<Node>, b: seq<Node>, c: seq<Node>, d: seq<Node>, e: seq<Node>)
    ensures AddAll(AddAll(AddAll(AddAll(AddAll(nodes, a), b), c), d), e) == AddAll(nodes, a + b + c + d + e)
  {
    AddAllConcat(nodes, a, b);
    AddAllConcat(nodes, a + b, c);
    AddAllConcat(nodes, a + b + c, d);
    AddAllConcat(nodes, a + b + c + d, e);
  }

  // ---------- The state tree ----------

  predicate ObjAt(v: Values, key: string) {
    Field(v, key).Obj?
  }

  predicate ArrAt(v: Values, key: string) {
    Field(v, key).Arr?
  }

  function OneIf(v: Values, key: string): seq<Values> {
    if ObjAt(v, key) then [v[key].fields] else []
  }

  /** The objects under a key of the first n items. */
  function Under(items: seq<Json>, key: string, n: nat): seq<Values>
    requires n <= |items|
  {
    if n == 0 then []
    else Under(items, key, n - 1) + if items[n - 1].Obj? then OneIf(items[n - 1].fields, key) else []
  }

  /** The objects whose values a module contributes, in the order they are merged. */
  function ModuleVisits(m: Json): seq<Values>
    requires m.Obj?
    decreases m, 1, 0
  {
    var v := m.fields;
    if ObjAt(v, "root_module") then ModuleVisits(v["root_module"])
    else
      OneIf(v, "outputs")
      + (if ArrAt(v, "resources") then Under(v["resources"].items, "values", |v["resources"].items|) else [])
      + (if ArrAt(v, "child_modules") then ChildVisits(v["child_modules"], |v["child_modules"].items|) else [])
  }

  function ChildVisits(children: Json, n: nat): seq<Values>
    requires children.Arr? && n <= |children.items|
    decreases children, 0, n
  {
    if n == 0 then []
    else ChildVisits(children, n - 1) + if children.items[n - 1].Obj? then ModuleVisits(children.items[n - 1]) else []
  }

  /** The attributes of the instances of the first n resources. */
  function InstanceVisits(resources: seq<Json>, n: nat): seq<Values>
    requires n <= |resources|
  {
    if n == 0 then []
    else
      var r := resources[n - 1];
      InstanceVisits(resources, n - 1)
      + if r.Obj? && ArrAt(r.fields, "instances")
        then Under(r.fields["instances"].items, "attributes", |r.fields["instances"].items|) else []
  }

  /** All objects merged for a state, in order. */
  function StateVisits(state: Values): seq<Values> {
    OneIf(state, "outputs")
    + (if ObjAt(state, "values") then ModuleVisits(state["values"]) else [])
    + (if ArrAt(state, "resources") then InstanceVisits(state["resources"].items, |state["resources"].items|) else [])
  }

  lemma {:induction false} MergeAllConcat(f: Found, a: seq<Values>, b: seq<Values>)
    ensures MergeAll(f, a + b) == MergeAll(MergeAll(f, a), b)
    decreases |b|
  {
    if b == [] {
      assert a + b == a;
    } else {
      var n := |b| - 1;
      assert (a + b)[..|a + b| - 1] == a + b[..n] && (a + b)[|a + b| - 1] == b[n];
      MergeAllConcat(f, a, b[..n]);
    }
  }

  lemma MergeOne(f: Found, v: Values)
    ensures MergeAll(f, [v]) == Merged(f, v)
  {
    assert [v][..0] == [];
    assert MergeAll(f, [v][..0]) == f;
  }

  method MergeIfObject(inv: Collector, v: Values, key: string)
    modifies inv
    ensures inv.Contents() == MergeAll(old(inv.Contents()), OneIf(v, key))
  {
    if ObjAt(v, key) {
      MergeOne(inv.Contents(), v[key].fields);
      inv.MergeValues(v[key].fields);
    }
  }

  /** The loop over a list of objects, merging what each has under a key. */
  method MergeUnder(inv: Collector, items: seq<Json>, key: string)
    modifies inv
    ensures inv.Contents() == MergeAll(old(inv.Contents()), Under(items, key, |items|))
  {
    ghost var start := inv.Contents();
    for i := 0 to |items|
      invariant inv.Contents() == MergeAll(start, Under(items, key, i))
    {
      if items[i].Obj? {
        MergeAllConcat(start, Under(items, key, i), OneIf(items[i].fields, key));
        MergeIfObject(inv, items[i].fields, key);
      } else {
        assert Under(items, key, i + 1) == Under(items, key, i) + [];
        assert Under(items, key, i) + [] == Under(items, key, i);
      }
    }
  }

  /** parseOpenTofuValuesModule, which a root module replaces. */
  method ParseModule(inv: Collector, m: Json)
    requires m.Obj?
    modifies inv
    ensures inv.Contents() == MergeAll(old(inv.Contents()), ModuleVisits(m))
    decreases m, 1
  {
    var v := m.fields;
    if ObjAt(v, "root_module") {
      ParseModule(inv, v["root_module"]);
      return;
    }
    ghost var start := inv.Contents();
    ghost var a := OneIf(v, "outputs");
    ghost var b := if ArrAt(v, "resources") then Under(v["resources"].items, "values", |v["resources"].items|) else [];
    ghost var c := if ArrAt(v, "child_modules") then ChildVisits(v["child_modules"], |v["child_modules"].items|) else [];
    MergeAllConcat(start, a, b);
    MergeAllConcat(start, a + b, c);
    MergeIfObject(inv, v, "outputs");
    if ArrAt(v, "resources") {
      MergeUnder(inv, v["resources"].items, "values");
    }
    if ArrAt(v, "child_modules") {
      ParseChildren(inv, v["child_modules"]);
    }
  }

  method ParseChildren(inv: Collector, children: Json)
    requires children.Arr?
    modifies inv
    ensures inv.Contents() == MergeAll(old(inv.Contents()), ChildVisits(children, |children.items|))
    decreases children, 0
  {
    ghost var start := inv.Contents();
    for i := 0 to |children.items|
      invariant inv.Contents() == MergeAll(start, ChildVisits(children, i))
    {
      var child := children.items[i];
      if child.Obj? {
        MergeAllConcat(start, ChildVisits(children, i), ModuleVisits(child));
        ParseModule(inv, child);
      } else {
        assert ChildVisits(children, i + 1) == ChildVisits(children, i) + [];
        assert ChildVisits(children, i) + [] == ChildVisits(children, i);
      }
    }
  }

  /** parseOpenTofuResources. */
  method ParseResources(inv: Collector, resources: seq<Json>)
    modifies inv
    ensures inv.Contents() == MergeAll(old(inv.Contents()), InstanceVisits(resources, |resources|))
  {
    ghost var start := inv.Contents();
    for i := 0 to |resources|
      invariant inv.Contents() == MergeAll(start, InstanceVisits(resources, i))
    {
      var r := resources[i];
      if r.Obj? && ArrAt(r.fields, "instances") {
        var instances := r.fields["instances"].items;
        MergeAllConcat(start, InstanceVisits(resources, i), Under(instances, "attributes", |instances|));
        MergeUnder(inv, instances, "attributes");
      } else {
        assert InstanceVisits(resources, i + 1) == InstanceVisits(resources, i) + [];
        assert InstanceVisits(resources, i) + [] == InstanceVisits(resources, i);
      }
    }
  }

  /** readOpenTofuStateInventory, once the state is decoded. */
  method ReadState(state: Values) returns (inv: Collector)
    ensures fresh(inv) && inv.Contents() == MergeAll(NOTHING, StateVisits(state))
  {
    inv := new Collector();
    ghost var a := OneIf(state, "outputs");
    ghost var b := if ObjAt(state, "values") then ModuleVisits(state["values"]) else [];
    ghost var c := if ArrAt(state, "resources") then InstanceVisits(state["resources"].items, |state["resources"].items|) else [];
    MergeAllConcat(NOTHING, a, b);
    MergeAllConcat(NOTHING, a + b, c);
    MergeIfObject(inv, state, "outputs");
    if ObjAt(state, "values") {
      ParseModule(inv, state["values"]);
    }
    if ArrAt(state, "resources") {
      ParseResources(inv, state["resources"].items);
    }
  }
}
