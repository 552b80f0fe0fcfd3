/** What an inventory is read from: the addresses in a state tree at which values are merged and nodes are
    found, all of them, in document order. */
module InventoryOrder {
  import opened Text
  import opened StringOrder
  import opened Inventory

  // ---------- Addresses ----------

  /** The n-th part, or the part under a key. */
  datatype Hop = Nth(n: nat) | Member(key: string)

  type Address = seq<Hop>

  predicate HopBefore(a: Hop, b: Hop) {
    match (a, b)
    case (Nth(m), Nth(n)) => m < n
    case (Member(j), Member(k)) => Le(j, k) && j != k
    case _ => false
  }

  /** Document order. */
  predicate Before(a: Address, b: Address) {
    b != [] && (a == [] || HopBefore(a[0], b[0]) || (a[0] == b[0] && Before(a[1..], b[1..])))
  }

  ghost predicate Increasing(list: seq<Address>) {
    forall i, j :: 0 <= i < j < |list| ==> Before(list[i], list[j])
  }

  /** The list has what is found at every address where something is, in document order. */
  ghost predicate Enumerates<T(!new)>(list: seq<Address>, found: seq<T>, at: Address -> Option<T>) {
    && |list| == |found| && Increasing(list)
    && (forall i :: 0 <= i < |list| ==> at(list[i]) == Some(found[i]))
    && (forall a :: at(a).Some? ==> a in list)
  }

  lemma {:induction false} NothingFound<T(!new)>(at: Address -> Option<T>)
    requires forall a :: at(a).None?
    ensures Enumerates([], [], at)
  {
  }

  /** What is found at one place alone. */
  lemma {:induction false} OneFound<T(!new)>(at: Address -> Option<T>, here: Address, x: T)
    requires forall a :: at(a) == if a == here then Some(x) else None
    ensures Enumerates([here], [x], at)
  {
  }

  /** Two enumerations, one after the other. */
  lemma {:induction false} Together<T(!new)>(l: seq<Address>, f: seq<T>, p: Address -> Option<T>,
                                             m: seq<Address>, g: seq<T>, q: Address -> Option<T>, at: Address -> Option<T>)
    requires Enumerates(l, f, p) && Enumerates(m, g, q)
    requires forall a :: at(a) == if p(a).Some? then p(a) else q(a)
    requires forall a, b :: p(a).Some? && q(b).Some? ==> Before(a, b)
    requires forall a :: p(a).None? || q(a).None?
    ensures Enumerates(l + m, f + g, at)
  {
    var all, found := l + m, f + g;
    forall i | 0 <= i < |all| ensures at(all[i]) == Some(found[i]) {
      if i < |l| {
        assert p(l[i]) == Some(f[i]);
      } else {
        assert q(m[i - |l|]) == Some(g[i - |l|]);
        assert p(m[i - |l|]).None?;
      }
    }
    forall i, j | 0 <= i < j < |all| ensures Before(all[i], all[j]) {
      if i < |l| <= j {
        assert p(l[i]).Some? && q(m[j - |l|]).Some?;
      }
    }
    forall a | at(a).Some? ensures a in all {
      assert p(a).Some? ==> a in l;
      assert q(a).Some? ==> a in m;
    }
  }

  function Prefixed(h: Hop, list: seq<Address>): (r: seq<Address>)
    ensures |r| == |list| && forall i :: 0 <= i < |list| ==> r[i] == [h] + list[i]
  {
    seq(|list|, i requires 0 <= i < |list| => [h] + list[i])
  }

  /** The same, one level down. */
  lemma {:induction false} Below<T(!new)>(h: Hop, l: seq<Address>, f: seq<T>, p: Address -> Option<T>, at: Address -> Option<T>)
    requires Enumerates(l, f, p)
    requires forall a :: at(a) == if a != [] && a[0] == h then p(a[1..]) else None
    ensures Enumerates(Prefixed(h, l), f, at)
  {
    var all := Prefixed(h, l);
    forall i | 0 <= i < |l| ensures at(all[i]) == Some(f[i]) && all[i][1..] == l[i] {
      assert all[i][1..] == l[i];
    }
    forall a | at(a).Some? ensures a in all {
      var i :| 0 <= i < |l| && l[i] == a[1..];
      assert all[i] == [h] + a[1..] == a;
    }
    forall i, j | 0 <= i < j < |all| ensures Before(all[i], all[j]) {
      assert all[i][1..] == l[i] && all[j][1..] == l[j];
    }
  }

  // ---------- The values of a state ----------

  /** The parts of a module and of a state, in the order they are read. */
  const OUTPUTS := Nth(0)
  const RESOURCES := Nth(1)
  const CHILDREN := Nth(2)
  const ROOT := Nth(3)
  const MODULE := Nth(1)
  const INSTANCES := Nth(2)

  /** The object under a key of the item an address names. */
  function ItemValue(items: seq<Json>, key: string, a: Address): Option<Values> {
    if |a| == 1 && a[0].Nth? && a[0].n < |items| && items[a[0].n].Obj? && ObjAt(items[a[0].n].fields, key)
    then Some(items[a[0].n].fields[key].fields) else None
  }

  /** The values at an address in a module: its outputs, the values of one of its resources, or something
      in a child module; or, if it has a root module, only what is in that. */
  function ModuleValue(m: Json, a: Address): Option<Values>
    decreases m
  {
    if !m.Obj? || a == [] then None
    else
      var v := m.fields;
      if ObjAt(v, "root_module") then
        if a[0] == ROOT then ModuleValue(v["root_module"], a[1..]) else None
      else if a == [OUTPUTS] then
        if ObjAt(v, "outputs") then Some(v["outputs"].fields) else None
      else if a[0] == RESOURCES then
        if ArrAt(v, "resources") then ItemValue(v["resources"].items, "values", a[1..]) else None
      else if a[0] == CHILDREN && ArrAt(v, "child_modules") then ChildValue(v["child_modules"], a[1..])
      else None
  }

  function ChildValue(children: Json, a: Address): Option<Values>
    requires children.Arr?
    decreases children
  {
    if a != [] && a[0].Nth? && a[0].n < |children.items| then ModuleValue(children.items[a[0].n], a[1..]) else None
  }

  /** The attributes of one instance of one resource. */
  function InstanceValue(resources: seq<Json>, a: Address): Option<Values> {
    if |a| == 2 && a[0].Nth? && a[0].n < |resources| && resources[a[0].n].Obj? && ArrAt(resources[a[0].n].fields, "instances")
    then ItemValue(resources[a[0].n].fields["instances"].items, "attributes", a[1..]) else None
  }

  /** The values at an address in a state: its outputs, something in its module tree, or the attributes of
      an instance. */
  function StateValue(state: Values, a: Address): Option<Values> {
    if a == [] then None
    else if a == [OUTPUTS] then
      if ObjAt(state, "outputs") then Some(state["outputs"].fields) else None
    else if a[0] == MODULE then
      if ObjAt(state, "values") then ModuleValue(state["values"], a[1..]) else None
    else if a[0] == INSTANCES && ArrAt(state, "resources") then InstanceValue(state["resources"].items, a[1..])
    else None
  }

  // ---------- One list ----------

  /** What is found below the first n parts. */
  function Early<T>(at: Address -> Option<T>, n: nat): Address -> Option<T> {
    (a: Address) => if a != [] && a[0].Nth? && a[0].n < n then at(a) else None
  }

  /** What is found below the n-th part. */
  function Only<T>(at: Address -> Option<T>, h: Hop): Address -> Option<T> {
    (a: Address) => if a != [] && a[0] == h then at(a) else None
  }

  lemma {:induction false} OneMorePart<T(!new)>(l: seq<Address>, f: seq<T>, m: seq<Address>, g: seq<T>, at: Address -> Option<T>, n: nat)
    requires Enumerates(l, f, Early(at, n)) && Enumerates(m, g, Only(at, Nth(n)))
    ensures Enumerates(l + m, f + g, Early(at, n + 1))
  {
    Together(l, f, Early(at, n), m, g, Only(at, Nth(n)), Early(at, n + 1));
  }

  lemma {:induction false} AllParts<T(!new)>(l: seq<Address>, f: seq<T>, at: Address -> Option<T>, n: nat)
    requires Enumerates(l, f, Early(at, n))
    requires forall a: Address :: at(a).Some? ==> a != [] && a[0].Nth? && a[0].n < n
    ensures Enumerates(l, f, at)
  {
    forall a ensures Early(at, n)(a) == at(a) {
    }
  }

  lemma {:induction false} NoParts<T(!new)>(at: Address -> Option<T>)
    ensures Enumerates([], [], Early(at, 0))
  {
    NothingFound(Early(at, 0));
  }

  function ItemsAt(items: seq<Json>, key: string): Address -> Option<Values> {
    a => ItemValue(items, key, a)
  }

  lemma {:induction false} EnumerateItems(items: seq<Json>, key: string, n: nat) returns (list: seq<Address>)
    requires n <= |items|
    ensures Enumerates(list, Under(items, key, n), Early(ItemsAt(items, key), n))
  {
    var at := ItemsAt(items, key);
    if n == 0 {
      NoParts(at);
      return [];
    }
    var k := n - 1;
    list := EnumerateItems(items, key, k);
    var here := Only(at, Nth(k));
    if items[k].Obj? && ObjAt(items[k].fields, key) {
      var x := items[k].fields[key].fields;
      forall a ensures here(a) == if a == [Nth(k)] then Some(x) else None {
      }
      OneFound(here, [Nth(k)], x);
      OneMorePart(list, Under(items, key, k), [[Nth(k)]], [x], at, k);
      list := list + [[Nth(k)]];
    } else {
      NothingFound(here);
      OneMorePart(list, Under(items, key, k), [], [], at, k);
      assert list + [] == list && Under(items, key, k) + [] == Under(items, key, k);
    }
  }

  lemma {:induction false} EnumerateAllItems(items: seq<Json>, key: string) returns (list: seq<Address>)
    ensures Enumerates(list, Under(items, key, |items|), ItemsAt(items, key))
  {
    list := EnumerateItems(items, key, |items|);
    AllParts(list, Under(items, key, |items|), ItemsAt(items, key), |items|);
  }

  lemma {:induction false} PartBelow<T(!new)>(h: Hop, l: seq<Address>, f: seq<T>, p: Address -> Option<T>, at: Address -> Option<T>)
    requires Enumerates(l, f, p) && forall a: Address :: a != [] && a[0] == h ==> at(a) == p(a[1..])
    ensures Enumerates(Prefixed(h, l), f, Only(at, h))
  {
    Below(h, l, f, p, Only(at, h));
  }

  // ---------- Modules ----------

  function ModuleAt(m: Json): Address -> Option<Values> {
    a => ModuleValue(m, a)
  }

  function ChildAt(children: Json): Address -> Option<Values>
    requires children.Arr?
  {
    a => ChildValue(children, a)
  }

  lemma {:induction false} EnumerateOutputs(v: Values, at: Address -> Option<Values>) returns (list: seq<Address>)
    requires forall a: Address :: a != [] && a[0] == OUTPUTS ==>
               at(a) == if a == [OUTPUTS] && ObjAt(v, "outputs") then Some(v["outputs"].fields) else None
    ensures Enumerates(list, OneIf(v, "outputs"), Only(at, OUTPUTS))
  {
    if ObjAt(v, "outputs") {
      OneFound(Only(at, OUTPUTS), [OUTPUTS], v["outputs"].fields);
      return [[OUTPUTS]];
    } else {
      NothingFound(Only(at, OUTPUTS));
      return [];
    }
  }

  lemma {:induction false} EnumerateResources(m: Json) returns (list: seq<Address>)
    requires m.Obj? && !ObjAt(m.fields, "root_module")
    ensures Enumerates(list, if ArrAt(m.fields, "resources") then Under(m.fields["resources"].items, "values", |m.fields["resources"].items|) else [],
                       Only(ModuleAt(m), RESOURCES))
  {
    if ArrAt(m.fields, "resources") {
      var items := m.fields["resources"].items;
      var l := EnumerateAllItems(items, "values");
      PartBelow(RESOURCES, l, Under(items, "values", |items|), ItemsAt(items, "values"), ModuleAt(m));
      return Prefixed(RESOURCES, l);
    } else {
      NothingFound(Only(ModuleAt(m), RESOURCES));
      return [];
    }
  }

  lemma {:induction false} EnumerateBelow(m: Json) returns (list: seq<Address>)
    requires m.Obj? && !ObjAt(m.fields, "root_module")
    ensures Enumerates(list, if ArrAt(m.fields, "child_modules") then ChildVisits(m.fields["child_modules"], |m.fields["child_modules"].items|) else [],
                       Only(ModuleAt(m), CHILDREN))
    decreases m, 0
  {
    if ArrAt(m.fields, "child_modules") {
      var children := m.fields["child_modules"];
      var n := |children.items|;
      var l := EnumerateChildren(children, n);
      AllParts(l, ChildVisits(children, n), ChildAt(children), n);
      PartBelow(CHILDREN, l, ChildVisits(children, n), ChildAt(children), ModuleAt(m));
      return Prefixed(CHILDREN, l);
    } else {
      NothingFound(Only(ModuleAt(m), CHILDREN));
      return [];
    }
  }

  /** The values read from a module are those at its addresses, in document order. */
  lemma {:induction false} EnumerateModule(m: Json) returns (list: seq<Address>)
    requires m.Obj?
    ensures Enumerates(list, ModuleVisits(m), ModuleAt(m))
    decreases m, 1
  {
    var v, at := m.fields, ModuleAt(m);
    if ObjAt(v, "root_module") {
      var root := v["root_module"];
      var l := EnumerateModule(root);
      Below(ROOT, l, ModuleVisits(root), ModuleAt(root), at);
      return Prefixed(ROOT, l);
    }
    var x := EnumerateOutputs(v, at);
    var y := EnumerateResources(m);
    var z := EnumerateBelow(m);
    list := ThreeParts(x, OneIf(v, "outputs"),
                       y, if ArrAt(v, "resources") then Under(v["resources"].items, "values", |v["resources"].items|) else [],
                       z, if ArrAt(v, "child_modules") then ChildVisits(v["child_modules"], |v["child_modules"].items|) else [], at);
  }

  lemma {:induction false} ThreeParts<T(!new)>(x: seq<Address>, f: seq<T>, y: seq<Address>, g: seq<T>, z: seq<Address>, h: seq<T>, at: Address -> Option<T>)
    returns (list: seq<Address>)
    requires Enumerates(x, f, Only(at, Nth(0))) && Enumerates(y, g, Only(at, Nth(1))) && Enumerates(z, h, Only(at, Nth(2)))
    requires forall a: Address :: at(a).Some? ==> a != [] && a[0].Nth? && a[0].n < 3
    ensures Enumerates(list, f + g + h, at)
  {
    NoParts(at);
    OneMorePart([], [], x, f, at, 0);
    assert [] + x == x && [] + f == f;
    OneMorePart(x, f, y, g, at, 1);
    OneMorePart(x + y, f + g, z, h, at, 2);
    AllParts(x + y + z, f + g + h, at, 3);
    return x + y + z;
  }

  lemma {:induction false} EnumerateChildren(children: Json, n: nat) returns (list: seq<Address>)
    requires children.Arr? && n <= |children.items|
    ensures Enumerates(list, ChildVisits(children, n), Early(ChildAt(children), n))
    decreases children, 0, n
  {
    var at := ChildAt(children);
    if n == 0 {
      NoParts(at);
      return [];
    }
    var k := n - 1;
    list := EnumerateChildren(children, k);
    var child := children.items[k];
    if child.Obj? {
      var l := EnumerateModule(child);
      PartBelow(Nth(k), l, ModuleVisits(child), ModuleAt(child), at);
      OneMorePart(list, ChildVisits(children, k), Prefixed(Nth(k), l), ModuleVisits(child), at, k);
      list := list + Prefixed(Nth(k), l);
    } else {
      forall a: Address ensures Only(at, Nth(k))(a).None? {
        assert a != [] && a[0] == Nth(k) ==> at(a) == ChildValue(children, a) == ModuleValue(child, a[1..]);
      }
      NothingFound(Only(at, Nth(k)));
      OneMorePart(list, ChildVisits(children, k), [], [], at, k);
      assert list + [] == list && ChildVisits(children, k) + [] == ChildVisits(children, k);
    }
  }

  // ---------- Instances and states ----------

  function InstancesAt(resources: seq<Json>): Address -> Option<Values> {
    a => InstanceValue(resources, a)
  }

  lemma {:induction false} EnumerateInstances(resources: seq<Json>, n: nat) returns (list: seq<Address>)
    requires n <= |resources|
    ensures Enumerates(list, InstanceVisits(resources, n), Early(InstancesAt(resources), n))
  {
    var at := InstancesAt(resources);
    if n == 0 {
      NoParts(at);
      return [];
    }
    var k := n - 1;
    list := EnumerateInstances(resources, k);
    var r := resources[k];
    if r.Obj? && ArrAt(r.fields, "instances") {
      var items := r.fields["instances"].items;
      var l := EnumerateAllItems(items, "attributes");
      PartBelow(Nth(k), l, Under(items, "attributes", |items|), ItemsAt(items, "attributes"), at);
      OneMorePart(list, InstanceVisits(resources, k), Prefixed(Nth(k), l), Under(items, "attributes", |items|), at, k);
      list := list + Prefixed(Nth(k), l);
    } else {
      NothingFound(Only(at, Nth(k)));
      OneMorePart(list, InstanceVisits(resources, k), [], [], at, k);
      assert list + [] == list && InstanceVisits(resources, k) + [] == InstanceVisits(resources, k);
    }
  }

  function StateAt(state: Values): Address -> Option<Values> {
    a => StateValue(state, a)
  }

  lemma {:induction false} EnumerateValues(state: Values) returns (list: seq<Address>)
    ensures Enumerates(list, if ObjAt(state, "values") then ModuleVisits(state["values"]) else [], Only(StateAt(state), MODULE))
  {
    if ObjAt(state, "values") {
      var m := state["values"];
      var l := EnumerateModule(m);
      PartBelow(MODULE, l, ModuleVisits(m), ModuleAt(m), StateAt(state));
      return Prefixed(MODULE, l);
    } else {
      NothingFound(Only(StateAt(state), MODULE));
      return [];
    }
  }

  lemma {:induction false} EnumerateAttributes(state: Values) returns (list: seq<Address>)
    ensures Enumerates(list, if ArrAt(state, "resources") then InstanceVisits(state["resources"].items, |state["resources"].items|) else [],
                       Only(StateAt(state), INSTANCES))
  {
    if ArrAt(state, "resources") {
      var resources := state["resources"].items;
      var l := EnumerateInstances(resources, |resources|);
      AllParts(l, InstanceVisits(resources, |resources|), InstancesAt(resources), |resources|);
      PartBelow(INSTANCES, l, InstanceVisits(resources, |resources|), InstancesAt(resources), StateAt(state));
      return Prefixed(INSTANCES, l);
    } else {
      NothingFound(Only(StateAt(state), INSTANCES));
      return [];
    }
  }

  /** The values merged for a state are those at its addresses, all of them, in document order. */
  lemma {:induction false} EnumerateState(state: Values) returns (list: seq<Address>)
    ensures Enumerates(list, StateVisits(state), StateAt(state))
  {
    var x := EnumerateOutputs(state, StateAt(state));
    var y := EnumerateValues(state);
    var z := EnumerateAttributes(state);
    list := ThreeParts(x, OneIf(state, "outputs"),
                       y, if ObjAt(state, "values") then ModuleVisits(state["values"]) else [],
                       z, if ArrAt(state, "resources") then InstanceVisits(state["resources"].items, |state["resources"].items|) else [],
                       StateAt(state));
  }
}
