/** Which nodes an inventory lists and what they say: the nodes at the addresses of a value, of an object
    with the five node fields, and of a whole state. */
module InventoryNodes {
  import opened Text
  import opened StringOrder
  import opened Inventory
  import opened InventoryLaws
  import opened InventoryOrder

  // ---------- One node ----------

  function TextUnder(v: Values, key: string): string {
    if key in v && v[key].Str? then TrimSpace(v[key].s) else ""
  }

  /** The text under the first key that has one, or none. */
  predicate FirstText(v: Values, keys: seq<string>, s: string) {
    || (s == "" && forall i :: 0 <= i < |keys| ==> TextUnder(v, keys[i]) == "")
    || (s != "" && exists i :: 0 <= i < |keys| && TextUnder(v, keys[i]) == s && forall j :: 0 <= j < i ==> TextUnder(v, keys[j]) == "")
  }

  const NAMES: seq<string> := ["name", "id", "hostname"]
  const INTERNALS: seq<string> := ["access_ip_v4", "internal_ip", "fixed_ip", "ip", "private_ip", "address"]
  const EXTERNALS: seq<string> := ["external_ip", "floating_ip", "public_ip"]

  lemma {:induction false} FirstStringIs(v: Values, keys: seq<string>)
    ensures FirstText(v, keys, FirstString(v, keys))
  {
    if keys != [] {
      var s, rest := FirstString(v, keys), keys[1..];
      FirstStringIs(v, rest);
      assert Strings(v, keys)[0] == TextUnder(v, keys[0]) && Strings(v, keys)[1..] == Strings(v, rest);
      if TextUnder(v, keys[0]) == "" {
        assert s == FirstString(v, rest);
        forall i | 0 < i < |keys| ensures keys[i] == rest[i - 1] {
        }
        if s != "" {
          var i :| 0 <= i < |rest| && TextUnder(v, rest[i]) == s && forall j :: 0 <= j < i ==> TextUnder(v, rest[j]) == "";
          assert TextUnder(v, keys[i + 1]) == s;
          assert forall j :: 0 <= j < i + 1 ==> j == 0 || keys[j] == rest[j - 1];
        }
      } else {
        assert TextUnder(v, keys[0]) == s;
      }
    }
  }

  predicate HasKey(v: Values, keys: seq<string>) {
    exists k :: k in keys && k in v
  }

  /** The node an object describes: named by the first name, or else by its first internal address. */
  predicate Describes(v: Values, role: string, n: Node) {
    && FirstText(v, INTERNALS, n.internalIP) && FirstText(v, EXTERNALS, n.externalIP)
    && (FirstText(v, NAMES, n.name) || (FirstText(v, NAMES, "") && n.name == n.internalIP != ""))
    && !(n.name == "" && n.internalIP == "" && n.externalIP == "")
    && (FirstText(v, NAMES, "") && n.internalIP != "" ==> n.name == n.internalIP)
    && n.role == role && n.source == "opentofu_state"
  }

  lemma {:induction false} OneFirstText(v: Values, keys: seq<string>, s: string, t: string)
    requires FirstText(v, keys, s) && FirstText(v, keys, t)
    ensures s == t
  {
  }

  lemma {:induction false} DescribesIff(v: Values, role: string, n: Node)
    ensures NodeFromMap(v, role) == Some(n) <==> Describes(v, role, n)
  {
    FirstStringIs(v, NAMES);
    FirstStringIs(v, INTERNALS);
    FirstStringIs(v, EXTERNALS);
    assert NAMES == NAME_KEYS && INTERNALS == INTERNAL_KEYS && EXTERNALS == EXTERNAL_KEYS;
    forall keys, s, t | FirstText(v, keys, s) && FirstText(v, keys, t) ensures s == t {
      OneFirstText(v, keys, s, t);
    }
  }

  lemma {:induction false} NodeLikeIff(v: Values)
    ensures LooksLikeNode(v) <==> HasKey(v, NAMES) || HasKey(v, INTERNALS) || HasKey(v, EXTERNALS)
  {
    HasAnyIff(v, NAMES);
    HasAnyIff(v, INTERNALS);
    HasAnyIff(v, EXTERNALS);
  }

  lemma HasAnyIff(v: Values, keys: seq<string>)
    ensures HasAny(v, keys) <==> HasKey(v, keys)
  {
    if HasKey(v, keys) {
      var k :| k in keys && k in v;
      var i :| 0 <= i < |keys| && keys[i] == k;
    }
    if i :| 0 <= i < |keys| && keys[i] in v {
      assert keys[i] in keys;
    }
  }

  // ---------- The nodes of a value ----------

  /** The node at an address in a value: reached through lists and objects that are no nodes. */
  function NodeAt(raw: Json, role: string, a: Address): Option<Node>
    decreases raw
  {
    match raw
    case Arr(items) =>
      if a != [] && a[0].Nth? && a[0].n < |items| then NodeAt(items[a[0].n], role, a[1..]) else None
    case Obj(fields) =>
      if LooksLikeNode(fields) then
        if a == [] then NodeFromMap(fields, role) else None
      else if a != [] && a[0].Member? && a[0].key in fields then NodeAt(fields[a[0].key], role, a[1..])
      else None
    case _ => None
  }

  function NodesAt(raw: Json, role: string): Address -> Option<Node> {
    a => NodeAt(raw, role, a)
  }

  ghost predicate InOrder(keys: seq<string>) {
    forall i, j :: 0 <= i < j < |keys| ==> Le(keys[i], keys[j]) && keys[i] != keys[j]
  }

  lemma {:induction false} SortedKeysInOrder(keys: set<string>)
    ensures InOrder(SortedKeys(keys))
  {
    var r := SortedKeys(keys);
    assert multiset(r) == multiset(keys);
    forall i, j | 0 <= i < j < |r| ensures Le(r[i], r[j]) && r[i] != r[j] {
      assert Le(Same(r[i]), Same(r[j]));
      if r[i] == r[j] {
        Double(r, i, j);
      }
    }
  }

  lemma Double(s: seq<string>, i: nat, j: nat)
    requires i < j < |s| && s[i] == s[j]
    ensures multiset(s)[s[i]] >= 2
  {
    assert s == s[..j] + s[j..];
    assert s[i] == s[..j][i] && s[j] == s[j..][0];
    assert s[i] in multiset(s[..j]) && s[i] in multiset(s[j..]);
  }

  /** What is found under the first n keys. */
  function EarlyKeys<T>(at: Address -> Option<T>, keys: seq<string>, n: nat): Address -> Option<T>
    requires n <= |keys|
  {
    (a: Address) => if a != [] && a[0].Member? && a[0].key in keys[..n] then at(a) else None
  }

  lemma {:induction false} OneMoreKey<T(!new)>(l: seq<Address>, f: seq<T>, m: seq<Address>, g: seq<T>, at: Address -> Option<T>,
                                               keys: seq<string>, n: nat)
    requires InOrder(keys) && n < |keys|
    requires Enumerates(l, f, EarlyKeys(at, keys, n)) && Enumerates(m, g, Only(at, Member(keys[n])))
    ensures Enumerates(l + m, f + g, EarlyKeys(at, keys, n + 1))
  {
    var p, q := EarlyKeys(at, keys, n), Only(at, Member(keys[n]));
    assert keys[..n + 1] == keys[..n] + [keys[n]];
    forall a: Address, b: Address | p(a).Some? && q(b).Some? ensures Before(a, b) {
      var i :| 0 <= i < n && keys[..n][i] == a[0].key;
      assert keys[i] == a[0].key;
    }
    forall i | 0 <= i < n ensures keys[..n][i] != keys[n] {
    }
    Together(l, f, p, m, g, q, EarlyKeys(at, keys, n + 1));
  }

  /** The nodes taken from a value are those at its addresses, in document order. */
  lemma {:induction false} EnumerateNodes(raw: Json, role: string) returns (list: seq<Address>)
    ensures Enumerates(list, NodesFrom(raw, role), NodesAt(raw, role))
    decreases raw, 2, 0
  {
    var at := NodesAt(raw, role);
    match raw
    case Arr(items) =>
      list := EnumerateItemNodes(raw, role, |items|);
      AllParts(list, NodesFrom(raw, role), at, |items|);
    case Obj(fields) =>
      if LooksLikeNode(fields) {
        list := EnumerateOwn(fields, role, at);
      } else {
        list := EnumerateMembers(raw, role);
      }
    case _ =>
      NothingFound(at);
      list := [];
  }

  lemma {:induction false} EnumerateMembers(raw: Json, role: string) returns (list: seq<Address>)
    requires raw.Obj? && !LooksLikeNode(raw.fields)
    ensures Enumerates(list, NodesFrom(raw, role), NodesAt(raw, role))
    decreases raw, 1, 0
  {
    var at, keys := NodesAt(raw, role), SortedKeys(raw.fields.Keys);
    SortedKeysInOrder(raw.fields.Keys);
    list := EnumerateKeyNodes(raw, keys, role, |keys|);
    AllKeys(list, KeyNodes(raw, keys, role, |keys|), at, keys);
  }

  lemma {:induction false} AllKeys<T(!new)>(l: seq<Address>, f: seq<T>, at: Address -> Option<T>, keys: seq<string>)
    requires Enumerates(l, f, EarlyKeys(at, keys, |keys|))
    requires forall a: Address :: at(a).Some? ==> a != [] && a[0].Member? && a[0].key in keys
    ensures Enumerates(l, f, at)
  {
    assert keys[..|keys|] == keys;
    forall a: Address ensures EarlyKeys(at, keys, |keys|)(a) == at(a) {
    }
  }

  lemma {:induction false} EnumerateOwn(fields: Values, role: string, at: Address -> Option<Node>) returns (list: seq<Address>)
    requires forall a: Address :: at(a) == if a == [] then NodeFromMap(fields, role) else None
    ensures Enumerates(list, OwnNode(fields, role), at)
  {
    var n := NodeFromMap(fields, role);
    if n.Some? {
      OneFound(at, [], n.value);
      return [[]];
    } else {
      NothingFound(at);
      return [];
    }
  }

  lemma {:induction false} EnumerateItemNodes(raw: Json, role: string, n: nat) returns (list: seq<Address>)
    requires raw.Arr? && n <= |raw.items|
    ensures Enumerates(list, ItemNodes(raw, role, n), Early(NodesAt(raw, role), n))
    decreases raw, 0, n
  {
    var at := NodesAt(raw, role);
    if n == 0 {
      NoParts(at);
      return [];
    }
    var k := n - 1;
    list := EnumerateItemNodes(raw, role, k);
    var l := EnumerateItem(raw, k, role);
    OneMorePart(list, ItemNodes(raw, role, k), l, NodesFrom(raw.items[k], role), at, k);
    list := list + l;
  }

  lemma {:induction false} EnumerateItem(raw: Json, i: nat, role: string) returns (list: seq<Address>)
    requires raw.Arr? && i < |raw.items|
    ensures Enumerates(list, NodesFrom(raw.items[i], role), Only(NodesAt(raw, role), Nth(i)))
    decreases raw, 0, 0
  {
    var item := raw.items[i];
    var l := EnumerateNodes(item, role);
    PartBelow(Nth(i), l, NodesFrom(item, role), NodesAt(item, role), NodesAt(raw, role));
    return Prefixed(Nth(i), l);
  }

  lemma {:induction false} EnumerateKeyNodes(raw: Json, keys: seq<string>, role: string, n: nat) returns (list: seq<Address>)
    requires raw.Obj? && !LooksLikeNode(raw.fields) && n <= |keys|
    requires InOrder(keys) && forall k :: k in keys ==> k in raw.fields
    ensures Enumerates(list, KeyNodes(raw, keys, role, n), EarlyKeys(NodesAt(raw, role), keys, n))
    decreases raw, 0, n
  {
    var at := NodesAt(raw, role);
    if n == 0 {
      NothingFound(EarlyKeys(at, keys, 0));
      return [];
    }
    var k := n - 1;
    list := EnumerateKeyNodes(raw, keys, role, k);
    assert keys[k] in keys;
    var l := EnumerateKey(raw, keys[k], role);
    OneMoreKey(list, KeyNodes(raw, keys, role, k), l, NodesFrom(raw.fields[keys[k]], role), at, keys, k);
    list := list + l;
  }

  lemma {:induction false} EnumerateKey(raw: Json, key: string, role: string) returns (list: seq<Address>)
    requires raw.Obj? && !LooksLikeNode(raw.fields) && key in raw.fields
    ensures Enumerates(list, NodesFrom(raw.fields[key], role), Only(NodesAt(raw, role), Member(key)))
    decreases raw, 0, 0
  {
    var item := raw.fields[key];
    var l := EnumerateNodes(item, role);
    PartBelow(Member(key), l, NodesFrom(item, role), NodesAt(item, role), NodesAt(raw, role));
    return Prefixed(Member(key), l);
  }

  // ---------- The nodes of an object ----------

  /** An output stands for its value. */
  function Unwrapped(v: Values, key: string): Json {
    if key !in v then Null
    else if v[key].Obj? && "value" in v[key].fields then v[key].fields["value"]
    else v[key]
  }

  /** The five fields nodes are read from, and what they are taken for. */
  function NodeField(i: nat): (string, string) {
    if i == 0 then ("master_nodes", "controller")
    else if i == 1 then ("worker_nodes", "worker")
    else if i == 2 then ("windows_nodes", "windows-worker")
    else if i == 3 then ("additional_worker_pools_nodes", "worker")
    else ("additional_worker_pools_windows_nodes", "windows-worker")
  }

  /** The node at an address in an object: the number of the field, and where in its value. */
  function ObjectNode(v: Values, a: Address): Option<Node> {
    if a != [] && a[0].Nth? && a[0].n < 5 then
      NodeAt(Unwrapped(v, NodeField(a[0].n).0), NodeField(a[0].n).1, a[1..])
    else None
  }

  function ObjectNodesAt(v: Values): Address -> Option<Node> {
    a => ObjectNode(v, a)
  }

  ghost function FieldNodes(v: Values, i: nat): seq<Node> {
    NodesFrom(Unwrapped(v, NodeField(i).0), NodeField(i).1)
  }

  lemma UnwrappedIs(v: Values, key: string)
    ensures TerraformValue(Inventory.Field(v, key)) == Unwrapped(v, key)
  {
  }

  lemma {:induction false} NodesOfIs(v: Values)
    ensures NodesOf(v) == FieldNodes(v, 0) + FieldNodes(v, 1) + FieldNodes(v, 2) + FieldNodes(v, 3) + FieldNodes(v, 4)
  {
    UnwrappedIs(v, "master_nodes");
    UnwrappedIs(v, "worker_nodes");
    UnwrappedIs(v, "windows_nodes");
    UnwrappedIs(v, "additional_worker_pools_nodes");
    UnwrappedIs(v, "additional_worker_pools_windows_nodes");
  }

  ghost function UpToField(v: Values, n: nat): seq<Node> {
    if n == 0 then [] else UpToField(v, n - 1) + FieldNodes(v, n - 1)
  }

  lemma {:induction false} EnumerateFields(v: Values, n: nat) returns (list: seq<Address>)
    requires n <= 5
    ensures Enumerates(list, UpToField(v, n), Early(ObjectNodesAt(v), n))
  {
    var at := ObjectNodesAt(v);
    if n == 0 {
      NoParts(at);
      return [];
    }
    var k := n - 1;
    list := EnumerateFields(v, k);
    var raw, role := Unwrapped(v, NodeField(k).0), NodeField(k).1;
    var l := EnumerateNodes(raw, role);
    PartBelow(Nth(k), l, NodesFrom(raw, role), NodesAt(raw, role), at);
    OneMorePart(list, UpToField(v, k), Prefixed(Nth(k), l), FieldNodes(v, k), at, k);
    list := list + Prefixed(Nth(k), l);
  }

  lemma FiveFields(v: Values)
    ensures UpToField(v, 5) == NodesOf(v)
  {
    NodesOfIs(v);
    assert UpToField(v, 1) == FieldNodes(v, 0);
    assert UpToField(v, 3) == FieldNodes(v, 0) + FieldNodes(v, 1) + FieldNodes(v, 2);
  }

  /** The nodes taken from an object are those in its five node fields, field by field. */
  lemma {:induction false} EnumerateObject(v: Values) returns (list: seq<Address>)
    ensures Enumerates(list, NodesOf(v), ObjectNodesAt(v))
  {
    list := EnumerateFields(v, 5);
    FiveFields(v);
    AllParts(list, NodesOf(v), ObjectNodesAt(v), 5);
  }

  lemma {:induction false} ObjectNodesIff(v: Values, n: Node)
    ensures n in NodesOf(v) <==> exists a :: ObjectNode(v, a) == Some(n)
  {
    var list := EnumerateObject(v);
    if n in NodesOf(v) {
      var i :| 0 <= i < |NodesOf(v)| && NodesOf(v)[i] == n;
      assert ObjectNodesAt(v)(list[i]) == Some(n);
      assert ObjectNode(v, list[i]) == Some(n);
    }
    if a :| ObjectNode(v, a) == Some(n) {
      assert ObjectNodesAt(v)(a) == Some(n);
      var i :| 0 <= i < |list| && list[i] == a;
      assert NodesOf(v)[i] == n;
    }
  }

  // ---------- The nodes of a state ----------

  /** Some values of the state have this node at some address. */
  ghost predicate StateHas(state: Values, n: Node) {
    exists b, a :: HasAt(state, b, a, n)
  }

  predicate HasAt(state: Values, b: Address, a: Address, n: Node) {
    StateValue(state, b).Some? && ObjectNode(StateValue(state, b).value, a) == Some(n)
  }

  ghost function Concat<T, U>(s: seq<T>, f: T -> seq<U>): seq<U> {
    if s == [] then [] else Concat(s[..|s| - 1], f) + f(s[|s| - 1])
  }

  lemma {:induction false} ConcatFrom<T, U>(s: seq<T>, f: T -> seq<U>, x: U) returns (i: nat)
    requires x in Concat(s, f)
    ensures i < |s| && x in f(s[i])
  {
    i := |s| - 1;
    if x !in f(s[i]) {
      i := ConcatFrom(s[..i], f, x);
    }
  }

  lemma {:induction false} ConcatHas<T, U>(s: seq<T>, f: T -> seq<U>, i: nat, x: U)
    requires i < |s| && x in f(s[i])
    ensures x in Concat(s, f)
    decreases |s|
  {
    if i < |s| - 1 {
      ConcatHas(s[..|s| - 1], f, i, x);
    }
  }

  ghost function NodesIn(): Values -> seq<Node> {
    v => NodesOf(v)
  }

  lemma {:induction false} MetIsConcat(visits: seq<Values>)
    ensures Met(visits) == Concat(visits, NodesIn())
    decreases |visits|
  {
    if visits != [] {
      var k := |visits| - 1;
      MetIsConcat(visits[..k]);
    }
  }

  /** The nodes met in a state are those at its addresses. */
  lemma {:induction false} StateMetIff(state: Values, n: Node)
    ensures n in Met(StateVisits(state)) <==> StateHas(state, n)
  {
    var visits := StateVisits(state);
    var list := EnumerateState(state);
    MetIsConcat(visits);
    if n in Met(visits) {
      var i := ConcatFrom(visits, NodesIn(), n);
      ObjectNodesIff(visits[i], n);
      var a :| ObjectNode(visits[i], a) == Some(n);
      assert StateAt(state)(list[i]) == Some(visits[i]);
      assert HasAt(state, list[i], a, n);
    }
    if b, a :| HasAt(state, b, a, n) {
      assert StateAt(state)(b).Some?;
      var i :| 0 <= i < |list| && list[i] == b;
      assert StateAt(state)(list[i]) == Some(visits[i]);
      ObjectNodesIff(visits[i], n);
      ConcatHas(visits, NodesIn(), i, n);
    }
  }

  lemma {:induction false} FirstsAreMet(nodes: seq<Node>, n: Node)
    requires n in Firsts(nodes)
    ensures n in nodes
    decreases |nodes|
  {
    var k := |nodes| - 1;
    if n in Firsts(nodes[..k]) {
      FirstsAreMet(nodes[..k], n);
    }
  }

  lemma {:induction false} FirstLike(nodes: seq<Node>, n: Node) returns (m: Node)
    requires n in nodes
    ensures m in Firsts(nodes) && Alike(m, n)
    decreases |nodes|
  {
    var k := |nodes| - 1;
    var before, last := nodes[..k], nodes[k];
    if n in before {
      m := FirstLike(before, n);
    } else if MetBefore(before, last) {
      var i :| 0 <= i < |before| && Alike(before[i], last);
      m := FirstLike(before, before[i]);
    } else {
      m := last;
    }
  }

  /** The inventory of a state free of NUL lists nodes at its addresses alone, and one like every node at
      them. */
  lemma {:induction false} StateNodesIff(state: Values, n: Node)
    requires NulFreeValues(state)
    ensures var nodes := MergeAll(NOTHING, StateVisits(state)).nodes;
      && (n in nodes ==> StateHas(state, n))
      && (StateHas(state, n) ==> exists m :: m in nodes && Alike(m, n))
  {
    StateNodesAreFirstOccurrences(state);
    var met := Met(StateVisits(state));
    StateMetIff(state, n);
    if n in Firsts(met) {
      FirstsAreMet(met, n);
    }
    if StateHas(state, n) {
      var m := FirstLike(met, n);
    }
  }

  // ---------- Network fields ----------

  lemma {:induction false} FirstNonBlankIs(s: seq<string>)
    ensures var t := FirstNonBlank(s);
      || (t == "" && forall i :: 0 <= i < |s| ==> s[i] == "")
      || (t != "" && exists i :: 0 <= i < |s| && s[i] == t && forall j :: 0 <= j < i ==> s[j] == "")
  {
    if s != [] && s[0] == "" {
      var t, rest := FirstNonBlank(s), s[1..];
      FirstNonBlankIs(rest);
      if t != "" {
        var i :| 0 <= i < |rest| && rest[i] == t && forall j :: 0 <= j < i ==> rest[j] == "";
        assert s[i + 1] == t && forall j :: 0 < j < i + 1 ==> s[j] == rest[j - 1];
      }
    } else if s != [] {
      assert s[0] == FirstNonBlank(s);
    }
  }

  /** What a key offers: its text, blank if it holds none; nothing if it is not there. */
  function OfferUnder(v: Values): string -> seq<string> {
    key =>
      if key !in v then []
      else if Unwrapped(v, key).Str? then [TrimSpace(Unwrapped(v, key).s)]
      else [""]
  }

  lemma {:induction false} OffersAre(v: Values, keys: seq<string>)
    ensures Offers(v, keys) == Concat(keys, OfferUnder(v))
    decreases |keys|
  {
    if keys != [] {
      var k := |keys| - 1;
      OffersAre(v, keys[..k]);
      if keys[k] in v {
        UnwrappedIs(v, keys[k]);
      }
    }
  }

  ghost function OffersIn(keys: seq<string>): Values -> seq<string> {
    v => Concat(keys, OfferUnder(v))
  }

  lemma {:induction false} AllOffersAre(visits: seq<Values>, keys: seq<string>)
    ensures AllOffers(visits, keys) == Concat(visits, OffersIn(keys))
    decreases |visits|
  {
    if visits != [] {
      var k := |visits| - 1;
      AllOffersAre(visits[..k], keys);
      OffersAre(visits[k], keys);
    }
  }

  const APIS: seq<string> := ["k8s_api_ip", "api_vip"]
  const VIPS: seq<string> := ["k8s_internal_ip", "internal_vip", "vrrp_ip"]
  const BASTIONS: seq<string> := ["bastion_floating_ip", "address_bastion"]

  /** Each network field is the first text that is not blank, among those offered under its keys by the
      values met. */
  lemma {:induction false} NetworkFields(visits: seq<Values>)
    ensures var f := MergeAll(NOTHING, visits);
      && f.apiVIP == FirstNonBlank(Concat(visits, OffersIn(APIS)))
      && f.internalVIP == FirstNonBlank(Concat(visits, OffersIn(VIPS)))
      && f.bastion == FirstNonBlank(Concat(visits, OffersIn(BASTIONS)))
  {
    FieldsAreFirst(visits);
    assert APIS == API_KEYS && VIPS == VIP_KEYS && BASTIONS == BASTION_KEYS;
    AllOffersAre(visits, APIS);
    AllOffersAre(visits, VIPS);
    AllOffersAre(visits, BASTIONS);
  }
}
