/** What each item of a drift report says: which item stands for which difference, how often, with which
    values, and how severe it is. */
module DriftItems {
  import opened Text
  import opened Numerals
  import opened StringOrder
  import opened KeyedSums
  import opened Drift
  import opened DriftRules

  // ---------- Counting ----------

  lemma {:induction false} SumLacks<K(!new), T(!new)>(keys: set<K>, f: K -> multiset<T>, x: T)
    requires forall k :: k in keys ==> x !in f(k)
    ensures x !in SumOver(keys, f)
    decreases |keys|
  {
    if keys != {} {
      var k :| k in keys;
      SumPick(keys, f, k);
      SumLacks(keys - {k}, f, x);
    }
  }

  /** An element that one key alone can add is there as often as that key adds it. */
  lemma {:induction false} SumCount<K(!new), T(!new)>(keys: set<K>, f: K -> multiset<T>, x: T, only: K)
    requires forall k :: k in keys && k != only ==> x !in f(k)
    ensures SumOver(keys, f)[x] == if only in keys then f(only)[x] else 0
  {
    if only in keys {
      SumPick(keys, f, only);
      SumLacks(keys - {only}, f, x);
    } else {
      SumLacks(keys, f, x);
    }
  }

  ghost predicate OnlyFrom<T(!new)>(missing: (string, T) -> DriftItem, pair: (string, T, T) -> multiset<DriftItem>,
                                    extra: (string, T) -> DriftItem, x: DriftItem, key: string)
  {
    && (forall k, d :: k != key ==> x != missing(k, d))
    && (forall k, d, a :: k != key ==> x !in pair(k, d, a))
    && (forall k, a :: k != key ==> x != extra(k, a))
  }

  function One(b: bool): nat {
    if b then 1 else 0
  }

  /** The same for all items about one kind of resource. */
  lemma {:induction false} TotalCount<T(!new)>(dm: map<string, T>, am: map<string, T>, missing: (string, T) -> DriftItem,
                                               pair: (string, T, T) -> multiset<DriftItem>, extra: (string, T) -> DriftItem,
                                               x: DriftItem, key: string)
    requires OnlyFrom(missing, pair, extra, x, key)
    ensures Total(dm, am, missing, pair, extra)[x] ==
            if key in dm && key in am then pair(key, dm[key], am[key])[x]
            else if key in dm then One(x == missing(key, dm[key]))
            else if key in am then One(x == extra(key, am[key]))
            else 0
  {
    WantedCount(dm, am, missing, pair, extra, x, key);
    SurplusCount(dm, am, missing, pair, extra, x, key);
  }

  lemma {:induction false} WantedCount<T(!new)>(dm: map<string, T>, am: map<string, T>, missing: (string, T) -> DriftItem,
                                                pair: (string, T, T) -> multiset<DriftItem>, extra: (string, T) -> DriftItem,
                                                x: DriftItem, key: string)
    requires OnlyFrom(missing, pair, extra, x, key)
    ensures SumOver(dm.Keys, Wanted(dm, am, missing, pair))[x] ==
            if key in dm && key in am then pair(key, dm[key], am[key])[x]
            else if key in dm then One(x == missing(key, dm[key]))
            else 0
  {
    var f := Wanted(dm, am, missing, pair);
    forall k | k in dm.Keys && k != key ensures x !in f(k) {
      assert f(k) == WantedAt(dm, am, missing, pair, k);
    }
    SumCount(dm.Keys, f, x, key);
    assert f(key) == WantedAt(dm, am, missing, pair, key);
  }

  lemma {:induction false} SurplusCount<T(!new)>(dm: map<string, T>, am: map<string, T>, missing: (string, T) -> DriftItem,
                                                 pair: (string, T, T) -> multiset<DriftItem>, extra: (string, T) -> DriftItem,
                                                 x: DriftItem, key: string)
    requires OnlyFrom(missing, pair, extra, x, key)
    ensures SumOver(am.Keys, Surplus(dm, am, extra))[x] == One(key in am && key !in dm && x == extra(key, am[key]))
  {
    var g := Surplus(dm, am, extra);
    forall k | k in am.Keys && k != key ensures x !in g(k) {
      assert g(k) == SurplusAt(dm, am, extra, k);
    }
    SumCount(am.Keys, g, x, key);
    assert g(key) == SurplusAt(dm, am, extra, key);
  }

  // ---------- What items look like ----------

  predicate SaysMissing(x: DriftItem, field: FieldName, id: string, severity: Severity) {
    && x.field == field && x.resourceID == id && x.expected == Exists && x.actual == Absent
    && x.severity == severity && !x.reconcilable
  }

  predicate SaysUnexpected(x: DriftItem, field: FieldName, id: string) {
    && x.field == field && x.resourceID == id && x.expected == NotExists && x.actual == Exists
    && x.severity == Warning && !x.reconcilable
  }

  /** Both texts are given, and they differ. */
  predicate SaysDiffer(x: DriftItem, desired: string, actual: string, severity: Severity) {
    && desired != "" && actual != "" && desired != actual
    && x.expected == Str(desired) && x.actual == Str(actual) && x.severity == severity && !x.reconcilable
  }

  /** The same up to case. */
  predicate SaysDifferFold(x: DriftItem, desired: string, actual: string, severity: Severity) {
    SaysDiffer(x, desired, actual, severity) && !EqualFold(desired, actual)
  }

  // ---------- Servers ----------

  predicate HasRole(s: Server, role: string) {
    "role" in s.tags && ToLower(s.tags["role"]) == role
  }

  /** A server of the control plane. */
  predicate IsControl(s: Server) {
    HasRole(s, "control-plane") || HasRole(s, "master")
  }

  function TagOf(s: Server, k: string): string {
    if k in s.tags then s.tags[k] else ""
  }

  predicate ServerPairSays(x: DriftItem, d: Server, a: Server) {
    && x.resourceID == a.id
    && match x.field
       case Flavor => SaysDiffer(x, d.flavor, a.flavor, Critical)
       case Image => SaysDiffer(x, d.image, a.image, Critical)
       case Status =>
         && a.status != "" && !EqualFold(a.status, "ACTIVE")
         && x.expected == Str("ACTIVE") && x.actual == Str(a.status) && x.severity == Critical && !x.reconcilable
       case Tag(k) =>
         && k in d.tags && d.tags[k] != TagOf(a, k)
         && x.expected == Str(d.tags[k]) && x.actual == Str(TagOf(a, k)) && x.severity == Info && x.reconcilable
       case Networks =>
         && d.networks != [] && !EqualStringSets(d.networks, a.networks)
         && x.expected == List(SortStrings(d.networks)) && x.actual == List(SortStrings(a.networks))
         && x.severity == Warning && !x.reconcilable
       case _ => false
  }

  predicate ServersSay(x: DriftItem, dm: map<string, Server>, am: map<string, Server>) {
    var k := x.resourceName;
    && x.resourceType == ServerKind
    && if k in dm && k in am then ServerPairSays(x, dm[k], am[k])
       else if k in dm then SaysMissing(x, Existence, dm[k].id, if IsControl(dm[k]) then Critical else Warning)
       else k in am && SaysUnexpected(x, Existence, am[k].id)
  }

  lemma WhenCount(b: bool, item: DriftItem, x: DriftItem)
    ensures When(b, item)[x] == One(b && x == item)
  {
  }

  predicate About(x: DriftItem, kind: Kind, key: string, id: string) {
    x.resourceType == kind && x.resourceName == key && x.resourceID == id
  }

  lemma TagAtCount(key: string, d: Server, a: Server, k: string, x: DriftItem)
    requires k in d.tags
    ensures TagDriftAt(key, d, a, k)[x] == One(About(x, ServerKind, key, a.id) && x.field == Tag(k) && ServerPairSays(x, d, a))
  {
    var expected, actual := Lookup(d.tags, k), Lookup(a.tags, k);
    WhenCount(actual != expected, ServerItem(key, a, Tag(k), Str(expected), Str(actual), Info, true), x);
  }

  lemma {:induction false} TagCount(key: string, d: Server, a: Server, x: DriftItem)
    ensures SumOver(d.tags.Keys, TagDrift(key, d, a))[x]
         == One(About(x, ServerKind, key, a.id) && x.field.Tag? && ServerPairSays(x, d, a))
  {
    var f := TagDrift(key, d, a);
    var only := if x.field.Tag? then x.field.key else "";
    forall k | k in d.tags.Keys ensures f(k)[x] == One(About(x, ServerKind, key, a.id) && x.field == Tag(k) && ServerPairSays(x, d, a)) {
      assert f(k) == TagDriftAt(key, d, a, k);
      TagAtCount(key, d, a, k, x);
    }
    SumCount(d.tags.Keys, f, x, only);
  }

  lemma FlavorCount(key: string, d: Server, a: Server, x: DriftItem)
    ensures FlavorDrift(key, d, a)[x] == One(About(x, ServerKind, key, a.id) && x.field == Flavor && ServerPairSays(x, d, a))
  {
  }

  lemma ImageCount(key: string, d: Server, a: Server, x: DriftItem)
    ensures ImageDrift(key, d, a)[x] == One(About(x, ServerKind, key, a.id) && x.field == Image && ServerPairSays(x, d, a))
  {
  }

  lemma StatusCount(key: string, d: Server, a: Server, x: DriftItem)
    ensures StatusDrift(key, a)[x] == One(About(x, ServerKind, key, a.id) && x.field == Status && ServerPairSays(x, d, a))
  {
  }

  lemma OwnCount(key: string, d: Server, a: Server, x: DriftItem)
    ensures OwnDrift(key, d, a)[x]
         == One(About(x, ServerKind, key, a.id) && x.field in {Flavor, Image, Status} && ServerPairSays(x, d, a))
  {
    FlavorCount(key, d, a, x);
    ImageCount(key, d, a, x);
    StatusCount(key, d, a, x);
    ThreeParts(FlavorDrift(key, d, a), ImageDrift(key, d, a), StatusDrift(key, a), x);
  }

  lemma ItemCount(b: bool, kind: Kind, key: string, id: string, field: FieldName, expected: Shown, actual: Shown,
                  severity: Severity, reconcilable: bool, x: DriftItem)
    ensures When(b, DriftItem(kind, id, key, field, expected, actual, severity, reconcilable))[x]
         == One(b && About(x, kind, key, id) && x.field == field && x.expected == expected && x.actual == actual
                && x.severity == severity && x.reconcilable == reconcilable)
  {
  }

  lemma AttachedCount(key: string, d: Server, a: Server, x: DriftItem)
    ensures AttachedDrift(key, d, a)[x] == One(About(x, ServerKind, key, a.id) && x.field == Networks && ServerPairSays(x, d, a))
  {
    ItemCount(d.networks != [] && !EqualStringSets(d.networks, a.networks), ServerKind, key, a.id, Networks,
              List(SortStrings(d.networks)), List(SortStrings(a.networks)), Warning, false, x);
  }

  lemma ThreeParts<T>(a: multiset<T>, b: multiset<T>, c: multiset<T>, x: T)
    ensures (a + b + c)[x] == a[x] + b[x] + c[x]
  {
  }

  lemma {:induction false} ServerPairCount(key: string, d: Server, a: Server, x: DriftItem)
    ensures ServerDrift(key, d, a)[x] == One(x.resourceType == ServerKind && x.resourceName == key && ServerPairSays(x, d, a))
  {
    OwnCount(key, d, a, x);
    TagCount(key, d, a, x);
    AttachedCount(key, d, a, x);
    ThreeParts(OwnDrift(key, d, a), SumOver(d.tags.Keys, TagDrift(key, d, a)), AttachedDrift(key, d, a), x);
  }

  /** A missing server is critical exactly if its role is control-plane or master, up to case. */
  lemma RoleDecides(s: Server)
    ensures MissingServerSeverity(s) == if IsControl(s) then Critical else Warning
  {
  }

  /** The items about servers are those that say so, each once. */
  lemma {:induction false} ServersCount(d: seq<Server>, a: seq<Server>, x: DriftItem)
    ensures ServerDrifts(d, a)[x] == One(ServersSay(x, Keyed(d, ServerKey), Keyed(a, ServerKey)))
  {
    var dm, am, key := Keyed(d, ServerKey), Keyed(a, ServerKey), x.resourceName;
    forall k, d: Server, a: Server | k != key ensures x !in ServerDrift(k, d, a) {
      ServerPairCount(k, d, a, x);
    }
    TotalCount(dm, am, ServerMissing, ServerDrift, ServerExtra, x, key);
    if key in dm {
      RoleDecides(dm[key]);
      if key in am {
        ServerPairCount(key, dm[key], am[key], x);
      }
    }
  }

  // ---------- Networks ----------

  /** One network pair: its own range, or one of the subnets. */
  predicate NetworkPairSays(x: DriftItem, d: Network, a: Network) {
    && x.resourceID == a.id
    && match x.field
       case CIDR => SaysDiffer(x, d.cidr, a.cidr, Critical)
       case SubnetExistence(k) => SubnetsSay(x, k, Keyed(d.subnets, SubnetKey), Keyed(a.subnets, SubnetKey))
       case SubnetCIDR(k) => SubnetsSay(x, k, Keyed(d.subnets, SubnetKey), Keyed(a.subnets, SubnetKey))
       case _ => false
  }

  predicate SubnetsSay(x: DriftItem, k: string, dm: map<string, Subnet>, am: map<string, Subnet>) {
    if k in dm && k in am then x.field == SubnetCIDR(k) && SaysDiffer(x, dm[k].cidr, am[k].cidr, Critical)
    else if k in dm then SaysMissing(x, SubnetExistence(k), x.resourceID, Critical)
    else k in am && SaysUnexpected(x, SubnetExistence(k), x.resourceID)
  }

  predicate NetworksSay(x: DriftItem, dm: map<string, Network>, am: map<string, Network>) {
    var k := x.resourceName;
    && x.resourceType == NetworkKind
    && if k in dm && k in am then NetworkPairSays(x, dm[k], am[k])
       else if k in dm then SaysMissing(x, Existence, dm[k].id, Critical)
       else k in am && SaysUnexpected(x, Existence, am[k].id)
  }

  function SubnetOf(field: FieldName): string {
    match field
    case SubnetExistence(k) => k
    case SubnetCIDR(k) => k
    case _ => ""
  }

  predicate OfSubnet(field: FieldName) {
    field.SubnetExistence? || field.SubnetCIDR?
  }

  lemma {:induction false} SubnetsCount(name: string, id: string, d: seq<Subnet>, a: seq<Subnet>, x: DriftItem)
    ensures SubnetDrifts(name, id, d, a)[x]
         == One(About(x, NetworkKind, name, id) && OfSubnet(x.field) && SubnetsSay(x, SubnetOf(x.field), Keyed(d, SubnetKey), Keyed(a, SubnetKey)))
  {
    var key := SubnetOf(x.field);
    var missing, pair, extra := SubnetMissing(name, id), SubnetDrift(name, id), SubnetExtra(name, id);
    forall k, d: Subnet, a: Subnet
      ensures pair(k, d, a)[x] == One(About(x, NetworkKind, name, id) && x.field == SubnetCIDR(k) && SaysDiffer(x, d.cidr, a.cidr, Critical))
    {
      assert pair(k, d, a) == SubnetPair(name, id, k, d, a);
    }
    TotalCount(Keyed(d, SubnetKey), Keyed(a, SubnetKey), missing, pair, extra, x, key);
  }

  lemma {:induction false} NetworkPairCount(key: string, d: Network, a: Network, x: DriftItem)
    ensures NetworkDrift(key, d, a)[x] == One(x.resourceType == NetworkKind && x.resourceName == key && NetworkPairSays(x, d, a))
  {
    SubnetsCount(key, a.id, d.subnets, a.subnets, x);
  }

  /** The items about networks are those that say so, each once. */
  lemma {:induction false} NetworksCount(d: seq<Network>, a: seq<Network>, x: DriftItem)
    ensures NetworkDrifts(d, a)[x] == One(NetworksSay(x, Keyed(d, NetworkKey), Keyed(a, NetworkKey)))
  {
    var dm, am, key := Keyed(d, NetworkKey), Keyed(a, NetworkKey), x.resourceName;
    forall k, d: Network, a: Network | k != key ensures x !in NetworkDrift(k, d, a) {
      NetworkPairCount(k, d, a, x);
    }
    TotalCount(dm, am, NetworkMissing, NetworkDrift, NetworkExtra, x, key);
    if key in dm && key in am {
      NetworkPairCount(key, dm[key], am[key], x);
    }
  }

  // ---------- Security groups ----------

  /** A range of ports written with a dash, with the API port in it. */
  predicate RangeAt(ports: string, i: nat, lo: int, hi: int) {
    && i < |ports| && ports[i] == '-' && '-' !in ports[..i]
    && Numeral(ports[..i], lo) && Numeral(ports[i + 1..], hi)
    && InRange(lo, 64) && InRange(hi, 64) && lo <= 6443 <= hi
  }

  /** All ports, the API port, or a range with it. */
  ghost predicate ReachesAPI(ports: string) {
    || ports == "" || ports == "*"
    || ('-' !in ports && Numeral(ports, 6443))
    || InSomeRange(ports)
  }

  /** Anybody may reach the API. */
  ghost predicate OpensAPI(r: SecurityRule) {
    && Inward(r.direction)
    && (TrimSpace(r.remoteIP) == "0.0.0.0/0" || TrimSpace(r.remoteIP) == "::/0")
    && ReachesAPI(TrimSpace(r.portRange))
  }

  predicate SharedBy(r: SecurityRule, rules: seq<SecurityRule>) {
    exists s :: s in rules && Normalize(s) == Normalize(r)
  }

  /** A desired rule is missing. */
  predicate LacksRule(d: SecurityGroup, a: SecurityGroup) {
    exists r :: r in d.rules && !SharedBy(r, a.rules)
  }

  ghost predicate LacksOpening(d: SecurityGroup, a: SecurityGroup) {
    exists r :: r in d.rules && !SharedBy(r, a.rules) && OpensAPI(r)
  }

  ghost predicate GroupPairSays(x: DriftItem, d: SecurityGroup, a: SecurityGroup) {
    && x.resourceID == a.id && x.field == RuleSet
    && d.rules != [] && (LacksRule(d, a) || LacksOpening(a, d))
    && x.expected == Rules(d.rules) && x.actual == Rules(a.rules) && x.reconcilable
    && x.severity == if LacksOpening(d, a) || LacksOpening(a, d) then Critical else Warning
  }

  ghost predicate GroupsSay(x: DriftItem, dm: map<string, SecurityGroup>, am: map<string, SecurityGroup>) {
    var k := x.resourceName;
    && x.resourceType == SecurityGroupKind
    && if k in dm && k in am then GroupPairSays(x, dm[k], am[k])
       else if k in dm then SaysMissing(x, Existence, dm[k].id, Critical)
       else k in am && SaysUnexpected(x, Existence, am[k].id)
  }

  lemma {:induction false} ReachesIff(ports: string)
    ensures CoversAPIPort(ports) <==> ReachesAPI(ports)
  {
    var dash := IndexOf(ports, '-');
    ParseIntIff(ports, 64, 6443);
    InRange6443();
    if dash < |ports| {
      RangeIff(ports, dash);
    }
  }

  ghost predicate InSomeRange(ports: string) {
    exists i: nat, lo: int, hi: int :: RangeAt(ports, i, lo, hi)
  }

  lemma {:induction false} RangeIff(ports: string, dash: nat)
    requires dash == IndexOf(ports, '-') < |ports|
    ensures var lo, hi := ParseInt(ports[..dash], 64), ParseInt(ports[dash + 1..], 64);
      InSomeRange(ports) <==> lo.Some? && hi.Some? && lo.value <= 6443 <= hi.value
  {
    var lo, hi := ParseInt(ports[..dash], 64), ParseInt(ports[dash + 1..], 64);
    if lo.Some? && hi.Some? && lo.value <= 6443 <= hi.value {
      ParseIntIff(ports[..dash], 64, lo.value);
      ParseIntIff(ports[dash + 1..], 64, hi.value);
      assert RangeAt(ports, dash, lo.value, hi.value);
    }
    if i: nat, x: int, y: int :| RangeAt(ports, i, x, y) {
      FirstDash(ports, i);
      ParseIntIff(ports[..dash], 64, x);
      ParseIntIff(ports[dash + 1..], 64, y);
    }
  }

  lemma InRange6443()
    ensures InRange(6443, 64)
  {
    assert Pow2(13) == 8192;
    PowGrows(13, 63);
  }

  lemma {:induction false} PowGrows(a: nat, b: nat)
    requires a <= b
    ensures Pow2(a) <= Pow2(b)
    decreases b
  {
    if a < b {
      PowGrows(a, b - 1);
    }
  }

  lemma {:induction false} FirstDash(s: string, i: nat)
    requires i < |s| && s[i] == '-' && '-' !in s[..i]
    ensures IndexOf(s, '-') == i
  {
    if i > 0 {
      assert s[..i][0] == s[0] && s[1..][..i - 1] == s[..i][1..];
      FirstDash(s[1..], i - 1);
    }
  }

  /** Small letters stay. */
  lemma {:induction false} LowerStays(s: string)
    requires forall i :: 0 <= i < |s| ==> !('A' <= s[i] <= 'Z')
    ensures ToLower(s) == s
  {
    if s != [] {
      LowerStays(s[1..]);
      assert s == [s[0]] + s[1..];
    }
  }

  predicate Inward(direction: string) {
    ToLower(direction) == "ingress"
  }

  lemma InwardIff(direction: string)
    ensures EqualFold(direction, INGRESS) <==> Inward(direction)
  {
    LowerStays(INGRESS);
  }

  lemma OpensIff(r: SecurityRule)
    ensures HighRisk(r) <==> OpensAPI(r)
  {
    InwardIff(r.direction);
    ReachesIff(TrimSpace(r.portRange));
  }

  lemma {:induction false} SharedIff(r: SecurityRule, rules: seq<SecurityRule>)
    ensures Normalize(r) in Normals(rules) <==> SharedBy(r, rules)
  {
    ValuesAre(rules, Normalize, Normalize(r));
  }

  lemma {:induction false} WithoutIs(rules: seq<SecurityRule>, others: seq<SecurityRule>, riskyOnly: bool, r: SecurityRule)
    ensures r in Without(rules, Normals(others), riskyOnly)
       <==> r in rules && !SharedBy(r, others) && (riskyOnly ==> OpensAPI(r))
  {
    var keep := Keep(Normals(others), riskyOnly);
    Filtered(rules, keep);
    SharedIff(r, others);
    OpensIff(r);
    assert keep(r) == KeepRule(Normals(others), riskyOnly, r);
  }

  lemma {:induction false} AnyIff(rules: seq<SecurityRule>)
    ensures AnyHighRisk(rules) <==> exists r :: r in rules && OpensAPI(r)
  {
    FilterNothing(rules, HighRisk);
    forall r | r in rules ensures HighRisk(r) <==> OpensAPI(r) {
      OpensIff(r);
    }
  }

  lemma {:induction false} MissingIs(d: SecurityGroup, a: SecurityGroup)
    ensures var missing := MissingRules(d.rules, a.rules);
      && (missing != [] <==> LacksRule(d, a)) && (AnyHighRisk(missing) <==> LacksOpening(d, a))
  {
    var missing := MissingRules(d.rules, a.rules);
    forall r ensures r in missing <==> r in d.rules && !SharedBy(r, a.rules) {
      WithoutIs(d.rules, a.rules, false, r);
    }
    AnyIff(missing);
    assert missing != [] ==> missing[0] in missing;
  }

  lemma {:induction false} ExtraIs(d: SecurityGroup, a: SecurityGroup)
    ensures var extra := RiskyExtra(d.rules, a.rules);
      && (extra != [] <==> LacksOpening(a, d)) && (AnyHighRisk(extra) <==> LacksOpening(a, d))
  {
    var extra := RiskyExtra(d.rules, a.rules);
    forall r ensures r in extra <==> r in a.rules && !SharedBy(r, d.rules) && OpensAPI(r) {
      WithoutIs(a.rules, d.rules, true, r);
    }
    AnyIff(extra);
    assert extra != [] ==> extra[0] in extra;
  }

  lemma SeverityIs(d: SecurityGroup, a: SecurityGroup)
    ensures RulesSeverity(MissingRules(d.rules, a.rules), RiskyExtra(d.rules, a.rules))
         == if LacksOpening(d, a) || LacksOpening(a, d) then Critical else Warning
  {
    MissingIs(d, a);
    ExtraIs(d, a);
  }

  lemma {:induction false} GroupPairCount(key: string, d: SecurityGroup, a: SecurityGroup, x: DriftItem)
    ensures SecurityGroupDrift(key, d, a)[x]
         == One(x.resourceType == SecurityGroupKind && x.resourceName == key && GroupPairSays(x, d, a))
  {
    MissingIs(d, a);
    ExtraIs(d, a);
    SeverityIs(d, a);
    var missing, extra := MissingRules(d.rules, a.rules), RiskyExtra(d.rules, a.rules);
    ItemCount(d.rules != [] && (missing != [] || extra != []), SecurityGroupKind, key, a.id, RuleSet,
              Rules(d.rules), Rules(a.rules), RulesSeverity(missing, extra), true, x);
  }

  /** The items about security groups are those that say so, each once. */
  lemma {:induction false} GroupsCount(d: seq<SecurityGroup>, a: seq<SecurityGroup>, x: DriftItem)
    ensures SecurityGroupDrifts(d, a)[x] == One(GroupsSay(x, Keyed(d, SecurityGroupKey), Keyed(a, SecurityGroupKey)))
  {
    var dm, am, key := Keyed(d, SecurityGroupKey), Keyed(a, SecurityGroupKey), x.resourceName;
    forall k, d: SecurityGroup, a: SecurityGroup | k != key ensures x !in SecurityGroupDrift(k, d, a) {
      GroupPairCount(k, d, a, x);
    }
    TotalCount(dm, am, SecurityGroupMissing, SecurityGroupDrift, SecurityGroupExtra, x, key);
    if key in dm && key in am {
      GroupPairCount(key, dm[key], am[key], x);
    }
  }

  // ---------- Load balancers ----------

  predicate BalancerPairSays(x: DriftItem, d: LoadBalancer, a: LoadBalancer) {
    && x.resourceID == a.id
    && match x.field
       case Protocol => SaysDiffer(x, d.protocol, a.protocol, Critical)
       case Port =>
         && d.port != 0 && a.port != 0 && d.port != a.port
         && x.expected == Number(d.port) && x.actual == Number(a.port) && x.severity == Critical && !x.reconcilable
       case VIP => SaysDiffer(x, d.vip, a.vip, Critical)
       case Members =>
         && d.members != [] && !EqualStringSets(d.members, a.members)
         && x.expected == List(SortStrings(d.members)) && x.actual == List(SortStrings(a.members))
         && x.severity == Warning && x.reconcilable
       case _ => false
  }

  predicate BalancersSay(x: DriftItem, dm: map<string, LoadBalancer>, am: map<string, LoadBalancer>) {
    var k := x.resourceName;
    && x.resourceType == LoadBalancerKind
    && if k in dm && k in am then BalancerPairSays(x, dm[k], am[k])
       else if k in dm then SaysMissing(x, Existence, dm[k].id, Critical)
       else k in am && SaysUnexpected(x, Existence, am[k].id)
  }

  lemma ProtocolCount(key: string, d: LoadBalancer, a: LoadBalancer, x: DriftItem)
    ensures ProtocolDrift(key, d, a)[x] == One(About(x, LoadBalancerKind, key, a.id) && x.field == Protocol && BalancerPairSays(x, d, a))
  {
  }

  lemma PortCount(key: string, d: LoadBalancer, a: LoadBalancer, x: DriftItem)
    ensures PortDrift(key, d, a)[x] == One(About(x, LoadBalancerKind, key, a.id) && x.field == Port && BalancerPairSays(x, d, a))
  {
  }

  lemma VIPCount(key: string, d: LoadBalancer, a: LoadBalancer, x: DriftItem)
    ensures VIPDrift(key, d, a)[x] == One(About(x, LoadBalancerKind, key, a.id) && x.field == VIP && BalancerPairSays(x, d, a))
  {
  }

  lemma MembersCount(key: string, d: LoadBalancer, a: LoadBalancer, x: DriftItem)
    ensures MembersDrift(key, d, a)[x] == One(About(x, LoadBalancerKind, key, a.id) && x.field == Members && BalancerPairSays(x, d, a))
  {
    ItemCount(d.members != [] && !EqualStringSets(d.members, a.members), LoadBalancerKind, key, a.id, Members,
              List(SortStrings(d.members)), List(SortStrings(a.members)), Warning, true, x);
  }

  lemma {:induction false} BalancerPairCount(key: string, d: LoadBalancer, a: LoadBalancer, x: DriftItem)
    ensures LoadBalancerDrift(key, d, a)[x]
         == One(x.resourceType == LoadBalancerKind && x.resourceName == key && BalancerPairSays(x, d, a))
  {
    ProtocolCount(key, d, a, x);
    PortCount(key, d, a, x);
    VIPCount(key, d, a, x);
    MembersCount(key, d, a, x);
    ThreeParts(ProtocolDrift(key, d, a), PortDrift(key, d, a), VIPDrift(key, d, a), x);
  }

  /** The items about load balancers are those that say so, each once. */
  lemma {:induction false} BalancersCount(d: seq<LoadBalancer>, a: seq<LoadBalancer>, x: DriftItem)
    ensures LoadBalancerDrifts(d, a)[x] == One(BalancersSay(x, Keyed(d, LoadBalancerKey), Keyed(a, LoadBalancerKey)))
  {
    var dm, am, key := Keyed(d, LoadBalancerKey), Keyed(a, LoadBalancerKey), x.resourceName;
    forall k, d: LoadBalancer, a: LoadBalancer | k != key ensures x !in LoadBalancerDrift(k, d, a) {
      BalancerPairCount(k, d, a, x);
    }
    TotalCount(dm, am, LoadBalancerMissing, LoadBalancerDrift, LoadBalancerExtra, x, key);
    if key in dm && key in am {
      BalancerPairCount(key, dm[key], am[key], x);
    }
  }

  // ---------- Volumes ----------

  predicate VolumePairSays(x: DriftItem, d: Volume, a: Volume) {
    && x.resourceID == a.id
    && match x.field
       case Size =>
         && d.size > 0 && a.size > 0 && d.size != a.size
         && x.expected == Number(d.size) && x.actual == Number(a.size) && x.severity == Warning && !x.reconcilable
       case Status => SaysDifferFold(x, d.status, a.status, Critical)
       case AttachedTo => SaysDiffer(x, d.attachedTo, a.attachedTo, Critical)
       case _ => false
  }

  predicate VolumesSay(x: DriftItem, dm: map<string, Volume>, am: map<string, Volume>) {
    var k := x.resourceName;
    && x.resourceType == VolumeKind
    && if k in dm && k in am then VolumePairSays(x, dm[k], am[k])
       else if k in dm then SaysMissing(x, Existence, dm[k].id, Critical)
       else k in am && SaysUnexpected(x, Existence, am[k].id)
  }

  lemma SizeCount(key: string, d: Volume, a: Volume, x: DriftItem)
    ensures SizeDrift(key, d, a)[x] == One(About(x, VolumeKind, key, a.id) && x.field == Size && VolumePairSays(x, d, a))
  {
  }

  lemma VolumeStatusCount(key: string, d: Volume, a: Volume, x: DriftItem)
    ensures VolumeStatusDrift(key, d, a)[x] == One(About(x, VolumeKind, key, a.id) && x.field == Status && VolumePairSays(x, d, a))
  {
  }

  lemma AttachmentCount(key: string, d: Volume, a: Volume, x: DriftItem)
    ensures AttachmentDrift(key, d, a)[x] == One(About(x, VolumeKind, key, a.id) && x.field == AttachedTo && VolumePairSays(x, d, a))
  {
  }

  lemma {:induction false} VolumePairCount(key: string, d: Volume, a: Volume, x: DriftItem)
    ensures VolumeDrift(key, d, a)[x] == One(x.resourceType == VolumeKind && x.resourceName == key && VolumePairSays(x, d, a))
  {
    SizeCount(key, d, a, x);
    VolumeStatusCount(key, d, a, x);
    AttachmentCount(key, d, a, x);
    ThreeParts(SizeDrift(key, d, a), VolumeStatusDrift(key, d, a), AttachmentDrift(key, d, a), x);
  }

  /** The items about volumes are those that say so, each once. */
  lemma {:induction false} VolumesCount(d: seq<Volume>, a: seq<Volume>, x: DriftItem)
    ensures VolumeDrifts(d, a)[x] == One(VolumesSay(x, Keyed(d, VolumeKey), Keyed(a, VolumeKey)))
  {
    var dm, am, key := Keyed(d, VolumeKey), Keyed(a, VolumeKey), x.resourceName;
    forall k, d: Volume, a: Volume | k != key ensures x !in VolumeDrift(k, d, a) {
      VolumePairCount(k, d, a, x);
    }
    TotalCount(dm, am, VolumeMissing, VolumeDrift, VolumeExtra, x, key);
    if key in dm && key in am {
      VolumePairCount(key, dm[key], am[key], x);
    }
  }

  // ---------- Floating IPs ----------

  /** The two lists differ in length. */
  predicate CountSays(x: DriftItem, desired: nat, actual: nat) {
    && desired != actual
    && x == DriftItem(FloatingIPKind, "", "cluster-floating-ips", Count, Number(desired), Number(actual), Critical, false)
  }

  function PairName(i: nat, a: FloatingIP): string {
    if a.attachedTo != "" then "attached:" + a.attachedTo
    else if a.address != "" then "address:" + a.address
    else if a.id != "" then a.id
    else "floating-ip-" + Decimal(i + 1)
  }

  /** The item is about the i-th pair in key order. */
  predicate PairSays(x: DriftItem, i: nat, d: FloatingIP, a: FloatingIP) {
    && About(x, FloatingIPKind, PairName(i, a), a.id)
    && match x.field
       case Address => SaysDiffer(x, d.address, a.address, Warning)
       case AttachedTo => SaysDiffer(x, d.attachedTo, a.attachedTo, Critical)
       case Status => SaysDifferFold(x, d.status, a.status, Warning)
       case _ => false
  }

  function NatSum(n: nat, g: int -> nat): nat {
    if n == 0 then 0 else NatSum(n - 1, g) + g(n - 1)
  }

  /** How many of the first n pairs the item is about. */
  function Tally(x: DriftItem, d: seq<FloatingIP>, a: seq<FloatingIP>, n: nat): nat {
    NatSum(n, i => One(0 <= i < |d| && i < |a| && PairSays(x, i, d[i], a[i])))
  }

  lemma AddressCount(name: string, d: FloatingIP, a: FloatingIP, x: DriftItem)
    ensures AddressDrift(name, d, a)[x] == One(About(x, FloatingIPKind, name, a.id) && x.field == Address && SaysDiffer(x, d.address, a.address, Warning))
  {
  }

  lemma TargetCount(name: string, d: FloatingIP, a: FloatingIP, x: DriftItem)
    ensures TargetDrift(name, d, a)[x]
         == One(About(x, FloatingIPKind, name, a.id) && x.field == AttachedTo && SaysDiffer(x, d.attachedTo, a.attachedTo, Critical))
  {
  }

  lemma FloatingStatusCount(name: string, d: FloatingIP, a: FloatingIP, x: DriftItem)
    ensures FloatingStatusDrift(name, d, a)[x]
         == One(About(x, FloatingIPKind, name, a.id) && x.field == Status && SaysDifferFold(x, d.status, a.status, Warning))
  {
  }

  lemma {:induction false} PairCount(i: nat, d: FloatingIP, a: FloatingIP, x: DriftItem)
    ensures FloatingIPDrift(FloatingIPName(i, a), d, a)[x] == One(PairSays(x, i, d, a))
  {
    var name := FloatingIPName(i, a);
    AddressCount(name, d, a, x);
    TargetCount(name, d, a, x);
    FloatingStatusCount(name, d, a, x);
    ThreeParts(AddressDrift(name, d, a), TargetDrift(name, d, a), FloatingStatusDrift(name, d, a), x);
    assert name == PairName(i, a);
  }

  lemma PairAtCount(d: seq<FloatingIP>, a: seq<FloatingIP>, i: nat, x: DriftItem)
    requires i < |d| && i < |a|
    ensures PairDriftAt(d, a, i)[x] == One(PairSays(x, i, d[i], a[i]))
  {
    PairCount(i, d[i], a[i], x);
  }

  lemma {:induction false} SumToCount<T>(n: nat, f: int -> multiset<T>, g: int -> nat, x: T)
    requires forall i :: 0 <= i < n ==> f(i)[x] == g(i)
    ensures SumTo(n, f)[x] == NatSum(n, g)
  {
    if n > 0 {
      SumToCount(n - 1, f, g, x);
    }
  }

  lemma {:induction false} TallyIs(x: DriftItem, d: seq<FloatingIP>, a: seq<FloatingIP>, n: nat)
    requires n <= |d| && n <= |a|
    ensures SumTo(n, PairDrift(d, a))[x] == Tally(x, d, a, n)
  {
    var f := PairDrift(d, a);
    var g := (i: int) => One(0 <= i < |d| && i < |a| && PairSays(x, i, d[i], a[i]));
    forall i | 0 <= i < n ensures f(i)[x] == g(i) {
      PairAtCount(d, a, i, x);
      assert f(i) == PairDriftAt(d, a, i);
    }
    SumToCount(n, f, g, x);
    assert Tally(x, d, a, n) == NatSum(n, g);
  }

  /** The items about floating IPs: one for the lengths, and one for each pair and field that says so. */
  lemma {:induction false} FloatingCount(sort: seq<FloatingIP> -> seq<FloatingIP>, d: seq<FloatingIP>, a: seq<FloatingIP>, x: DriftItem)
    ensures FloatingIPDrifts(sort, d, a)[x]
         == One(CountSays(x, |d|, |a|)) + Tally(x, sort(d), sort(a), Min(|sort(d)|, |sort(a)|))
  {
    WhenCount(|d| != |a|, CountItem(|d|, |a|), x);
    TallyIs(x, sort(d), sort(a), Min(|sort(d)|, |sort(a)|));
  }

  // ---------- The whole report ----------

  /** How often the states differ as an item says; at most once, but for floating IPs, which are matched
      by position. */
  ghost function Sayings(sort: seq<FloatingIP> -> seq<FloatingIP>, d: InfraState, a: InfraState, x: DriftItem): nat {
    var sd, sa := sort(d.floatingIPs), sort(a.floatingIPs);
    One(ServersSay(x, Keyed(d.servers, ServerKey), Keyed(a.servers, ServerKey)))
    + One(NetworksSay(x, Keyed(d.networks, NetworkKey), Keyed(a.networks, NetworkKey)))
    + One(GroupsSay(x, Keyed(d.securityGroups, SecurityGroupKey), Keyed(a.securityGroups, SecurityGroupKey)))
    + One(BalancersSay(x, Keyed(d.loadBalancers, LoadBalancerKey), Keyed(a.loadBalancers, LoadBalancerKey)))
    + One(VolumesSay(x, Keyed(d.volumes, VolumeKey), Keyed(a.volumes, VolumeKey)))
    + One(CountSays(x, |d.floatingIPs|, |a.floatingIPs|)) + Tally(x, sd, sa, Min(|sd|, |sa|))
  }

  lemma SixParts<T>(a: multiset<T>, b: multiset<T>, c: multiset<T>, d: multiset<T>, e: multiset<T>, f: multiset<T>, x: T)
    ensures (a + b + c + (d + e + f))[x] == a[x] + b[x] + c[x] + d[x] + e[x] + f[x]
  {
  }

  /** Every item is in the report exactly as often. */
  lemma {:induction false} DriftsCount(sort: seq<FloatingIP> -> seq<FloatingIP>, d: InfraState, a: InfraState, x: DriftItem)
    ensures Drifts(sort, d, a)[x] == Sayings(sort, d, a, x)
  {
    ServersCount(d.servers, a.servers, x);
    NetworksCount(d.networks, a.networks, x);
    GroupsCount(d.securityGroups, a.securityGroups, x);
    BalancersCount(d.loadBalancers, a.loadBalancers, x);
    VolumesCount(d.volumes, a.volumes, x);
    FloatingCount(sort, d.floatingIPs, a.floatingIPs, x);
    SixParts(ServerDrifts(d.servers, a.servers), NetworkDrifts(d.networks, a.networks),
             SecurityGroupDrifts(d.securityGroups, a.securityGroups), LoadBalancerDrifts(d.loadBalancers, a.loadBalancers),
             VolumeDrifts(d.volumes, a.volumes), FloatingIPDrifts(sort, d.floatingIPs, a.floatingIPs), x);
  }

  // ---------- Keys ----------

  /** What elements are matched by: the name if there is one. */
  lemma NamesMatch(s: Server, n: Network, g: SecurityGroup, b: LoadBalancer)
    ensures ServerKey(s) == if s.name == "" then s.id else s.name
    ensures NetworkKey(n) == if n.name == "" then n.id else n.name
    ensures SecurityGroupKey(g) == if g.name == "" then g.id else g.name
    ensures LoadBalancerKey(b) == if b.name == "" then b.id else b.name
  {
  }

  lemma SubnetsMatch(s: Subnet)
    ensures SubnetKey(s) == if s.name != "" then s.name else if s.cidr != "" then s.cidr else s.id
  {
  }

  /** Volumes are matched by what they are attached to, the unattached ones by name, and those without a
      name by their identifier. */
  lemma {:induction false} VolumesMatch(v: Volume, w: Volume)
    ensures VolumeKey(v) == VolumeKey(w) <==>
            && v.attachedTo == w.attachedTo
            && (v.attachedTo == "" ==> v.name == w.name && (v.name == "" ==> v.id == w.id))
  {
    Tagged("attached:", v.attachedTo, w.attachedTo);
    Tagged("name:", v.name, w.name);
    Tagged("id:", v.id, w.id);
    Starts(VolumeKey(v), v);
    Starts(VolumeKey(w), w);
  }

  lemma Tagged(tag: string, a: string, b: string)
    ensures tag + a == tag + b <==> a == b
  {
    assert (tag + a)[|tag|..] == a && (tag + b)[|tag|..] == b;
  }

  lemma Starts(key: string, v: Volume)
    requires key == VolumeKey(v)
    ensures key == "" <==> v.attachedTo == "" && v.name == "" && v.id == ""
    ensures key != "" ==> key[0] == if v.attachedTo != "" then 'a' else if v.name != "" then 'n' else 'i'
  {
  }
}
