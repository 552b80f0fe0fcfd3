/** Infrastructure states, drift items, and what internal/cloud/compare.go reports for a pair of
    states, as multisets: Go iterates maps in no particular order. */
module Drift {
  import opened Text
  import opened StringOrder
  import opened KeyedSums

  datatype Server = Server(id: string, name: string, flavor: string, image: string, status: string,
                           networks: seq<string>, tags: map<string, string>)
  datatype Subnet = Subnet(id: string, name: string, cidr: string)
  datatype Network = Network(id: string, name: string, cidr: string, subnets: seq<Subnet>)
  datatype SecurityRule = SecurityRule(id: string, direction: string, protocol: string, portRange: string,
                                       remoteIP: string, description: string)
  datatype SecurityGroup = SecurityGroup(id: string, name: string, rules: seq<SecurityRule>)
  datatype LoadBalancer = LoadBalancer(id: string, name: string, vip: string, members: seq<string>,
                                       protocol: string, port: int)
  datatype Volume = Volume(id: string, name: string, size: int, status: string, attachedTo: string)
  datatype FloatingIP = FloatingIP(id: string, address: string, status: string, attachedTo: string)

  datatype InfraState = InfraState(
    servers: seq<Server>, networks: seq<Network>, securityGroups: seq<SecurityGroup>,
    loadBalancers: seq<LoadBalancer>, volumes: seq<Volume>, floatingIPs: seq<FloatingIP>)

  const EMPTY_STATE := InfraState([], [], [], [], [], [])

  datatype Severity = Info | Warning | Critical

  /** The values stored in Expected and Actual; the first three are "exists", "missing" and "not exists". */
  datatype Shown = Exists | Absent | NotExists
                 | Str(s: string) | Number(n: int) | List(items: seq<string>) | Rules(rules: seq<SecurityRule>)

  /** ResourceType and Field: the fixed texts of the source, one constructor each. */
  datatype Kind = ServerKind | NetworkKind | SecurityGroupKind | LoadBalancerKind | VolumeKind | FloatingIPKind

  datatype FieldName = Existence | Flavor | Image | Status | Tag(key: string) | Networks | CIDR
                     | SubnetExistence(subnet: string) | SubnetCIDR(subnet: string) | RuleSet
                     | Protocol | Port | VIP | Members | Size | AttachedTo | Address | Count

  datatype DriftItem = DriftItem(resourceType: Kind, resourceID: string, resourceName: string, field: FieldName,
                                 expected: Shown, actual: Shown, severity: Severity, reconcilable: bool)

  // ---------- Keys ----------

  function NameOrID(name: string, id: string): string {
    if name != "" then name else id
  }

  function ServerKey(s: Server): string {
    NameOrID(s.name, s.id)
  }

  function NetworkKey(n: Network): string {
    NameOrID(n.name, n.id)
  }

  function SubnetKey(s: Subnet): string {
    if s.name != "" then s.name else if s.cidr != "" then s.cidr else s.id
  }

  function SecurityGroupKey(g: SecurityGroup): string {
    NameOrID(g.name, g.id)
  }

  function LoadBalancerKey(lb: LoadBalancer): string {
    NameOrID(lb.name, lb.id)
  }

  function VolumeKey(v: Volume): string {
    if v.attachedTo != "" then "attached:" + v.attachedTo
    else if v.name != "" then "name:" + v.name
    else if v.id != "" then "id:" + v.id
    else ""
  }

  function FloatingIPKey(f: FloatingIP): string {
    if f.attachedTo != "" then "attached:" + f.attachedTo
    else if f.address != "" then "address:" + f.address
    else f.id
  }

  /** mapByKey: elements without a key are dropped, and the last of equal keys stays. */
  function Keyed<T>(items: seq<T>, key: T -> string): map<string, T> {
    if items == [] then map[]
    else
      var last := items[|items| - 1];
      var m := Keyed(items[..|items| - 1], key);
      if key(last) == "" then m else m[key(last) := last]
  }

  // ---------- Comparing fields ----------

  function ToLower(s: string): string {
    if s == [] then []
    else [if 'A' <= s[0] <= 'Z' then s[0] + ('a' - 'A') else s[0]] + ToLower(s[1..])
  }

  predicate EqualFold(a: string, b: string) {
    ToLower(a) == ToLower(b)
  }

  /** Two field values that drift: both given, and not the same. */
  predicate Differ(expected: string, actual: string) {
    expected != "" && actual != "" && expected != actual
  }

  predicate DifferFold(expected: string, actual: string) {
    expected != "" && actual != "" && !EqualFold(expected, actual)
  }

  function Lookup(tags: map<string, string>, k: string): string {
    if k in tags then tags[k] else ""
  }

  function When(b: bool, item: DriftItem): multiset<DriftItem> {
    if b then multiset{item} else multiset{}
  }

  function Missing(resourceType: Kind, id: string, name: string, field: FieldName, severity: Severity): DriftItem {
    DriftItem(resourceType, id, name, field, Exists, Absent, severity, false)
  }

  function Unexpected(resourceType: Kind, id: string, name: string, field: FieldName): DriftItem {
    DriftItem(resourceType, id, name, field, NotExists, Exists, Warning, false)
  }

  // ---------- One resource type ----------

  /** What the loop over desired elements adds for a key. */
  ghost function WantedAt<T>(dm: map<string, T>, am: map<string, T>, missing: (string, T) -> DriftItem,
                             pair: (string, T, T) -> multiset<DriftItem>, k: string): multiset<DriftItem>
  {
    if k !in dm then multiset{}
    else if k in am then pair(k, dm[k], am[k])
    else multiset{missing(k, dm[k])}
  }

  ghost function Wanted<T>(dm: map<string, T>, am: map<string, T>, missing: (string, T) -> DriftItem,
                           pair: (string, T, T) -> multiset<DriftItem>): string -> multiset<DriftItem>
  {
    k => WantedAt(dm, am, missing, pair, k)
  }

  /** What the loop over actual elements adds for a key. */
  ghost function SurplusAt<T>(dm: map<string, T>, am: map<string, T>, extra: (string, T) -> DriftItem, k: string): multiset<DriftItem> {
    if k in am && k !in dm then multiset{extra(k, am[k])} else multiset{}
  }

  ghost function Surplus<T>(dm: map<string, T>, am: map<string, T>, extra: (string, T) -> DriftItem): string -> multiset<DriftItem> {
    k => SurplusAt(dm, am, extra, k)
  }

  ghost function Total<T>(dm: map<string, T>, am: map<string, T>, missing: (string, T) -> DriftItem,
                          pair: (string, T, T) -> multiset<DriftItem>, extra: (string, T) -> DriftItem): multiset<DriftItem>
  {
    SumOver(dm.Keys, Wanted(dm, am, missing, pair)) + SumOver(am.Keys, Surplus(dm, am, extra))
  }

  // ---------- Servers ----------

  function MissingServerSeverity(s: Server): Severity {
    var role := ToLower(Lookup(s.tags, "role"));
    if role == "control-plane" || role == "master" then Critical else Warning
  }

  function ServerItem(key: string, a: Server, field: FieldName, expected: Shown, actual: Shown, severity: Severity, reconcilable: bool): DriftItem {
    DriftItem(ServerKind, a.id, key, field, expected, actual, severity, reconcilable)
  }

  const ACTIVE := "ACTIVE"

  predicate Inactive(a: Server) {
    a.status != "" && !EqualFold(a.status, ACTIVE)
  }

  function StatusDrift(key: string, a: Server): multiset<DriftItem> {
    When(Inactive(a), ServerItem(key, a, Status, Str(ACTIVE), Str(a.status), Critical, false))
  }

  function TagDriftAt(key: string, d: Server, a: Server, k: string): multiset<DriftItem> {
    var expected, actual := Lookup(d.tags, k), Lookup(a.tags, k);
    When(actual != expected, ServerItem(key, a, Tag(k), Str(expected), Str(actual), Info, true))
  }

  function TagDrift(key: string, d: Server, a: Server): string -> multiset<DriftItem> {
    k => TagDriftAt(key, d, a, k)
  }

  function FlavorDrift(key: string, d: Server, a: Server): multiset<DriftItem> {
    When(Differ(d.flavor, a.flavor), ServerItem(key, a, Flavor, Str(d.flavor), Str(a.flavor), Critical, false))
  }

  function ImageDrift(key: string, d: Server, a: Server): multiset<DriftItem> {
    When(Differ(d.image, a.image), ServerItem(key, a, Image, Str(d.image), Str(a.image), Critical, false))
  }

  function AttachedDrift(key: string, d: Server, a: Server): multiset<DriftItem> {
    When(d.networks != [] && !EqualStringSets(d.networks, a.networks),
         ServerItem(key, a, Networks, List(SortStrings(d.networks)), List(SortStrings(a.networks)), Warning, false))
  }

  function OwnDrift(key: string, d: Server, a: Server): multiset<DriftItem> {
    FlavorDrift(key, d, a) + ImageDrift(key, d, a) + StatusDrift(key, a)
  }

  ghost function ServerDrift(key: string, d: Server, a: Server): multiset<DriftItem> {
    OwnDrift(key, d, a) + SumOver(d.tags.Keys, TagDrift(key, d, a)) + AttachedDrift(key, d, a)
  }

  function ServerMissing(key: string, d: Server): DriftItem {
    Missing(ServerKind, d.id, key, Existence, MissingServerSeverity(d))
  }

  function ServerExtra(key: string, a: Server): DriftItem {
    Unexpected(ServerKind, a.id, key, Existence)
  }

  ghost function ServerDrifts(d: seq<Server>, a: seq<Server>): multiset<DriftItem> {
    Total(Keyed(d, ServerKey), Keyed(a, ServerKey), ServerMissing, ServerDrift, ServerExtra)
  }

  // ---------- Networks ----------

  function SubnetPair(name: string, id: string, key: string, d: Subnet, a: Subnet): multiset<DriftItem> {
    When(Differ(d.cidr, a.cidr), DriftItem(NetworkKind, id, name, SubnetCIDR(key), Str(d.cidr), Str(a.cidr), Critical, false))
  }

  function SubnetDrift(name: string, id: string): (string, Subnet, Subnet) -> multiset<DriftItem> {
    (key, d, a) => SubnetPair(name, id, key, d, a)
  }

  function SubnetMissing(name: string, id: string): (string, Subnet) -> DriftItem {
    (key, d) => Missing(NetworkKind, id, name, SubnetExistence(key), Critical)
  }

  function SubnetExtra(name: string, id: string): (string, Subnet) -> DriftItem {
    (key, a) => Unexpected(NetworkKind, id, name, SubnetExistence(key))
  }

  ghost function SubnetDrifts(name: string, id: string, d: seq<Subnet>, a: seq<Subnet>): multiset<DriftItem> {
    Total(Keyed(d, SubnetKey), Keyed(a, SubnetKey), SubnetMissing(name, id), SubnetDrift(name, id), SubnetExtra(name, id))
  }

  function CIDRDrift(key: string, d: Network, a: Network): multiset<DriftItem> {
    When(Differ(d.cidr, a.cidr), DriftItem(NetworkKind, a.id, key, CIDR, Str(d.cidr), Str(a.cidr), Critical, false))
  }

  ghost function NetworkDrift(key: string, d: Network, a: Network): multiset<DriftItem> {
    CIDRDrift(key, d, a) + SubnetDrifts(key, a.id, d.subnets, a.subnets)
  }

  function NetworkMissing(key: string, d: Network): DriftItem {
    Missing(NetworkKind, d.id, key, Existence, Critical)
  }

  function NetworkExtra(key: string, a: Network): DriftItem {
    Unexpected(NetworkKind, a.id, key, Existence)
  }

  ghost function NetworkDrifts(d: seq<Network>, a: seq<Network>): multiset<DriftItem> {
    Total(Keyed(d, NetworkKey), Keyed(a, NetworkKey), NetworkMissing, NetworkDrift, NetworkExtra)
  }

  // ---------- Security groups ----------

  function Trims(s: seq<string>): (t: seq<string>)
    ensures |t| == |s| && forall i :: 0 <= i < |s| ==> t[i] == TrimSpace(s[i])
  {
    seq(|s|, i requires 0 <= i < |s| => TrimSpace(s[i]))
  }

  /** The trimmed fields by which rules are compared. */
  function Fields(r: SecurityRule): (fs: seq<string>)
    ensures |fs| == 4
  {
    Trims([r.direction, r.protocol, r.portRange, r.remoteIP])
  }

  function Normalize(r: SecurityRule): string {
    ToLower(Join(Fields(r), '|'))
  }

  /** The values of f on a list. */
  function ValuesOf<T>(s: seq<T>, f: T -> string): set<string> {
    if s == [] then {} else ValuesOf(s[..|s| - 1], f) + {f(s[|s| - 1])}
  }

  lemma {:induction false} ValuesNext<T>(s: seq<T>, f: T -> string, i: nat)
    requires i < |s|
    ensures ValuesOf(s[..i + 1], f) == ValuesOf(s[..i], f) + {f(s[i])}
  {
    var upTo := s[..i + 1];
    assert upTo[..i] == s[..i] && upTo[i] == s[i];
  }

  lemma {:induction false} ValuesHave<T>(s: seq<T>, f: T -> string, x: T)
    requires x in s
    ensures f(x) in ValuesOf(s, f)
    decreases |s|
  {
    var n := |s| - 1;
    if x != s[n] {
      assert x in s[..n];
      ValuesHave(s[..n], f, x);
    }
  }

  function Normals(rules: seq<SecurityRule>): set<string> {
    ValuesOf(rules, Normalize)
  }

  predicate CoversAPIPort(ports: string) {
    var dash := IndexOf(ports, '-');
    if ports == "" || ports == "*" then true
    else if dash < |ports| then
      var lo, hi := ParseInt(ports[..dash], 64), ParseInt(ports[dash + 1..], 64);
      lo.Some? && hi.Some? && lo.value <= 6443 <= hi.value
    else ParseInt(ports, 64) == Some(6443)
  }

  const INGRESS := "ingress"

  /** Open to the world on the API port. */
  predicate HighRisk(r: SecurityRule) {
    && EqualFold(r.direction, INGRESS)
    && TrimSpace(r.remoteIP) in {"0.0.0.0/0", "::/0"}
    && CoversAPIPort(TrimSpace(r.portRange))
  }

  predicate AnyHighRisk(rules: seq<SecurityRule>) {
    Filter(rules, HighRisk) != []
  }

  function Filter<T>(s: seq<T>, keep: T -> bool): seq<T> {
    if s == [] then []
    else Filter(s[..|s| - 1], keep) + if keep(s[|s| - 1]) then [s[|s| - 1]] else []
  }

  lemma {:induction false} FilterNext<T>(s: seq<T>, keep: T -> bool, i: nat)
    requires i < |s|
    ensures Filter(s[..i + 1], keep) == Filter(s[..i], keep) + if keep(s[i]) then [s[i]] else []
  {
    assert s[..i + 1][..i] == s[..i];
  }

  lemma {:induction false} FilterNothing<T(!new)>(s: seq<T>, keep: T -> bool)
    ensures Filter(s, keep) == [] <==> forall x :: x in s ==> !keep(x)
    decreases |s|
  {
    if s != [] {
      assert s == s[..|s| - 1] + [s[|s| - 1]];
      FilterNothing(s[..|s| - 1], keep);
    }
  }

  predicate KeepRule(normals: set<string>, riskyOnly: bool, r: SecurityRule) {
    Normalize(r) !in normals && (riskyOnly ==> HighRisk(r))
  }

  function Keep(normals: set<string>, riskyOnly: bool): SecurityRule -> bool {
    r => KeepRule(normals, riskyOnly, r)
  }

  /** The rules, in order, whose normal form is not among those given, and that are high-risk if asked for. */
  function Without(rules: seq<SecurityRule>, normals: set<string>, riskyOnly: bool): seq<SecurityRule> {
    Filter(rules, Keep(normals, riskyOnly))
  }

  function MissingRules(d: seq<SecurityRule>, a: seq<SecurityRule>): seq<SecurityRule> {
    Without(d, Normals(a), false)
  }

  function RiskyExtra(d: seq<SecurityRule>, a: seq<SecurityRule>): seq<SecurityRule> {
    Without(a, Normals(d), true)
  }

  function RulesSeverity(missing: seq<SecurityRule>, extra: seq<SecurityRule>): Severity {
    if (|missing| > 0 && AnyHighRisk(missing)) || AnyHighRisk(extra) then Critical else Warning
  }

  function RulesDrift(key: string, d: SecurityGroup, a: SecurityGroup, missing: seq<SecurityRule>, extra: seq<SecurityRule>): multiset<DriftItem> {
    When(d.rules != [] && (missing != [] || extra != []),
         DriftItem(SecurityGroupKind, a.id, key, RuleSet, Rules(d.rules), Rules(a.rules), RulesSeverity(missing, extra), true))
  }

  ghost function SecurityGroupDrift(key: string, d: SecurityGroup, a: SecurityGroup): multiset<DriftItem> {
    RulesDrift(key, d, a, MissingRules(d.rules, a.rules), RiskyExtra(d.rules, a.rules))
  }

  function SecurityGroupMissing(key: string, d: SecurityGroup): DriftItem {
    Missing(SecurityGroupKind, d.id, key, Existence, Critical)
  }

  function SecurityGroupExtra(key: string, a: SecurityGroup): DriftItem {
    Unexpected(SecurityGroupKind, a.id, key, Existence)
  }

  ghost function SecurityGroupDrifts(d: seq<SecurityGroup>, a: seq<SecurityGroup>): multiset<DriftItem> {
    Total(Keyed(d, SecurityGroupKey), Keyed(a, SecurityGroupKey), SecurityGroupMissing, SecurityGroupDrift, SecurityGroupExtra)
  }

  // ---------- Load balancers and volumes ----------

  function LBItem(key: string, a: LoadBalancer, field: FieldName, expected: Shown, actual: Shown): DriftItem {
    DriftItem(LoadBalancerKind, a.id, key, field, expected, actual, Critical, false)
  }

  function ProtocolDrift(key: string, d: LoadBalancer, a: LoadBalancer): multiset<DriftItem> {
    When(Differ(d.protocol, a.protocol), LBItem(key, a, Protocol, Str(d.protocol), Str(a.protocol)))
  }

  function PortDrift(key: string, d: LoadBalancer, a: LoadBalancer): multiset<DriftItem> {
    When(d.port != 0 && a.port != 0 && d.port != a.port, LBItem(key, a, Port, Number(d.port), Number(a.port)))
  }

  function VIPDrift(key: string, d: LoadBalancer, a: LoadBalancer): multiset<DriftItem> {
    When(Differ(d.vip, a.vip), LBItem(key, a, VIP, Str(d.vip), Str(a.vip)))
  }

  function MembersDrift(key: string, d: LoadBalancer, a: LoadBalancer): multiset<DriftItem> {
    When(d.members != [] && !EqualStringSets(d.members, a.members),
         DriftItem(LoadBalancerKind, a.id, key, Members, List(SortStrings(d.members)), List(SortStrings(a.members)), Warning, true))
  }

  function FrontDrift(key: string, d: LoadBalancer, a: LoadBalancer): multiset<DriftItem> {
    ProtocolDrift(key, d, a) + PortDrift(key, d, a) + VIPDrift(key, d, a)
  }

  ghost function LoadBalancerDrift(key: string, d: LoadBalancer, a: LoadBalancer): multiset<DriftItem> {
    FrontDrift(key, d, a) + MembersDrift(key, d, a)
  }

  function LoadBalancerMissing(key: string, d: LoadBalancer): DriftItem {
    Missing(LoadBalancerKind, d.id, key, Existence, Critical)
  }

  function LoadBalancerExtra(key: string, a: LoadBalancer): DriftItem {
    Unexpected(LoadBalancerKind, a.id, key, Existence)
  }

  ghost function LoadBalancerDrifts(d: seq<LoadBalancer>, a: seq<LoadBalancer>): multiset<DriftItem> {
    Total(Keyed(d, LoadBalancerKey), Keyed(a, LoadBalancerKey), LoadBalancerMissing, LoadBalancerDrift, LoadBalancerExtra)
  }

  function VolumeItem(key: string, a: Volume, field: FieldName, expected: Shown, actual: Shown, severity: Severity): DriftItem {
    DriftItem(VolumeKind, a.id, key, field, expected, actual, severity, false)
  }

  function SizeDrift(key: string, d: Volume, a: Volume): multiset<DriftItem> {
    When(d.size > 0 && a.size > 0 && d.size != a.size, VolumeItem(key, a, Size, Number(d.size), Number(a.size), Warning))
  }

  function VolumeStatusDrift(key: string, d: Volume, a: Volume): multiset<DriftItem> {
    When(DifferFold(d.status, a.status), VolumeItem(key, a, Status, Str(d.status), Str(a.status), Critical))
  }

  function AttachmentDrift(key: string, d: Volume, a: Volume): multiset<DriftItem> {
    When(Differ(d.attachedTo, a.attachedTo), VolumeItem(key, a, AttachedTo, Str(d.attachedTo), Str(a.attachedTo), Critical))
  }

  ghost function VolumeDrift(key: string, d: Volume, a: Volume): multiset<DriftItem> {
    SizeDrift(key, d, a) + VolumeStatusDrift(key, d, a) + AttachmentDrift(key, d, a)
  }

  function VolumeMissing(key: string, d: Volume): DriftItem {
    Missing(VolumeKind, d.id, key, Existence, Critical)
  }

  function VolumeExtra(key: string, a: Volume): DriftItem {
    Unexpected(VolumeKind, a.id, key, Existence)
  }

  ghost function VolumeDrifts(d: seq<Volume>, a: seq<Volume>): multiset<DriftItem> {
    Total(Keyed(d, VolumeKey), Keyed(a, VolumeKey), VolumeMissing, VolumeDrift, VolumeExtra)
  }

  // ---------- Floating IPs ----------

  /** sort.Slice by key: some arrangement of the elements in key order, fixed by its input. */
  ghost predicate IsSort(sort: seq<FloatingIP> -> seq<FloatingIP>) {
    forall s :: Sorts(sort, s)
  }

  ghost predicate Sorts(sort: seq<FloatingIP> -> seq<FloatingIP>, s: seq<FloatingIP>) {
    multiset(sort(s)) == multiset(s) && SortedBy(sort(s), FloatingIPKey)
  }

  /** Insertion sort is one such function. */
  function InsertionSort(): seq<FloatingIP> -> seq<FloatingIP> {
    s => SortBy(s, FloatingIPKey)
  }

  lemma {:induction false} InsertionSortSorts()
    ensures IsSort(InsertionSort())
  {
    forall s ensures Sorts(InsertionSort(), s) {
      assert InsertionSort()(s) == SortBy(s, FloatingIPKey);
    }
  }

  function FloatingIPItem(name: string, a: FloatingIP, field: FieldName, expected: string, actual: string, severity: Severity): DriftItem {
    DriftItem(FloatingIPKind, a.id, name, field, Str(expected), Str(actual), severity, false)
  }

  /** The i-th pair in key order is named after the actual address, or its position. */
  function FloatingIPName(i: nat, a: FloatingIP): string {
    if FloatingIPKey(a) != "" then FloatingIPKey(a) else "floating-ip-" + Decimal(i + 1)
  }

  function AddressDrift(name: string, d: FloatingIP, a: FloatingIP): multiset<DriftItem> {
    When(Differ(d.address, a.address), FloatingIPItem(name, a, Address, d.address, a.address, Warning))
  }

  function TargetDrift(name: string, d: FloatingIP, a: FloatingIP): multiset<DriftItem> {
    When(Differ(d.attachedTo, a.attachedTo), FloatingIPItem(name, a, AttachedTo, d.attachedTo, a.attachedTo, Critical))
  }

  function FloatingStatusDrift(name: string, d: FloatingIP, a: FloatingIP): multiset<DriftItem> {
    When(DifferFold(d.status, a.status), FloatingIPItem(name, a, Status, d.status, a.status, Warning))
  }

  function FloatingIPDrift(name: string, d: FloatingIP, a: FloatingIP): multiset<DriftItem> {
    AddressDrift(name, d, a) + TargetDrift(name, d, a) + FloatingStatusDrift(name, d, a)
  }

  function PairDriftAt(d: seq<FloatingIP>, a: seq<FloatingIP>, i: int): multiset<DriftItem> {
    if 0 <= i < |d| && i < |a| then FloatingIPDrift(FloatingIPName(i, a[i]), d[i], a[i]) else multiset{}
  }

  function PairDrift(d: seq<FloatingIP>, a: seq<FloatingIP>): int -> multiset<DriftItem> {
    i => PairDriftAt(d, a, i)
  }

  function Min(x: nat, y: nat): nat {
    if x <= y then x else y
  }

  function CountItem(d: nat, a: nat): DriftItem {
    DriftItem(FloatingIPKind, "", "cluster-floating-ips", Count, Number(d), Number(a), Critical, false)
  }

  ghost function FloatingIPDrifts(sort: seq<FloatingIP> -> seq<FloatingIP>, d: seq<FloatingIP>, a: seq<FloatingIP>): multiset<DriftItem> {
    When(|d| != |a|, CountItem(|d|, |a|))
    + SumTo(Min(|sort(d)|, |sort(a)|), PairDrift(sort(d), sort(a)))
  }

  // ---------- The whole comparison ----------

  ghost function Drifts(sort: seq<FloatingIP> -> seq<FloatingIP>, d: InfraState, a: InfraState): multiset<DriftItem> {
    (ServerDrifts(d.servers, a.servers) + NetworkDrifts(d.networks, a.networks)
     + SecurityGroupDrifts(d.securityGroups, a.securityGroups))
    + (LoadBalancerDrifts(d.loadBalancers, a.loadBalancers) + VolumeDrifts(d.volumes, a.volumes)
       + FloatingIPDrifts(sort, d.floatingIPs, a.floatingIPs))
  }
}
