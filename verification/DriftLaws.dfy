/** What the comparison of infrastructure states means: when it is silent, what it says of a state
    compared with itself, that list order does not matter, and that summaries add up. */
module DriftLaws {
  import opened Text
  import opened StringOrder
  import opened KeyedSums
  import opened Drift
  import opened DriftDetect

  // ---------- When nothing is reported ----------

  predicate ServerMatches(d: Server, a: Server) {
    && !Differ(d.flavor, a.flavor) && !Differ(d.image, a.image)
    && !Inactive(a)
    && (forall k :: k in d.tags ==> Lookup(a.tags, k) == d.tags[k])
    && (d.networks == [] || EqualStringSets(d.networks, a.networks))
  }

  predicate SubnetMatches(d: Subnet, a: Subnet) {
    !Differ(d.cidr, a.cidr)
  }

  predicate NetworkMatches(d: Network, a: Network) {
    && !Differ(d.cidr, a.cidr)
    && KeyedMatch(Keyed(d.subnets, SubnetKey), Keyed(a.subnets, SubnetKey), SubnetMatches)
  }

  /** Nothing asked for, or every desired rule present and no unasked rule that is high-risk. */
  predicate RulesMatch(d: SecurityGroup, a: SecurityGroup) {
    || d.rules == []
    || (&& (forall r :: r in d.rules ==> Normalize(r) in Normals(a.rules))
        && (forall r :: r in a.rules ==> Normalize(r) in Normals(d.rules) || !HighRisk(r)))
  }

  predicate LoadBalancerMatches(d: LoadBalancer, a: LoadBalancer) {
    && !Differ(d.protocol, a.protocol) && !Differ(d.vip, a.vip)
    && (d.port == 0 || a.port == 0 || d.port == a.port)
    && (d.members == [] || EqualStringSets(d.members, a.members))
  }

  predicate VolumeMatches(d: Volume, a: Volume) {
    && (d.size <= 0 || a.size <= 0 || d.size == a.size)
    && !DifferFold(d.status, a.status) && !Differ(d.attachedTo, a.attachedTo)
  }

  predicate FloatingIPMatches(d: FloatingIP, a: FloatingIP) {
    !Differ(d.address, a.address) && !Differ(d.attachedTo, a.attachedTo) && !DifferFold(d.status, a.status)
  }

  /** The same keys on both sides, and matching elements under them. */
  predicate KeyedMatch<T>(dm: map<string, T>, am: map<string, T>, match_: (T, T) -> bool) {
    dm.Keys == am.Keys && forall k :: k in dm ==> match_(dm[k], am[k])
  }

  predicate FloatingIPsMatch(sort: seq<FloatingIP> -> seq<FloatingIP>, d: seq<FloatingIP>, a: seq<FloatingIP>) {
    && |d| == |a| && |sort(d)| == |sort(a)|
    && forall i :: 0 <= i < |sort(d)| ==> FloatingIPMatches(sort(d)[i], sort(a)[i])
  }

  predicate Matches(sort: seq<FloatingIP> -> seq<FloatingIP>, d: InfraState, a: InfraState) {
    && KeyedMatch(Keyed(d.servers, ServerKey), Keyed(a.servers, ServerKey), ServerMatches)
    && KeyedMatch(Keyed(d.networks, NetworkKey), Keyed(a.networks, NetworkKey), NetworkMatches)
    && KeyedMatch(Keyed(d.securityGroups, SecurityGroupKey), Keyed(a.securityGroups, SecurityGroupKey), RulesMatch)
    && KeyedMatch(Keyed(d.loadBalancers, LoadBalancerKey), Keyed(a.loadBalancers, LoadBalancerKey), LoadBalancerMatches)
    && KeyedMatch(Keyed(d.volumes, VolumeKey), Keyed(a.volumes, VolumeKey), VolumeMatches)
    && FloatingIPsMatch(sort, d.floatingIPs, a.floatingIPs)
  }

  /** One kind of resource is reported on unless the keys agree and every pair is silent. */
  lemma {:induction false} TotalSilent<T(!new)>(dm: map<string, T>, am: map<string, T>, missing: (string, T) -> DriftItem,
                                                pair: (string, T, T) -> multiset<DriftItem>, extra: (string, T) -> DriftItem)
    ensures Total(dm, am, missing, pair, extra) == multiset{}
       <==> dm.Keys == am.Keys && forall k :: k in dm && k in am ==> pair(k, dm[k], am[k]) == multiset{}
  {
    var f, g := Wanted(dm, am, missing, pair), Surplus(dm, am, extra);
    SumEmpty(dm.Keys, f);
    SumEmpty(am.Keys, g);
    UnionEmpty(SumOver(dm.Keys, f), SumOver(am.Keys, g));
    forall k | k in dm ensures f(k) == multiset{} <==> k in am && pair(k, dm[k], am[k]) == multiset{} {
      assert f(k) == WantedAt(dm, am, missing, pair, k);
    }
    forall k | k in am ensures g(k) == multiset{} <==> k in dm {
      assert g(k) == SurplusAt(dm, am, extra, k);
    }
  }

  lemma UnionEmpty(a: multiset<DriftItem>, b: multiset<DriftItem>)
    ensures a + b == multiset{} <==> a == multiset{} && b == multiset{}
  {
    assert a <= a + b && b <= a + b;
  }

  lemma UnionsEmpty(a: multiset<DriftItem>, b: multiset<DriftItem>, c: multiset<DriftItem>)
    ensures a + b + c == multiset{} <==> a == multiset{} && b == multiset{} && c == multiset{}
  {
    UnionEmpty(a + b, c);
    UnionEmpty(a, b);
  }

  lemma {:induction false} ServerSilent(key: string, d: Server, a: Server)
    ensures ServerDrift(key, d, a) == multiset{} <==> ServerMatches(d, a)
  {
    var f := TagDrift(key, d, a);
    SumEmpty(d.tags.Keys, f);
    UnionsEmpty(FlavorDrift(key, d, a), ImageDrift(key, d, a), StatusDrift(key, a));
    UnionsEmpty(OwnDrift(key, d, a), SumOver(d.tags.Keys, f), AttachedDrift(key, d, a));
    forall k | k in d.tags ensures f(k) == multiset{} <==> Lookup(a.tags, k) == d.tags[k] {
      assert f(k) == TagDriftAt(key, d, a, k);
    }
  }

  lemma {:induction false} SubnetsSilent(name: string, id: string, d: seq<Subnet>, a: seq<Subnet>)
    ensures SubnetDrifts(name, id, d, a) == multiset{}
       <==> KeyedMatch(Keyed(d, SubnetKey), Keyed(a, SubnetKey), SubnetMatches)
  {
    var dm, am := Keyed(d, SubnetKey), Keyed(a, SubnetKey);
    var pair := SubnetDrift(name, id);
    TotalSilent(dm, am, SubnetMissing(name, id), pair, SubnetExtra(name, id));
    forall k | k in dm && k in am ensures pair(k, dm[k], am[k]) == multiset{} <==> SubnetMatches(dm[k], am[k]) {
      assert pair(k, dm[k], am[k]) == SubnetPair(name, id, k, dm[k], am[k]);
    }
  }

  lemma {:induction false} NetworkSilent(key: string, d: Network, a: Network)
    ensures NetworkDrift(key, d, a) == multiset{} <==> NetworkMatches(d, a)
  {
    SubnetsSilent(key, a.id, d.subnets, a.subnets);
    UnionEmpty(CIDRDrift(key, d, a), SubnetDrifts(key, a.id, d.subnets, a.subnets));
  }

  lemma {:induction false} WithoutNothing(rules: seq<SecurityRule>, normals: set<string>, riskyOnly: bool)
    ensures Without(rules, normals, riskyOnly) == [] <==> forall r :: r in rules ==> !KeepRule(normals, riskyOnly, r)
  {
    var keep := Keep(normals, riskyOnly);
    FilterNothing(rules, keep);
    assert forall r :: keep(r) == KeepRule(normals, riskyOnly, r);
  }

  lemma {:induction false} LoadBalancerSilent(key: string, d: LoadBalancer, a: LoadBalancer)
    ensures LoadBalancerDrift(key, d, a) == multiset{} <==> LoadBalancerMatches(d, a)
  {
    UnionsEmpty(ProtocolDrift(key, d, a), PortDrift(key, d, a), VIPDrift(key, d, a));
    UnionEmpty(FrontDrift(key, d, a), MembersDrift(key, d, a));
  }

  lemma {:induction false} VolumeSilent(key: string, d: Volume, a: Volume)
    ensures VolumeDrift(key, d, a) == multiset{} <==> VolumeMatches(d, a)
  {
    UnionsEmpty(SizeDrift(key, d, a), VolumeStatusDrift(key, d, a), AttachmentDrift(key, d, a));
  }

  lemma {:induction false} FloatingIPSilent(name: string, d: FloatingIP, a: FloatingIP)
    ensures FloatingIPDrift(name, d, a) == multiset{} <==> FloatingIPMatches(d, a)
  {
    UnionsEmpty(AddressDrift(name, d, a), TargetDrift(name, d, a), FloatingStatusDrift(name, d, a));
  }

  lemma {:induction false} PairsSilent(d: seq<FloatingIP>, a: seq<FloatingIP>, n: nat)
    requires n <= |d| && n <= |a|
    ensures SumTo(n, PairDrift(d, a)) == multiset{} <==> forall i :: 0 <= i < n ==> FloatingIPMatches(d[i], a[i])
  {
    var f := PairDrift(d, a);
    SumToEmpty(n, f);
    forall i | 0 <= i < n ensures f(i) == multiset{} <==> FloatingIPMatches(d[i], a[i]) {
      FloatingIPSilent(FloatingIPName(i, a[i]), d[i], a[i]);
      assert f(i) == PairDriftAt(d, a, i);
    }
  }

  lemma {:induction false} FloatingIPsSilent(sort: seq<FloatingIP> -> seq<FloatingIP>, d: seq<FloatingIP>, a: seq<FloatingIP>)
    requires IsSort(sort)
    ensures FloatingIPDrifts(sort, d, a) == multiset{} <==> FloatingIPsMatch(sort, d, a)
  {
    SortKeepsLength(sort, d);
    SortKeepsLength(sort, a);
    var n := Min(|sort(d)|, |sort(a)|);
    PairsSilent(sort(d), sort(a), n);
    UnionEmpty(When(|d| != |a|, CountItem(|d|, |a|)), SumTo(n, PairDrift(sort(d), sort(a))));
  }

  lemma {:induction false} ServersSilent(d: seq<Server>, a: seq<Server>)
    ensures ServerDrifts(d, a) == multiset{} <==> KeyedMatch(Keyed(d, ServerKey), Keyed(a, ServerKey), ServerMatches)
  {
    var dm, am := Keyed(d, ServerKey), Keyed(a, ServerKey);
    TotalSilent(dm, am, ServerMissing, ServerDrift, ServerExtra);
    forall k | k in dm && k in am ensures ServerDrift(k, dm[k], am[k]) == multiset{} <==> ServerMatches(dm[k], am[k]) {
      ServerSilent(k, dm[k], am[k]);
    }
  }

  lemma {:induction false} NetworksSilent(d: seq<Network>, a: seq<Network>)
    ensures NetworkDrifts(d, a) == multiset{} <==> KeyedMatch(Keyed(d, NetworkKey), Keyed(a, NetworkKey), NetworkMatches)
  {
    var dm, am := Keyed(d, NetworkKey), Keyed(a, NetworkKey);
    TotalSilent(dm, am, NetworkMissing, NetworkDrift, NetworkExtra);
    forall k | k in dm && k in am ensures NetworkDrift(k, dm[k], am[k]) == multiset{} <==> NetworkMatches(dm[k], am[k]) {
      NetworkSilent(k, dm[k], am[k]);
    }
  }

  lemma {:induction false} SecurityGroupsSilent(d: seq<SecurityGroup>, a: seq<SecurityGroup>)
    ensures SecurityGroupDrifts(d, a) == multiset{} <==> KeyedMatch(Keyed(d, SecurityGroupKey), Keyed(a, SecurityGroupKey), RulesMatch)
  {
    var dm, am := Keyed(d, SecurityGroupKey), Keyed(a, SecurityGroupKey);
    TotalSilent(dm, am, SecurityGroupMissing, SecurityGroupDrift, SecurityGroupExtra);
    forall k | k in dm && k in am ensures SecurityGroupDrift(k, dm[k], am[k]) == multiset{} <==> RulesMatch(dm[k], am[k]) {
      WithoutNothing(dm[k].rules, Normals(am[k].rules), false);
      WithoutNothing(am[k].rules, Normals(dm[k].rules), true);
    }
  }

  lemma {:induction false} LoadBalancersSilent(d: seq<LoadBalancer>, a: seq<LoadBalancer>)
    ensures LoadBalancerDrifts(d, a) == multiset{}
       <==> KeyedMatch(Keyed(d, LoadBalancerKey), Keyed(a, LoadBalancerKey), LoadBalancerMatches)
  {
    var dm, am := Keyed(d, LoadBalancerKey), Keyed(a, LoadBalancerKey);
    TotalSilent(dm, am, LoadBalancerMissing, LoadBalancerDrift, LoadBalancerExtra);
    forall k | k in dm && k in am ensures LoadBalancerDrift(k, dm[k], am[k]) == multiset{} <==> LoadBalancerMatches(dm[k], am[k]) {
      LoadBalancerSilent(k, dm[k], am[k]);
    }
  }

  lemma {:induction false} VolumesSilent(d: seq<Volume>, a: seq<Volume>)
    ensures VolumeDrifts(d, a) == multiset{} <==> KeyedMatch(Keyed(d, VolumeKey), Keyed(a, VolumeKey), VolumeMatches)
  {
    var dm, am := Keyed(d, VolumeKey), Keyed(a, VolumeKey);
    TotalSilent(dm, am, VolumeMissing, VolumeDrift, VolumeExtra);
    forall k | k in dm && k in am ensures VolumeDrift(k, dm[k], am[k]) == multiset{} <==> VolumeMatches(dm[k], am[k]) {
      VolumeSilent(k, dm[k], am[k]);
    }
  }

  /** The comparison is silent exactly on states that match. */
  lemma {:induction false} SilentIffMatches(sort: seq<FloatingIP> -> seq<FloatingIP>, d: InfraState, a: InfraState)
    requires IsSort(sort)
    ensures Drifts(sort, d, a) == multiset{} <==> Matches(sort, d, a)
  {
    ServersSilent(d.servers, a.servers);
    NetworksSilent(d.networks, a.networks);
    SecurityGroupsSilent(d.securityGroups, a.securityGroups);
    LoadBalancersSilent(d.loadBalancers, a.loadBalancers);
    VolumesSilent(d.volumes, a.volumes);
    FloatingIPsSilent(sort, d.floatingIPs, a.floatingIPs);
    var x, y, z := ServerDrifts(d.servers, a.servers), NetworkDrifts(d.networks, a.networks), SecurityGroupDrifts(d.securityGroups, a.securityGroups);
    var u, v, w := LoadBalancerDrifts(d.loadBalancers, a.loadBalancers), VolumeDrifts(d.volumes, a.volumes), FloatingIPDrifts(sort, d.floatingIPs, a.floatingIPs);
    UnionsEmpty(x, y, z);
    UnionsEmpty(u, v, w);
    UnionEmpty(x + y + z, u + v + w);
  }

  // ---------- A state compared with itself ----------

  /** A keyed server's own status drift. */
  ghost function OwnStatusAt(m: map<string, Server>, k: string): multiset<DriftItem> {
    if k in m then StatusDrift(k, m[k]) else multiset{}
  }

  ghost function OwnStatus(m: map<string, Server>): string -> multiset<DriftItem> {
    k => OwnStatusAt(m, k)
  }

  lemma {:induction false} ServerWithItself(key: string, s: Server)
    ensures ServerDrift(key, s, s) == StatusDrift(key, s)
  {
    var f := TagDrift(key, s, s);
    forall k | k in s.tags ensures f(k) == multiset{} {
      assert f(k) == TagDriftAt(key, s, s, k);
    }
    SumEmpty(s.tags.Keys, f);
  }

  lemma {:induction false} ServersWithThemselves(servers: seq<Server>)
    ensures var m := Keyed(servers, ServerKey);
      ServerDrifts(servers, servers) == SumOver(m.Keys, OwnStatus(m))
  {
    var m := Keyed(servers, ServerKey);
    var f, g := Wanted(m, m, ServerMissing, ServerDrift), Surplus(m, m, ServerExtra);
    forall k | k in m.Keys ensures f(k) == OwnStatus(m)(k) {
      ServerWithItself(k, m[k]);
      assert f(k) == WantedAt(m, m, ServerMissing, ServerDrift, k);
    }
    SumSame(m.Keys, f, OwnStatus(m));
    forall k | k in m.Keys ensures g(k) == multiset{} {
      assert g(k) == SurplusAt(m, m, ServerExtra, k);
    }
    SumEmpty(m.Keys, g);
  }

  lemma {:induction false} GroupMatchesItself(g: SecurityGroup)
    ensures RulesMatch(g, g)
  {
    forall r | r in g.rules ensures Normalize(r) in Normals(g.rules) {
      ValuesHave(g.rules, Normalize, r);
    }
  }

  lemma {:induction false} OthersWithThemselves(s: InfraState)
    ensures NetworkDrifts(s.networks, s.networks) == multiset{}
    ensures LoadBalancerDrifts(s.loadBalancers, s.loadBalancers) == multiset{}
    ensures VolumeDrifts(s.volumes, s.volumes) == multiset{}
  {
    NetworksSilent(s.networks, s.networks);
    LoadBalancersSilent(s.loadBalancers, s.loadBalancers);
    VolumesSilent(s.volumes, s.volumes);
  }

  /** Compared with itself a state drifts only in the status of servers: exactly one item for each
      keyed server whose status is given and is not ACTIVE. */
  lemma {:induction false} SelfComparison(sort: seq<FloatingIP> -> seq<FloatingIP>, s: InfraState)
    requires IsSort(sort)
    ensures var m := Keyed(s.servers, ServerKey);
      Drifts(sort, s, s) == SumOver(m.Keys, OwnStatus(m))
  {
    ServersWithThemselves(s.servers);
    var groups := Keyed(s.securityGroups, SecurityGroupKey);
    forall k | k in groups ensures RulesMatch(groups[k], groups[k]) {
      GroupMatchesItself(groups[k]);
    }
    SecurityGroupsSilent(s.securityGroups, s.securityGroups);
    OthersWithThemselves(s);
    FloatingIPsSilent(sort, s.floatingIPs, s.floatingIPs);
  }

  lemma {:induction false} SelfSilent(sort: seq<FloatingIP> -> seq<FloatingIP>, s: InfraState)
    requires IsSort(sort)
    ensures Drifts(sort, s, s) == multiset{} <==>
            var m := Keyed(s.servers, ServerKey); forall k :: k in m ==> !Inactive(m[k])
  {
    var m := Keyed(s.servers, ServerKey);
    SelfComparison(sort, s);
    SumEmpty(m.Keys, OwnStatus(m));
    forall k | k in m ensures OwnStatus(m)(k) == multiset{} <==> !Inactive(m[k]) {
      assert OwnStatus(m)(k) == StatusDrift(k, m[k]);
    }
  }

  // ---------- Order of lists ----------

  /** mapByKey finds, for a key, the last element that has it. */
  lemma {:induction false} KeyedIsLast<T>(items: seq<T>, key: T -> string, k: string)
    ensures k in Keyed(items, key) <==> k != "" && exists i :: 0 <= i < |items| && key(items[i]) == k
    ensures k in Keyed(items, key) ==>
              exists i :: 0 <= i < |items| && Keyed(items, key)[k] == items[i] && key(items[i]) == k
                          && forall j :: i < j < |items| ==> key(items[j]) != k
    decreases |items|
  {
    if items != [] {
      var n := |items| - 1;
      KeyedIsLast(items[..n], key, k);
      if key(items[n]) == k {
        assert k != "" ==> Keyed(items, key)[k] == items[n];
      } else if k in Keyed(items, key) {
        var i :| 0 <= i < n && Keyed(items[..n], key)[k] == items[..n][i] && key(items[..n][i]) == k
                 && forall j :: i < j < n ==> key(items[..n][j]) != k;
        assert Keyed(items, key)[k] == items[i];
        assert forall j :: i < j < |items| ==> j == n || items[j] == items[..n][j];
      }
    }
  }

  /** Equal keys, unless blank, mean equal elements. */
  ghost predicate KeysDetermine<T(!new)>(items: seq<T>, key: T -> string) {
    forall x, y :: x in items && y in items && key(x) == key(y) != "" ==> x == y
  }

  lemma {:induction false} KeyedOrderFree<T(!new)>(a: seq<T>, b: seq<T>, key: T -> string)
    requires multiset(a) == multiset(b) && KeysDetermine(a, key)
    ensures Keyed(a, key) == Keyed(b, key)
  {
    assert forall x :: x in a <==> x in multiset(a);
    assert forall x :: x in b <==> x in multiset(b);
    forall k ensures k in Keyed(a, key) <==> k in Keyed(b, key) {
      KeyedIsLast(a, key, k);
      KeyedIsLast(b, key, k);
      if i :| 0 <= i < |a| && key(a[i]) == k {
        assert a[i] in b;
      }
      if j :| 0 <= j < |b| && key(b[j]) == k {
        assert b[j] in a;
      }
    }
    forall k | k in Keyed(a, key) ensures Keyed(a, key)[k] == Keyed(b, key)[k] {
      KeyedIsLast(a, key, k);
      KeyedIsLast(b, key, k);
    }
  }

  /** The same resources in any order. */
  ghost predicate Reordered(x: InfraState, y: InfraState) {
    && multiset(x.servers) == multiset(y.servers) && multiset(x.networks) == multiset(y.networks)
    && multiset(x.securityGroups) == multiset(y.securityGroups) && multiset(x.loadBalancers) == multiset(y.loadBalancers)
    && multiset(x.volumes) == multiset(y.volumes) && multiset(x.floatingIPs) == multiset(y.floatingIPs)
  }

  ghost predicate WellKeyed(x: InfraState) {
    && KeysDetermine(x.servers, ServerKey) && KeysDetermine(x.networks, NetworkKey)
    && KeysDetermine(x.securityGroups, SecurityGroupKey) && KeysDetermine(x.loadBalancers, LoadBalancerKey)
    && KeysDetermine(x.volumes, VolumeKey) && KeyDetermines(multiset(x.floatingIPs), FloatingIPKey)
  }

  lemma {:induction false} ReorderedKeyed(x: InfraState, y: InfraState)
    requires Reordered(x, y) && WellKeyed(x)
    ensures Keyed(x.servers, ServerKey) == Keyed(y.servers, ServerKey)
    ensures Keyed(x.networks, NetworkKey) == Keyed(y.networks, NetworkKey)
    ensures Keyed(x.securityGroups, SecurityGroupKey) == Keyed(y.securityGroups, SecurityGroupKey)
    ensures Keyed(x.loadBalancers, LoadBalancerKey) == Keyed(y.loadBalancers, LoadBalancerKey)
    ensures Keyed(x.volumes, VolumeKey) == Keyed(y.volumes, VolumeKey)
    ensures |x.floatingIPs| == |y.floatingIPs|
  {
    KeyedOrderFree(x.servers, y.servers, ServerKey);
    KeyedOrderFree(x.networks, y.networks, NetworkKey);
    KeyedOrderFree(x.securityGroups, y.securityGroups, SecurityGroupKey);
    KeyedOrderFree(x.loadBalancers, y.loadBalancers, LoadBalancerKey);
    KeyedOrderFree(x.volumes, y.volumes, VolumeKey);
    SameSize(x.floatingIPs, y.floatingIPs);
  }

  lemma {:induction false} SortsAgree(sort: seq<FloatingIP> -> seq<FloatingIP>, sort': seq<FloatingIP> -> seq<FloatingIP>,
                                      x: seq<FloatingIP>, y: seq<FloatingIP>)
    requires IsSort(sort) && IsSort(sort') && multiset(x) == multiset(y) && KeyDetermines(multiset(x), FloatingIPKey)
    ensures sort(x) == sort'(y)
  {
    assert Sorts(sort, x) && Sorts(sort', y);
    SortedIsUnique(sort(x), sort'(y), FloatingIPKey);
  }

  /** With keys that identify elements, reordering either state's lists, or sorting by another
      algorithm, changes nothing in what is reported. */
  lemma {:induction false} OrderDoesNotMatter(sort: seq<FloatingIP> -> seq<FloatingIP>, sort': seq<FloatingIP> -> seq<FloatingIP>,
                                              d: InfraState, a: InfraState, d': InfraState, a': InfraState)
    requires IsSort(sort) && IsSort(sort')
    requires Reordered(d, d') && Reordered(a, a') && WellKeyed(d) && WellKeyed(a)
    ensures Drifts(sort, d, a) == Drifts(sort', d', a')
  {
    ReorderedKeyed(d, d');
    ReorderedKeyed(a, a');
    SortsAgree(sort, sort', d.floatingIPs, d'.floatingIPs);
    SortsAgree(sort, sort', a.floatingIPs, a'.floatingIPs);
  }
}
