/** The comparison as it runs: loops over maps in any order that append to a shared report, and
    the summary that counts what they appended. */
module DriftDetect {
  import opened Text
  import opened StringOrder
  import opened KeyedSums
  import opened Drift

  datatype Summary = Summary(total: int, critical: int, warning: int, info: int, reconcilable: int)

  const ZERO := Summary(0, 0, 0, 0, 0)

  class DriftReport {
    var clusterName: string
    var detectedAt: string
    var drifts: seq<DriftItem>
    var summary: Summary
    var overallSeverity: Severity
    var reconcilable: bool

    constructor ()
      ensures drifts == [] && summary == ZERO && clusterName == "" && detectedAt == ""
    {
      clusterName, detectedAt := "", "";
      drifts, summary, overallSeverity, reconcilable := [], ZERO, Info, false;
    }

    method Append(item: DriftItem)
      modifies `drifts
      ensures drifts == old(drifts) + [item]
      ensures multiset(drifts) == old(multiset(drifts)) + multiset{item}
    {
      drifts := drifts + [item];
    }

    /** One turn of the loop of CalculateSummary. */
    method CountIn(item: DriftItem)
      modifies `summary, `overallSeverity, `reconcilable
      ensures summary == Counted(old(summary), item).(total := old(summary.total))
      ensures overallSeverity == if Rank(item.severity) > Rank(old(overallSeverity)) then item.severity else old(overallSeverity)
      ensures reconcilable == (old(reconcilable) && item.reconcilable)
    {
      match item.severity {
        case Critical =>
          summary := summary.(critical := summary.critical + 1);
          overallSeverity := Critical;
        case Warning =>
          summary := summary.(warning := summary.warning + 1);
          if Rank(overallSeverity) < Rank(Warning) {
            overallSeverity := Warning;
          }
        case Info =>
          summary := summary.(info := summary.info + 1);
      }
      if item.reconcilable {
        summary := summary.(reconcilable := summary.reconcilable + 1);
      } else {
        reconcilable := false;
      }
    }

    method AppendWhen(b: bool, item: DriftItem)
      modifies `drifts
      ensures multiset(drifts) == old(multiset(drifts)) + When(b, item)
    {
      if b {
        Append(item);
      }
    }
  }

  /** mapByKey. */
  method MapByKey<T>(items: seq<T>, key: T -> string) returns (m: map<string, T>)
    ensures m == Keyed(items, key)
  {
    m := map[];
    for i := 0 to |items|
      invariant m == Keyed(items[..i], key)
    {
      assert items[..i + 1][..i] == items[..i];
      if key(items[i]) != "" {
        m := m[key(items[i]) := items[i]];
      }
    }
    assert items[..|items|] == items;
  }

  /** The second loop of the detectors: elements that no desired one has the key of. */
  method ReportSurplus<T>(dm: map<string, T>, am: map<string, T>, extra: (string, T) -> DriftItem, report: DriftReport)
    modifies report`drifts
    ensures multiset(report.drifts) == old(multiset(report.drifts)) + SumOver(am.Keys, Surplus(dm, am, extra))
  {
    ghost var start := multiset(report.drifts);
    ghost var g := Surplus(dm, am, extra);
    SumNone(am.Keys, g);
    var todo := am.Keys;
    while todo != {}
      invariant todo <= am.Keys
      invariant multiset(report.drifts) == start + SumOver(am.Keys - todo, g)
    {
      var k :| k in todo;
      SumNext(start, am.Keys, todo, g, k);
      if k !in dm {
        report.Append(extra(k, am[k]));
      }
      todo := todo - {k};
    }
  }

  // ---------- Servers ----------

  method DetectServerPair(key: string, d: Server, a: Server, report: DriftReport)
    modifies report`drifts
    ensures multiset(report.drifts) == old(multiset(report.drifts)) + ServerDrift(key, d, a)
  {
    Regroup(multiset(report.drifts), OwnDrift(key, d, a), SumOver(d.tags.Keys, TagDrift(key, d, a)), AttachedDrift(key, d, a));
    DetectOwn(key, d, a, report);
    DetectTags(key, d, a, report);
    report.AppendWhen(|d.networks| > 0 && !EqualStringSets(d.networks, a.networks),
                      ServerItem(key, a, Networks, List(SortStrings(d.networks)), List(SortStrings(a.networks)), Warning, false));
  }

  method DetectOwn(key: string, d: Server, a: Server, report: DriftReport)
    modifies report`drifts
    ensures multiset(report.drifts) == old(multiset(report.drifts)) + OwnDrift(key, d, a)
  {
    Regroup(multiset(report.drifts), FlavorDrift(key, d, a), ImageDrift(key, d, a), StatusDrift(key, a));
    report.AppendWhen(d.flavor != "" && a.flavor != "" && d.flavor != a.flavor,
                      ServerItem(key, a, Flavor, Str(d.flavor), Str(a.flavor), Critical, false));
    report.AppendWhen(d.image != "" && a.image != "" && d.image != a.image,
                      ServerItem(key, a, Image, Str(d.image), Str(a.image), Critical, false));
    report.AppendWhen(a.status != "" && !EqualFold(a.status, ACTIVE),
                      ServerItem(key, a, Status, Str(ACTIVE), Str(a.status), Critical, false));
  }

  method DetectTags(key: string, d: Server, a: Server, report: DriftReport)
    modifies report`drifts
    ensures multiset(report.drifts) == old(multiset(report.drifts)) + SumOver(d.tags.Keys, TagDrift(key, d, a))
  {
    ghost var start := multiset(report.drifts);
    ghost var f := TagDrift(key, d, a);
    SumNone(d.tags.Keys, f);
    var todo := d.tags.Keys;
    while todo != {}
      invariant todo <= d.tags.Keys
      invariant multiset(report.drifts) == start + SumOver(d.tags.Keys - todo, f)
    {
      var k :| k in todo;
      SumNext(start, d.tags.Keys, todo, f, k);
      var expected, actual := d.tags[k], Lookup(a.tags, k);
      report.AppendWhen(actual != expected, ServerItem(key, a, Tag(k), Str(expected), Str(actual), Info, true));
      todo := todo - {k};
    }
  }

  method DetectServerDrift(desired: seq<Server>, actual: seq<Server>, report: DriftReport)
    modifies report`drifts
    ensures multiset(report.drifts) == old(multiset(report.drifts)) + ServerDrifts(desired, actual)
  {
    var dm := MapByKey(desired, ServerKey);
    var am := MapByKey(actual, ServerKey);
    ghost var start := multiset(report.drifts);
    ghost var f := Wanted(dm, am, ServerMissing, ServerDrift);
    SumNone(dm.Keys, f);
    var todo := dm.Keys;
    while todo != {}
      invariant todo <= dm.Keys
      invariant multiset(report.drifts) == start + SumOver(dm.Keys - todo, f)
    {
      var k :| k in todo;
      SumNext(start, dm.Keys, todo, f, k);
      if k !in am {
        report.Append(ServerMissing(k, dm[k]));
      } else {
        DetectServerPair(k, dm[k], am[k], report);
      }
      todo := todo - {k};
    }
    ReportSurplus(dm, am, ServerExtra, report);
  }

  // ---------- Networks ----------

  method DetectSubnetDrift(name: string, id: string, desired: seq<Subnet>, actual: seq<Subnet>, report: DriftReport)
    modifies report`drifts
    ensures multiset(report.drifts) == old(multiset(report.drifts)) + SubnetDrifts(name, id, desired, actual)
  {
    var dm := MapByKey(desired, SubnetKey);
    var am := MapByKey(actual, SubnetKey);
    ghost var start := multiset(report.drifts);
    ghost var f := Wanted(dm, am, SubnetMissing(name, id), SubnetDrift(name, id));
    SumNone(dm.Keys, f);
    var todo := dm.Keys;
    while todo != {}
      invariant todo <= dm.Keys
      invariant multiset(report.drifts) == start + SumOver(dm.Keys - todo, f)
    {
      var k :| k in todo;
      SumNext(start, dm.Keys, todo, f, k);
      if k !in am {
        report.Append(SubnetMissing(name, id)(k, dm[k]));
      } else {
        DetectSubnetPair(name, id, k, dm[k], am[k], report);
      }
      todo := todo - {k};
    }
    ReportSurplus(dm, am, SubnetExtra(name, id), report);
  }

  method DetectSubnetPair(name: string, id: string, key: string, d: Subnet, a: Subnet, report: DriftReport)
    modifies report`drifts
    ensures multiset(report.drifts) == old(multiset(report.drifts)) + SubnetPair(name, id, key, d, a)
  {
    report.AppendWhen(d.cidr != "" && a.cidr != "" && d.cidr != a.cidr,
                      DriftItem(NetworkKind, id, name, SubnetCIDR(key), Str(d.cidr), Str(a.cidr), Critical, false));
  }

  method DetectNetworkPair(key: string, d: Network, a: Network, report: DriftReport)
    modifies report`drifts
    ensures multiset(report.drifts) == old(multiset(report.drifts)) + NetworkDrift(key, d, a)
  {
    Regroup(multiset(report.drifts), CIDRDrift(key, d, a), SubnetDrifts(key, a.id, d.subnets, a.subnets), multiset{});
    report.AppendWhen(d.cidr != "" && a.cidr != "" && d.cidr != a.cidr,
                      DriftItem(NetworkKind, a.id, key, CIDR, Str(d.cidr), Str(a.cidr), Critical, false));
    DetectSubnetDrift(key, a.id, d.subnets, a.subnets, report);
  }

  method DetectNetworkDrift(desired: seq<Network>, actual: seq<Network>, report: DriftReport)
    modifies report`drifts
    ensures multiset(report.drifts) == old(multiset(report.drifts)) + NetworkDrifts(desired, actual)
  {
    var dm := MapByKey(desired, NetworkKey);
    var am := MapByKey(actual, NetworkKey);
    ghost var start := multiset(report.drifts);
    ghost var f := Wanted(dm, am, NetworkMissing, NetworkDrift);
    SumNone(dm.Keys, f);
    var todo := dm.Keys;
    while todo != {}
      invariant todo <= dm.Keys
      invariant multiset(report.drifts) == start + SumOver(dm.Keys - todo, f)
    {
      var k :| k in todo;
      SumNext(start, dm.Keys, todo, f, k);
      if k !in am {
        report.Append(NetworkMissing(k, dm[k]));
      } else {
        DetectNetworkPair(k, dm[k], am[k], report);
      }
      todo := todo - {k};
    }
    ReportSurplus(dm, am, NetworkExtra, report);
  }

  // ---------- Security groups ----------

  /** compareSecurityRules. */
  method CompareSecurityRules(desired: seq<SecurityRule>, actual: seq<SecurityRule>)
    returns (missing: seq<SecurityRule>, riskyExtra: seq<SecurityRule>)
    ensures missing == MissingRules(desired, actual)
    ensures riskyExtra == RiskyExtra(desired, actual)
  {
    var actualSet := NormalSet(actual);
    missing := Remaining(desired, actualSet, false);
    var desiredSet := NormalSet(desired);
    riskyExtra := Remaining(actual, desiredSet, true);
  }

  method NormalSet(rules: seq<SecurityRule>) returns (normals: set<string>)
    ensures normals == Normals(rules)
  {
    normals := CollectValues(rules, Normalize);
  }

  method CollectValues<T>(s: seq<T>, f: T -> string) returns (image: set<string>)
    ensures image == ValuesOf(s, f)
  {
    image := {};
    for i := 0 to |s|
      invariant image == ValuesOf(s[..i], f)
    {
      ValuesNext(s, f, i);
      image := image + {f(s[i])};
    }
    assert s[..|s|] == s;
  }

  method Remaining(rules: seq<SecurityRule>, normals: set<string>, riskyOnly: bool) returns (left: seq<SecurityRule>)
    ensures left == Without(rules, normals, riskyOnly)
  {
    left := [];
    for i := 0 to |rules|
      invariant left == Without(rules[..i], normals, riskyOnly)
    {
      FilterNext(rules, Keep(normals, riskyOnly), i);
      if KeepRule(normals, riskyOnly, rules[i]) {
        left := left + [rules[i]];
      }
    }
    assert rules[..|rules|] == rules;
  }

  method DetectRules(key: string, d: SecurityGroup, a: SecurityGroup, report: DriftReport)
    modifies report`drifts
    ensures multiset(report.drifts) == old(multiset(report.drifts)) + SecurityGroupDrift(key, d, a)
  {
    if |d.rules| == 0 {
      return;
    }
    var missing, riskyExtra := CompareSecurityRules(d.rules, a.rules);
    ReportRules(key, d, a, missing, riskyExtra, report);
  }

  method ReportRules(key: string, d: SecurityGroup, a: SecurityGroup, missing: seq<SecurityRule>, riskyExtra: seq<SecurityRule>, report: DriftReport)
    requires d.rules != []
    modifies report`drifts
    ensures multiset(report.drifts) == old(multiset(report.drifts)) + RulesDrift(key, d, a, missing, riskyExtra)
  {
    if |missing| == 0 && |riskyExtra| == 0 {
      return;
    }
    var severity := Warning;
    if (|missing| > 0 && AnyHighRisk(missing)) || AnyHighRisk(riskyExtra) {
      severity := Critical;
    }
    report.Append(DriftItem(SecurityGroupKind, a.id, key, RuleSet, Rules(d.rules), Rules(a.rules), severity, true));
  }

  method DetectSecurityGroupDrift(desired: seq<SecurityGroup>, actual: seq<SecurityGroup>, report: DriftReport)
    modifies report`drifts
    ensures multiset(report.drifts) == old(multiset(report.drifts)) + SecurityGroupDrifts(desired, actual)
  {
    var dm := MapByKey(desired, SecurityGroupKey);
    var am := MapByKey(actual, SecurityGroupKey);
    ghost var start := multiset(report.drifts);
    ghost var f := Wanted(dm, am, SecurityGroupMissing, SecurityGroupDrift);
    SumNone(dm.Keys, f);
    var todo := dm.Keys;
    while todo != {}
      invariant todo <= dm.Keys
      invariant multiset(report.drifts) == start + SumOver(dm.Keys - todo, f)
    {
      var k :| k in todo;
      SumNext(start, dm.Keys, todo, f, k);
      if k !in am {
        report.Append(SecurityGroupMissing(k, dm[k]));
      } else {
        DetectRules(k, dm[k], am[k], report);
      }
      todo := todo - {k};
    }
    ReportSurplus(dm, am, SecurityGroupExtra, report);
  }

  // ---------- Load balancers and volumes ----------

  method DetectLoadBalancerPair(key: string, d: LoadBalancer, a: LoadBalancer, report: DriftReport)
    modifies report`drifts
    ensures multiset(report.drifts) == old(multiset(report.drifts)) + LoadBalancerDrift(key, d, a)
  {
    Regroup(multiset(report.drifts), FrontDrift(key, d, a), MembersDrift(key, d, a), multiset{});
    DetectFront(key, d, a, report);
    report.AppendWhen(|d.members| > 0 && !EqualStringSets(d.members, a.members),
                      DriftItem(LoadBalancerKind, a.id, key, Members, List(SortStrings(d.members)), List(SortStrings(a.members)), Warning, true));
  }

  method DetectFront(key: string, d: LoadBalancer, a: LoadBalancer, report: DriftReport)
    modifies report`drifts
    ensures multiset(report.drifts) == old(multiset(report.drifts)) + FrontDrift(key, d, a)
  {
    Regroup(multiset(report.drifts), ProtocolDrift(key, d, a), PortDrift(key, d, a), VIPDrift(key, d, a));
    report.AppendWhen(d.protocol != "" && a.protocol != "" && d.protocol != a.protocol,
                      LBItem(key, a, Protocol, Str(d.protocol), Str(a.protocol)));
    report.AppendWhen(d.port != 0 && a.port != 0 && d.port != a.port, LBItem(key, a, Port, Number(d.port), Number(a.port)));
    report.AppendWhen(d.vip != "" && a.vip != "" && d.vip != a.vip, LBItem(key, a, VIP, Str(d.vip), Str(a.vip)));
  }

  method DetectLoadBalancerDrift(desired: seq<LoadBalancer>, actual: seq<LoadBalancer>, report: DriftReport)
    modifies report`drifts
    ensures multiset(report.drifts) == old(multiset(report.drifts)) + LoadBalancerDrifts(desired, actual)
  {
    var dm := MapByKey(desired, LoadBalancerKey);
    var am := MapByKey(actual, LoadBalancerKey);
    ghost var start := multiset(report.drifts);
    ghost var f := Wanted(dm, am, LoadBalancerMissing, LoadBalancerDrift);
    SumNone(dm.Keys, f);
    var todo := dm.Keys;
    while todo != {}
      invariant todo <= dm.Keys
      invariant multiset(report.drifts) == start + SumOver(dm.Keys - todo, f)
    {
      var k :| k in todo;
      SumNext(start, dm.Keys, todo, f, k);
      if k !in am {
        report.Append(LoadBalancerMissing(k, dm[k]));
      } else {
        DetectLoadBalancerPair(k, dm[k], am[k], report);
      }
      todo := todo - {k};
    }
    ReportSurplus(dm, am, LoadBalancerExtra, report);
  }

  method DetectVolumePair(key: string, d: Volume, a: Volume, report: DriftReport)
    modifies report`drifts
    ensures multiset(report.drifts) == old(multiset(report.drifts)) + VolumeDrift(key, d, a)
  {
    Regroup(multiset(report.drifts), SizeDrift(key, d, a), VolumeStatusDrift(key, d, a), AttachmentDrift(key, d, a));
    report.AppendWhen(d.size > 0 && a.size > 0 && d.size != a.size, VolumeItem(key, a, Size, Number(d.size), Number(a.size), Warning));
    report.AppendWhen(d.status != "" && a.status != "" && !EqualFold(d.status, a.status),
                      VolumeItem(key, a, Status, Str(d.status), Str(a.status), Critical));
    report.AppendWhen(d.attachedTo != "" && a.attachedTo != "" && d.attachedTo != a.attachedTo,
                      VolumeItem(key, a, AttachedTo, Str(d.attachedTo), Str(a.attachedTo), Critical));
  }

  method DetectVolumeDrift(desired: seq<Volume>, actual: seq<Volume>, report: DriftReport)
    modifies report`drifts
    ensures multiset(report.drifts) == old(multiset(report.drifts)) + VolumeDrifts(desired, actual)
  {
    var dm := MapByKey(desired, VolumeKey);
    var am := MapByKey(actual, VolumeKey);
    ghost var start := multiset(report.drifts);
    ghost var f := Wanted(dm, am, VolumeMissing, VolumeDrift);
    SumNone(dm.Keys, f);
    var todo := dm.Keys;
    while todo != {}
      invariant todo <= dm.Keys
      invariant multiset(report.drifts) == start + SumOver(dm.Keys - todo, f)
    {
      var k :| k in todo;
      SumNext(start, dm.Keys, todo, f, k);
      if k !in am {
        report.Append(VolumeMissing(k, dm[k]));
      } else {
        DetectVolumePair(k, dm[k], am[k], report);
      }
      todo := todo - {k};
    }
    ReportSurplus(dm, am, VolumeExtra, report);
  }

  // ---------- Floating IPs ----------

  method DetectFloatingIPPair(name: string, d: FloatingIP, a: FloatingIP, report: DriftReport)
    modifies report`drifts
    ensures multiset(report.drifts) == old(multiset(report.drifts)) + FloatingIPDrift(name, d, a)
  {
    Regroup(multiset(report.drifts), AddressDrift(name, d, a), TargetDrift(name, d, a), FloatingStatusDrift(name, d, a));
    report.AppendWhen(d.address != "" && a.address != "" && d.address != a.address,
                      FloatingIPItem(name, a, Address, d.address, a.address, Warning));
    report.AppendWhen(d.attachedTo != "" && a.attachedTo != "" && d.attachedTo != a.attachedTo,
                      FloatingIPItem(name, a, AttachedTo, d.attachedTo, a.attachedTo, Critical));
    report.AppendWhen(d.status != "" && a.status != "" && !EqualFold(d.status, a.status),
                      FloatingIPItem(name, a, Status, d.status, a.status, Warning));
  }

  method DetectFloatingIPDrift(sort: seq<FloatingIP> -> seq<FloatingIP>, desired: seq<FloatingIP>, actual: seq<FloatingIP>, report: DriftReport)
    requires IsSort(sort)
    modifies report`drifts
    ensures multiset(report.drifts) == old(multiset(report.drifts)) + FloatingIPDrifts(sort, desired, actual)
  {
    SortKeepsLength(sort, desired);
    SortKeepsLength(sort, actual);
    if |desired| == 0 && |actual| == 0 {
      return;
    }
    var d, a := sort(desired), sort(actual);
    Regroup(multiset(report.drifts), When(|desired| != |actual|, CountItem(|desired|, |actual|)), SumTo(Min(|d|, |a|), PairDrift(d, a)), multiset{});
    report.AppendWhen(|desired| != |actual|, CountItem(|desired|, |actual|));
    DetectPairs(d, a, PairDrift(d, a), report);
  }

  /** The loop over pairs in key order; f is what the i-th pair adds. */
  method DetectPairs(d: seq<FloatingIP>, a: seq<FloatingIP>, ghost f: int -> multiset<DriftItem>, report: DriftReport)
    requires forall i :: 0 <= i < |d| && i < |a| ==> f(i) == FloatingIPDrift(FloatingIPName(i, a[i]), d[i], a[i])
    modifies report`drifts
    ensures multiset(report.drifts) == old(multiset(report.drifts)) + SumTo(Min(|d|, |a|), f)
  {
    ghost var start := multiset(report.drifts);
    var i := 0;
    while i < |d| && i < |a|
      invariant i <= |d| && i <= |a|
      invariant multiset(report.drifts) == start + SumTo(i, f)
      decreases |d| - i
    {
      SumToNext(start, i, f);
      DetectFloatingIPPair(FloatingIPName(i, a[i]), d[i], a[i], report);
      i := i + 1;
    }
  }

  lemma SortKeepsLength(sort: seq<FloatingIP> -> seq<FloatingIP>, s: seq<FloatingIP>)
    requires IsSort(sort)
    ensures |sort(s)| == |s|
  {
    assert Sorts(sort, s);
    SameSize(sort(s), s);
  }

  // ---------- Summary ----------

  /** A summary with one more item. */
  function Counted(s: Summary, item: DriftItem): Summary {
    Summary(s.total + 1,
            s.critical + (if item.severity == Critical then 1 else 0), s.warning + (if item.severity == Warning then 1 else 0),
            s.info + (if item.severity == Info then 1 else 0), s.reconcilable + (if item.reconcilable then 1 else 0))
  }

  function Tally(drifts: seq<DriftItem>): (t: Summary)
    ensures t.total == |drifts|
  {
    if drifts == [] then ZERO else Counted(Tally(drifts[..|drifts| - 1]), drifts[|drifts| - 1])
  }

  function Rank(s: Severity): nat {
    match s case Info => 0 case Warning => 1 case Critical => 2
  }

  /** The highest severity in the list, Info for an empty one. */
  function Highest(drifts: seq<DriftItem>): Severity {
    if drifts == [] then Info
    else
      var last, before := drifts[|drifts| - 1], Highest(drifts[..|drifts| - 1]);
      if Rank(last.severity) > Rank(before) then last.severity else before
  }

  predicate AllReconcilable(drifts: seq<DriftItem>) {
    drifts == [] || (AllReconcilable(drifts[..|drifts| - 1]) && drifts[|drifts| - 1].reconcilable)
  }

  lemma TallyNext(drifts: seq<DriftItem>, i: nat)
    requires i < |drifts|
    ensures Tally(drifts[..i + 1]) == Counted(Tally(drifts[..i]), drifts[i])
    ensures var item, h := drifts[i], Highest(drifts[..i]);
      Highest(drifts[..i + 1]) == if Rank(item.severity) > Rank(h) then item.severity else h
    ensures AllReconcilable(drifts[..i + 1]) <==> AllReconcilable(drifts[..i]) && drifts[i].reconcilable
  {
    assert drifts[..i + 1] == drifts[..i] + [drifts[i]] && drifts[..i + 1][..i] == drifts[..i];
  }

  /** The counters, which the source does not reset, after counting a list on top of them. */
  function Added(s: Summary, t: Summary): Summary {
    Summary(t.total, s.critical + t.critical, s.warning + t.warning, s.info + t.info, s.reconcilable + t.reconcilable)
  }

  /** CalculateSummary. */
  method CalculateSummary(report: DriftReport)
    modifies report`summary, report`overallSeverity, report`reconcilable
    ensures report.summary == Added(old(report.summary), Tally(report.drifts))
    ensures report.overallSeverity == Highest(report.drifts)
    ensures report.reconcilable <==> AllReconcilable(report.drifts)
  {
    ghost var before := report.summary;
    var drifts := report.drifts;
    report.summary := report.summary.(total := |drifts|);
    report.reconcilable := true;
    report.overallSeverity := Info;
    for i := 0 to |drifts|
      invariant report.summary == Added(before, Tally(drifts[..i])).(total := |drifts|)
      invariant report.overallSeverity == Highest(drifts[..i])
      invariant report.reconcilable <==> AllReconcilable(drifts[..i])
    {
      TallyNext(drifts, i);
      report.CountIn(drifts[i]);
    }
    assert drifts[..|drifts|] == drifts;
  }

  /** CompareInfrastructureState; a missing state counts as an empty one. */
  method CompareInfrastructureState(sort: seq<FloatingIP> -> seq<FloatingIP>, desired: Option<InfraState>, actual: Option<InfraState>)
    returns (report: DriftReport)
    requires IsSort(sort)
    ensures fresh(report)
    ensures multiset(report.drifts) == Drifts(sort, StateOf(desired), StateOf(actual)) && Summarised(report)
  {
    report := CompareStates(sort, StateOf(desired), StateOf(actual));
  }

  method CompareStates(sort: seq<FloatingIP> -> seq<FloatingIP>, d: InfraState, a: InfraState) returns (report: DriftReport)
    requires IsSort(sort)
    ensures fresh(report) && multiset(report.drifts) == Drifts(sort, d, a) && Summarised(report)
  {
    report := new DriftReport();
    DetectAll(sort, d, a, report);
    Summarise(report);
  }

  method Summarise(report: DriftReport)
    requires report.summary == ZERO
    modifies report`summary, report`overallSeverity, report`reconcilable
    ensures Summarised(report)
  {
    CalculateSummary(report);
  }

  ghost predicate Summarised(report: DriftReport)
    reads report
  {
    (report.summary, report.overallSeverity, report.reconcilable)
    == (Tally(report.drifts), Highest(report.drifts), AllReconcilable(report.drifts))
  }

  method DetectAll(sort: seq<FloatingIP> -> seq<FloatingIP>, d: InfraState, a: InfraState, report: DriftReport)
    requires IsSort(sort) && report.drifts == []
    modifies report`drifts
    ensures multiset(report.drifts) == Drifts(sort, d, a)
  {
    DetectCompute(d, a, report);
    DetectServices(sort, d, a, report);
  }

  method DetectCompute(d: InfraState, a: InfraState, report: DriftReport)
    modifies report`drifts
    ensures multiset(report.drifts) == old(multiset(report.drifts))
            + (ServerDrifts(d.servers, a.servers) + NetworkDrifts(d.networks, a.networks)
               + SecurityGroupDrifts(d.securityGroups, a.securityGroups))
  {
    Regroup(multiset(report.drifts), ServerDrifts(d.servers, a.servers), NetworkDrifts(d.networks, a.networks),
            SecurityGroupDrifts(d.securityGroups, a.securityGroups));
    DetectServerDrift(d.servers, a.servers, report);
    DetectNetworkDrift(d.networks, a.networks, report);
    DetectSecurityGroupDrift(d.securityGroups, a.securityGroups, report);
  }

  method DetectServices(sort: seq<FloatingIP> -> seq<FloatingIP>, d: InfraState, a: InfraState, report: DriftReport)
    requires IsSort(sort)
    modifies report`drifts
    ensures multiset(report.drifts) == old(multiset(report.drifts))
            + (LoadBalancerDrifts(d.loadBalancers, a.loadBalancers) + VolumeDrifts(d.volumes, a.volumes)
               + FloatingIPDrifts(sort, d.floatingIPs, a.floatingIPs))
  {
    Regroup(multiset(report.drifts), LoadBalancerDrifts(d.loadBalancers, a.loadBalancers), VolumeDrifts(d.volumes, a.volumes),
            FloatingIPDrifts(sort, d.floatingIPs, a.floatingIPs));
    DetectLoadBalancerDrift(d.loadBalancers, a.loadBalancers, report);
    DetectVolumeDrift(d.volumes, a.volumes, report);
    DetectFloatingIPDrift(sort, d.floatingIPs, a.floatingIPs, report);
  }

  function StateOf(s: Option<InfraState>): InfraState {
    if s.Some? then s.value else EMPTY_STATE
  }

  // ---------- Filtering ----------

  predicate HasSeverity(s: Severity, item: DriftItem) {
    item.severity == s
  }

  function OfSeverity(s: Severity): DriftItem -> bool {
    item => HasSeverity(s, item)
  }

  function Only(drifts: seq<DriftItem>, s: Severity): seq<DriftItem> {
    Filter(drifts, OfSeverity(s))
  }

  function ParseSeverity(name: string): Option<Severity> {
    if name == "critical" then Some(Critical)
    else if name == "warning" then Some(Warning)
    else if name == "info" then Some(Info)
    else None
  }

  /** filterBySeverity of cmd/cluster_drift.go: an unknown name gives the report itself, unchanged;
      a known one a new report, counted again. */
  method FilterBySeverity(report: DriftReport, name: string) returns (filtered: DriftReport)
    ensures ParseSeverity(name).None? ==> filtered == report
    ensures ParseSeverity(name).Some? ==>
              && fresh(filtered) && filtered.drifts == Only(report.drifts, ParseSeverity(name).value)
              && Summarised(filtered)
              && filtered.clusterName == report.clusterName && filtered.detectedAt == report.detectedAt
  {
    var target := ParseSeverity(name);
    if target.None? {
      return report;
    }
    var kept: seq<DriftItem> := [];
    for i := 0 to |report.drifts|
      invariant kept == Only(report.drifts[..i], target.value)
    {
      FilterNext(report.drifts, OfSeverity(target.value), i);
      if report.drifts[i].severity == target.value {
        kept := kept + [report.drifts[i]];
      }
    }
    assert report.drifts[..|report.drifts|] == report.drifts;
    filtered := new DriftReport();
    filtered.clusterName, filtered.detectedAt := report.clusterName, report.detectedAt;
    filtered.drifts := kept;
    Recount(filtered);
  }

  /** The summary filterBySeverity computes for itself. */
  method Recount(filtered: DriftReport)
    requires filtered.summary == ZERO
    modifies filtered`summary, filtered`overallSeverity, filtered`reconcilable
    ensures Summarised(filtered)
  {
    var drifts := filtered.drifts;
    var critical, warning, info, reconcilable := 0, 0, 0, 0;
    filtered.reconcilable := true;
    filtered.overallSeverity := Info;
    for i := 0 to |drifts|
      invariant Summary(i, critical, warning, info, reconcilable) == Tally(drifts[..i])
      invariant filtered.overallSeverity == Highest(drifts[..i])
      invariant filtered.reconcilable <==> AllReconcilable(drifts[..i])
    {
      var drift := drifts[i];
      TallyNext(drifts, i);
      if drift.severity == Critical {
        critical, filtered.overallSeverity := critical + 1, Critical;
      } else if drift.severity == Warning {
        warning := warning + 1;
        if Rank(filtered.overallSeverity) < Rank(Warning) {
          filtered.overallSeverity := Warning;
        }
      } else {
        info := info + 1;
      }
      if drift.reconcilable {
        reconcilable := reconcilable + 1;
      } else {
        filtered.reconcilable := false;
      }
    }
    assert drifts[..|drifts|] == drifts;
    filtered.summary := Summary(|drifts|, critical, warning, info, reconcilable);
  }
}
