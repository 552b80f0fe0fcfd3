/** Which servers, volumes and other parts a configuration asks for, one by one (buildDesiredState of
    cmd/cluster_drift.go). */
module DesiredNodes {
  import opened Text
  import opened Drift
  import opened DesiredState

  /** The node pools. */
  datatype Who = Masters | Workers | Windows(k: nat)

  predicate Has(c: Config, who: Who) {
    who.Windows? ==> who.k < |c.pools|
  }

  predicate OnVMware(c: Config) {
    ToLower(TrimSpace(c.provider)) == "vmware" || ToLower(TrimSpace(c.provider)) == "vsphere"
  }

  predicate OnOpenStack(c: Config) {
    ToLower(TrimSpace(c.provider)) == "openstack"
  }

  function CountOf(c: Config, who: Who): int
    requires Has(c, who)
  {
    match who case Masters => c.masterCount case Workers => c.workerCount case Windows(k) => c.pools[k].count
  }

  function NameOf(c: Config, who: Who, i: nat): string
    requires Has(c, who)
  {
    c.clusterName + "-" + ((match who case Masters => "master" case Workers => "worker" case Windows(k) => c.pools[k].name)
                           + "-" + Decimal(i + 1))
  }

  function FlavorOf(c: Config, who: Who): string
    requires Has(c, who)
  {
    match who
    case Masters => if OnVMware(c) then "" else c.flavorMaster
    case Workers => if OnVMware(c) then "" else c.flavorWorker
    case Windows(k) => c.pools[k].flavor
  }

  function ImageOf(c: Config, who: Who): string {
    if OnOpenStack(c) && c.openstack.Some? && !who.Windows? then c.openstack.value.imageID else ""
  }

  function NetworkName(c: Config): string {
    if c.vmware.Some? then TrimSpace(c.vmware.value.network) else ""
  }

  function NetworksOf(c: Config, who: Who): seq<string> {
    if OnVMware(c) && !who.Windows? && NetworkName(c) != "" then [NetworkName(c)] else []
  }

  /** The tags of a node and no others. */
  predicate TagsOf(c: Config, who: Who, tags: map<string, string>)
    requires Has(c, who)
  {
    && tags.Keys == (if who.Windows? then {"cluster", "role", "os", "pool"} else {"cluster", "role"})
    && tags["cluster"] == c.clusterName
    && tags["role"] == (if who.Masters? then "control-plane" else "worker")
    && (who.Windows? ==> tags["os"] == "windows" && tags["pool"] == c.pools[who.k].name)
  }

  /** The i-th server of a pool. */
  predicate ServerOf(c: Config, who: Who, i: nat, s: Server)
    requires Has(c, who)
  {
    && s.id == "" && s.name == NameOf(c, who, i) && s.flavor == FlavorOf(c, who) && s.image == ImageOf(c, who)
    && s.status == "ACTIVE" && s.networks == NetworksOf(c, who) && TagsOf(c, who, s.tags)
  }

  function BootSize(c: Config, who: Who): int
    requires Has(c, who)
  {
    match who
    case Masters => if OnVMware(c) then 0 else c.masterVolumeSize
    case Workers => if OnVMware(c) then 0 else c.workerVolumeSize
    case Windows(k) => c.pools[k].bootVolumeSize
  }

  /** The volume of the i-th node: a boot volume if its size is given; on VMware the disk on the datastore,
      if one is named. */
  predicate VolumeOf(c: Config, who: Who, i: nat, v: Volume)
    requires Has(c, who)
  {
    && v.id == "" && v.status == "in-use"
    && if BootSize(c, who) > 0 then
         v.name == NameOf(c, who, i) + "-boot" && v.size == BootSize(c, who) && v.attachedTo == NameOf(c, who, i)
       else
         && OnVMware(c) && !who.Windows? && c.vmware.Some? && TrimSpace(c.vmware.value.datastore) != ""
         && v.name == NameOf(c, who, i) + ("@" + TrimSpace(c.vmware.value.datastore)) && v.size == 0 && v.attachedTo == ""
  }

  // ---------- Groups ----------

  function Index(who: Who): nat {
    match who case Masters => 0 case Workers => 1 case Windows(k) => 2 + k
  }

  function WhoAt(k: nat): Who {
    if k == 0 then Masters else if k == 1 then Workers else Windows(k - 2)
  }

  lemma ProviderIs(c: Config)
    ensures CanonicalProvider(c.provider) == "vmware" <==> OnVMware(c)
    ensures CanonicalProvider(c.provider) == "openstack" <==> OnOpenStack(c)
  {
  }

  lemma GroupsAre(c: Config)
    ensures |Groups(c)| == 2 + |c.pools| && Groups(c)[0] == MainGroups(c)[0] && Groups(c)[1] == MainGroups(c)[1]
    ensures forall k :: 0 <= k < |c.pools| ==> Groups(c)[2 + k] == PoolGroup(c, c.pools[k])
  {
  }

  lemma MainServer(c: Config, who: Who, i: nat, s: Server)
    requires !who.Windows?
    ensures ServerOf(c, who, i, s) <==> s == NodeServer(c.clusterName, MainGroups(c)[Index(who)], i)
  {
    ProviderIs(c);
    var g := MainGroups(c)[Index(who)];
    var role := if who.Masters? then "control-plane" else "worker";
    assert g.tags == map["cluster" := c.clusterName, "role" := role];
    assert TagsOf(c, who, s.tags) <==> s.tags == g.tags;
  }

  lemma PoolServer(c: Config, k: nat, i: nat, s: Server)
    requires k < |c.pools|
    ensures ServerOf(c, Windows(k), i, s) <==> s == NodeServer(c.clusterName, PoolGroup(c, c.pools[k]), i)
  {
    var g := PoolGroup(c, c.pools[k]);
    assert g.tags == map["cluster" := c.clusterName, "role" := "worker", "os" := "windows", "pool" := c.pools[k].name];
    assert TagsOf(c, Windows(k), s.tags) <==> s.tags == g.tags;
  }

  lemma ServerIsOf(c: Config, who: Who, i: nat, s: Server)
    requires Has(c, who)
    ensures Index(who) < |Groups(c)| && Groups(c)[Index(who)].count == CountOf(c, who)
    ensures ServerOf(c, who, i, s) <==> s == NodeServer(c.clusterName, Groups(c)[Index(who)], i)
  {
    GroupsAre(c);
    if who.Windows? {
      PoolServer(c, who.k, i, s);
    } else {
      MainServer(c, who, i, s);
    }
  }

  ghost predicate AsksFor(c: Config, s: Server) {
    exists who, i: nat :: AsksAt(c, s, who, i)
  }

  predicate AsksAt(c: Config, s: Server, who: Who, i: nat) {
    Has(c, who) && i < CountOf(c, who) && ServerOf(c, who, i, s)
  }

  lemma CountAt(c: Config, k: nat)
    requires k < |Groups(c)|
    ensures Has(c, WhoAt(k)) && Index(WhoAt(k)) == k && CountOf(c, WhoAt(k)) == Groups(c)[k].count
  {
    GroupsAre(c);
  }

  lemma {:induction false} AskedBy(c: Config, s: Server) returns (who: Who, i: nat)
    requires s in AllServers(c.clusterName, Groups(c))
    ensures AsksAt(c, s, who, i)
  {
    var k: nat;
    k, i := ServerIsNode(c.clusterName, Groups(c), s);
    who := WhoAt(k);
    CountAt(c, k);
    ServerIsOf(c, who, i, s);
  }

  lemma {:induction false} AskedIsThere(c: Config, s: Server, who: Who, i: nat)
    requires AsksAt(c, s, who, i)
    ensures s in AllServers(c.clusterName, Groups(c))
  {
    ServerIsOf(c, who, i, s);
    NodeIsServer(c.clusterName, Groups(c), Index(who), i);
  }

  /** The desired servers are those the configuration asks for: of each pool as many as it counts. */
  lemma {:induction false} ServersIff(c: Config, s: Server)
    ensures s in Desired(c).servers <==> AsksFor(c, s)
  {
    NodesKept(c);
    if s in AllServers(c.clusterName, Groups(c)) {
      var who, i := AskedBy(c, s);
    }
    if who, i: nat :| AsksAt(c, s, who, i) {
      AskedIsThere(c, s, who, i);
    }
  }

  // ---------- Volumes ----------

  lemma MainVolume(c: Config, who: Who, i: nat, v: Volume)
    requires !who.Windows?
    ensures VolumeOf(c, who, i, v) <==> v in NodeVolumes(c.clusterName, MainGroups(c)[Index(who)], i)
  {
    ProviderIs(c);
  }

  lemma PoolVolume(c: Config, k: nat, i: nat, v: Volume)
    requires k < |c.pools|
    ensures VolumeOf(c, Windows(k), i, v) <==> v in NodeVolumes(c.clusterName, PoolGroup(c, c.pools[k]), i)
  {
  }

  lemma VolumeIsOf(c: Config, who: Who, i: nat, v: Volume)
    requires Has(c, who)
    ensures Index(who) < |Groups(c)| && Groups(c)[Index(who)].count == CountOf(c, who)
    ensures VolumeOf(c, who, i, v) <==> v in NodeVolumes(c.clusterName, Groups(c)[Index(who)], i)
  {
    GroupsAre(c);
    if who.Windows? {
      PoolVolume(c, who.k, i, v);
    } else {
      MainVolume(c, who, i, v);
    }
  }

  predicate StoresAt(c: Config, v: Volume, who: Who, i: nat) {
    Has(c, who) && i < CountOf(c, who) && VolumeOf(c, who, i, v)
  }

  ghost predicate Stores(c: Config, v: Volume) {
    exists who, i: nat :: StoresAt(c, v, who, i)
  }

  lemma {:induction false} NodeHasVolume(cluster: string, g: Group, n: nat, i: nat, v: Volume)
    requires i < n && v in NodeVolumes(cluster, g, i)
    ensures v in Volumes(cluster, g, n)
  {
    if i < n - 1 {
      NodeHasVolume(cluster, g, n - 1, i, v);
    }
  }

  lemma {:induction false} GroupHasVolume(cluster: string, gs: seq<Group>, k: nat, i: nat, v: Volume)
    requires k < |gs| && i < Turns(gs[k].count) && v in NodeVolumes(cluster, gs[k], i)
    ensures v in AllVolumes(cluster, gs)
    decreases |gs|
  {
    var n := |gs| - 1;
    if k < n {
      assert gs[..n][k] == gs[k];
      GroupHasVolume(cluster, gs[..n], k, i, v);
    } else {
      NodeHasVolume(cluster, gs[n], Turns(gs[n].count), i, v);
    }
  }

  lemma {:induction false} StoredBy(c: Config, v: Volume) returns (who: Who, i: nat)
    requires v in AllVolumes(c.clusterName, Groups(c))
    ensures StoresAt(c, v, who, i)
  {
    var k: nat;
    k, i := VolumeIsDisk(c.clusterName, Groups(c), v);
    who := WhoAt(k);
    CountAt(c, k);
    VolumeIsOf(c, who, i, v);
  }

  lemma {:induction false} StoredIsThere(c: Config, v: Volume, who: Who, i: nat)
    requires StoresAt(c, v, who, i)
    ensures v in AllVolumes(c.clusterName, Groups(c))
  {
    VolumeIsOf(c, who, i, v);
    GroupHasVolume(c.clusterName, Groups(c), Index(who), i, v);
  }

  /** The desired volumes are those of the nodes asked for. */
  lemma {:induction false} VolumesIff(c: Config, v: Volume)
    ensures v in Desired(c).volumes <==> Stores(c, v)
  {
    NodesKept(c);
    if v in AllVolumes(c.clusterName, Groups(c)) {
      var who, i := StoredBy(c, v);
    }
    if who, i: nat :| StoresAt(c, v, who, i) {
      StoredIsThere(c, v, who, i);
    }
  }

  // ---------- Ways to the API ----------

  predicate WantsOctavia(c: Config) {
    c.useOctavia || (c.openstack.Some? && c.openstack.value.useOctavia)
  }

  function AllowedToAPI(c: Config): seq<string> {
    if c.openstack.Some? && c.openstack.value.networking.Some? then c.openstack.value.networking.value.apiACL else []
  }

  /** The first that is not blank, after trimming. */
  function Given(a: string, b: Option<string>): string {
    if TrimSpace(a) != "" || b.None? then TrimSpace(a) else TrimSpace(b.value)
  }

  function FloatingPool(c: Config): string {
    if c.openstack.None? then ""
    else
      var os := c.openstack.value;
      Given(os.floatingIPPool, if os.networking.Some? then Some(os.networking.value.floatingIPPool) else None)
  }

  function NetworkID(c: Config): string {
    if c.openstack.None? then ""
    else
      var os := c.openstack.value;
      Given(os.networkID, if os.networking.Some? then Some(os.networking.value.networkID) else None)
  }

  function SubnetID(c: Config): string {
    if c.openstack.None? then ""
    else
      var os := c.openstack.value;
      Given(os.subnetID, if os.networking.Some? then Some(os.networking.value.subnetID) else None)
  }

  lemma FieldsAre(c: Config)
    ensures OSField(c, (o: OpenStack) => o.networkID, (n: OpenStackNetworking) => n.networkID) == NetworkID(c)
    ensures OSField(c, (o: OpenStack) => o.subnetID, (n: OpenStackNetworking) => n.subnetID) == SubnetID(c)
    ensures OSField(c, (o: OpenStack) => o.floatingIPPool, (n: OpenStackNetworking) => n.floatingIPPool) == FloatingPool(c)
  {
  }

  /** Only on OpenStack the API is reached through a load balancer or a floating IP; of the two both, one or
      none, by the settings; and a floating IP never where Octavia balances. */
  lemma {:induction false} WaysIn(c: Config)
    ensures var d := Desired(c);
      && (d.loadBalancers != [] <==>
            OnOpenStack(c) && (WantsOctavia(c) || c.loadbalancerProvider == "ovn" || c.loadbalancerProvider == "octavia"))
      && (d.floatingIPs != [] <==>
            OnOpenStack(c) && !WantsOctavia(c) && c.loadbalancerProvider != "octavia" && FloatingPool(c) != "")
      && |d.loadBalancers| <= 1 && |d.floatingIPs| <= 1
      && (d.loadBalancers != [] ==> d.loadBalancers[0] == LoadBalancer("", c.clusterName + "-api", "", [], "TCP", 6443))
      && (d.floatingIPs != [] ==> d.floatingIPs[0] == FloatingIP("cluster-api", "", "ACTIVE", ""))
  {
    ProviderIs(c);
    FieldsAre(c);
  }

  lemma {:induction false} RuleAt(acl: seq<string>, i: nat)
    requires i < |acl|
    ensures APIRules(acl)[i] == SecurityRule("", "ingress", "tcp", "6443", acl[i], "")
  {
    if i < |acl| - 1 {
      RuleAt(acl[..|acl| - 1], i);
    }
  }

  /** The control plane has one rule for every address allowed to the API, in order, and the workers none;
      other providers have no groups. */
  lemma {:induction false} GroupsAllow(c: Config, i: nat)
    ensures var gs := Desired(c).securityGroups;
      if OnOpenStack(c) then
        && |gs| == 2 && gs[0].name == c.clusterName + "-control-plane-sg" && gs[1] == SecurityGroup("", c.clusterName + "-worker-sg", [])
        && |gs[0].rules| == |AllowedToAPI(c)|
        && (i < |AllowedToAPI(c)| ==> gs[0].rules[i] == SecurityRule("", "ingress", "tcp", "6443", AllowedToAPI(c)[i], ""))
      else gs == []
  {
    ProviderIs(c);
    if i < |AllowedToAPI(c)| {
      RuleAt(AllowedToAPI(c), i);
    }
  }

  /** One network at most, and what is in it. */
  lemma {:induction false} NetworksAre(c: Config)
    ensures var ns := Desired(c).networks;
      if OnOpenStack(c) then
        ns == [Network(NetworkID(c), if NetworkID(c) != "" then NetworkID(c) else c.clusterName + "-network", "",
                       [Subnet(SubnetID(c), c.clusterName + "-subnet-nodes", c.subnetNodes)])]
      else if OnVMware(c) then ns == if NetworkName(c) != "" then [Network("", NetworkName(c), "", [])] else []
      else ns == [Network("", c.clusterName + "-network", "", [Subnet("", c.clusterName + "-subnet-nodes", c.subnetNodes)])]
  {
    ProviderIs(c);
    FieldsAre(c);
  }
}
