/** buildDesiredState of cmd/cluster_drift.go: the infrastructure state a configuration asks for,
    and that every node and volume it names is kept apart by its comparison key. */
module DesiredState {
  import opened Text
  import opened StringOrder
  import opened Drift
  import opened DriftDetect
  import opened DriftLaws

  datatype Pool = Pool(name: string, flavor: string, count: int, bootVolumeSize: int)

  datatype OpenStackNetworking = OpenStackNetworking(networkID: string, subnetID: string, floatingIPPool: string, apiACL: seq<string>)

  datatype OpenStack = OpenStack(imageID: string, networkID: string, subnetID: string, floatingIPPool: string, useOctavia: bool,
                                 networking: Option<OpenStackNetworking>)

  datatype VMware = VMware(network: string, datastore: string)

  datatype Config = Config(
    provider: string, clusterName: string, masterCount: int, workerCount: int, flavorMaster: string, flavorWorker: string,
    masterVolumeSize: int, workerVolumeSize: int, pools: seq<Pool>, subnetNodes: string, useOctavia: bool,
    loadbalancerProvider: string, openstack: Option<OpenStack>, vmware: Option<VMware>)

  function CanonicalProvider(provider: string): string {
    var p := ToLower(TrimSpace(provider));
    if p == "vsphere" then "vmware" else p
  }

  // ---------- Nodes ----------

  /** The disk that comes with a node. */
  datatype Disk = NoDisk | Boot(size: int) | OnDatastore(datastore: string)

  /** Nodes that differ only in their number. */
  datatype Group = Group(prefix: string, count: int, flavor: string, image: string, networks: seq<string>, tags: map<string, string>, disk: Disk)

  function NodeName(cluster: string, prefix: string, i: nat): string {
    cluster + "-" + (prefix + "-" + Decimal(i + 1))
  }

  function NodeServer(cluster: string, g: Group, i: nat): Server {
    Server("", NodeName(cluster, g.prefix, i), g.flavor, g.image, ACTIVE, g.networks, g.tags)
  }

  function NodeVolumes(cluster: string, g: Group, i: nat): seq<Volume> {
    var name := NodeName(cluster, g.prefix, i);
    match g.disk
    case NoDisk => []
    case Boot(size) => [Volume("", name + "-boot", size, "in-use", name)]
    case OnDatastore(ds) => [Volume("", name + ("@" + ds), 0, "in-use", "")]
  }

  function Servers(cluster: string, g: Group, n: nat): (r: seq<Server>)
    ensures |r| == n && forall i :: 0 <= i < n ==> r[i] == NodeServer(cluster, g, i)
  {
    if n == 0 then [] else Servers(cluster, g, n - 1) + [NodeServer(cluster, g, n - 1)]
  }

  function Volumes(cluster: string, g: Group, n: nat): seq<Volume> {
    if n == 0 then [] else Volumes(cluster, g, n - 1) + NodeVolumes(cluster, g, n - 1)
  }

  /** A loop from 0 to a count that may be negative. */
  function Turns(count: int): nat {
    if count > 0 then count else 0
  }

  function AllServers(cluster: string, gs: seq<Group>): seq<Server> {
    if gs == [] then []
    else AllServers(cluster, gs[..|gs| - 1]) + Servers(cluster, gs[|gs| - 1], Turns(gs[|gs| - 1].count))
  }

  function AllVolumes(cluster: string, gs: seq<Group>): seq<Volume> {
    if gs == [] then []
    else AllVolumes(cluster, gs[..|gs| - 1]) + Volumes(cluster, gs[|gs| - 1], Turns(gs[|gs| - 1].count))
  }

  function BootDisk(size: int): Disk {
    if size > 0 then Boot(size) else NoDisk
  }

  function RoleTags(c: Config, role: string): map<string, string> {
    map["cluster" := c.clusterName, "role" := role]
  }

  function MainGroups(c: Config): seq<Group> {
    if CanonicalProvider(c.provider) == "vmware" then VMwareGroups(c, DatastoreDisk(Datastore(c)))
    else
      var image := if CanonicalProvider(c.provider) == "openstack" && c.openstack.Some? then c.openstack.value.imageID else "";
      CloudGroups(c, image)
  }

  function Datastore(c: Config): string {
    if c.vmware.Some? then TrimSpace(c.vmware.value.datastore) else ""
  }

  function DatastoreDisk(datastore: string): Disk {
    if datastore != "" then OnDatastore(datastore) else NoDisk
  }

  function VMwareGroups(c: Config, disk: Disk): seq<Group> {
    var network := if c.vmware.Some? then TrimSpace(c.vmware.value.network) else "";
    var networks := if network != "" then [network] else [];
    [Group("master", c.masterCount, "", "", networks, RoleTags(c, "control-plane"), disk),
     Group("worker", c.workerCount, "", "", networks, RoleTags(c, "worker"), disk)]
  }

  function CloudGroups(c: Config, image: string): seq<Group> {
    [Group("master", c.masterCount, c.flavorMaster, image, [], RoleTags(c, "control-plane"), BootDisk(c.masterVolumeSize)),
     Group("worker", c.workerCount, c.flavorWorker, image, [], RoleTags(c, "worker"), BootDisk(c.workerVolumeSize))]
  }

  function PoolGroup(c: Config, p: Pool): Group {
    Group(p.name, p.count, p.flavor, "", [], RoleTags(c, "worker")["os" := "windows"]["pool" := p.name], BootDisk(p.bootVolumeSize))
  }

  function PoolGroups(c: Config, pools: seq<Pool>): (gs: seq<Group>)
    ensures |gs| == |pools| && forall i :: 0 <= i < |gs| ==> gs[i] == PoolGroup(c, pools[i])
  {
    if pools == [] then [] else PoolGroups(c, pools[..|pools| - 1]) + [PoolGroup(c, pools[|pools| - 1])]
  }

  function Groups(c: Config): seq<Group> {
    MainGroups(c) + PoolGroups(c, c.pools)
  }

  // ---------- The rest of the state ----------

  function FirstGiven(a: string, b: string): string {
    if a != "" then a else b
  }

  /** A field of the OpenStack section, or of its networking section if that one is blank. */
  function OSField(c: Config, own: OpenStack -> string, nested: OpenStackNetworking -> string): string {
    if c.openstack.None? then ""
    else
      var os := c.openstack.value;
      if os.networking.None? then TrimSpace(own(os)) else FirstGiven(TrimSpace(own(os)), TrimSpace(nested(os.networking.value)))
  }

  function APIRules(acl: seq<string>): (rules: seq<SecurityRule>)
    ensures |rules| == |acl|
  {
    if acl == [] then []
    else APIRules(acl[..|acl| - 1]) + [SecurityRule("", "ingress", "tcp", "6443", acl[|acl| - 1], "")]
  }

  function OpenStackParts(c: Config, s: InfraState): InfraState {
    var networkID := OSField(c, (o: OpenStack) => o.networkID, (n: OpenStackNetworking) => n.networkID);
    var subnetID := OSField(c, (o: OpenStack) => o.subnetID, (n: OpenStackNetworking) => n.subnetID);
    var pool := OSField(c, (o: OpenStack) => o.floatingIPPool, (n: OpenStackNetworking) => n.floatingIPPool);
    var octavia := c.useOctavia || (c.openstack.Some? && c.openstack.value.useOctavia);
    var acl := if c.openstack.Some? && c.openstack.value.networking.Some? then c.openstack.value.networking.value.apiACL else [];
    var provider := c.loadbalancerProvider;
    s.(networks := [Network(networkID, FirstGiven(networkID, c.clusterName + "-network"), "",
                            [Subnet(subnetID, c.clusterName + "-subnet-nodes", c.subnetNodes)])],
       securityGroups := [SecurityGroup("", c.clusterName + "-control-plane-sg", APIRules(acl)),
                          SecurityGroup("", c.clusterName + "-worker-sg", [])],
       loadBalancers := if provider == "ovn" || provider == "octavia" || octavia
                        then [LoadBalancer("", c.clusterName + "-api", "", [], "TCP", 6443)] else [],
       floatingIPs := if !octavia && provider != "octavia" && pool != ""
                      then [FloatingIP("cluster-api", "", ACTIVE, "")] else [])
  }

  function ProviderParts(c: Config, s: InfraState): InfraState {
    var p := CanonicalProvider(c.provider);
    if p == "openstack" then OpenStackParts(c, s)
    else if p == "vmware" then
      var network := if c.vmware.Some? then TrimSpace(c.vmware.value.network) else "";
      if network != "" then s.(networks := [Network("", network, "", [])]) else s
    else
      s.(networks := [Network("", c.clusterName + "-network", "", [Subnet("", c.clusterName + "-subnet-nodes", c.subnetNodes)])])
  }

  /** buildDesiredState: the counted loops append to one state. */
  method BuildDesiredState(c: Config) returns (state: InfraState)
    ensures state == Desired(c)
  {
    state := BuildNodes(c.clusterName, Groups(c));
    state := ProviderParts(c, state);
  }

  function Desired(c: Config): InfraState {
    ProviderParts(c, Nodes(c.clusterName, Groups(c)))
  }

  function Nodes(cluster: string, gs: seq<Group>): InfraState {
    EMPTY_STATE.(servers := AllServers(cluster, gs), volumes := AllVolumes(cluster, gs))
  }

  lemma NodesKept(c: Config)
    ensures Desired(c).servers == AllServers(c.clusterName, Groups(c))
    ensures Desired(c).volumes == AllVolumes(c.clusterName, Groups(c))
  {
  }

  method BuildNodes(cluster: string, groups: seq<Group>) returns (state: InfraState)
    ensures state == Nodes(cluster, groups)
  {
    state := EMPTY_STATE;
    for k := 0 to |groups|
      invariant state == Nodes(cluster, groups[..k])
    {
      assert groups[..k + 1][..k] == groups[..k];
      state := AppendNodes(cluster, groups[k], state);
    }
    assert groups[..|groups|] == groups;
  }

  method AppendNodes(cluster: string, g: Group, s: InfraState) returns (state: InfraState)
    ensures state == s.(servers := s.servers + Servers(cluster, g, Turns(g.count)), volumes := s.volumes + Volumes(cluster, g, Turns(g.count)))
  {
    state := s;
    for i := 0 to Turns(g.count)
      invariant state == s.(servers := s.servers + Servers(cluster, g, i), volumes := s.volumes + Volumes(cluster, g, i))
    {
      var name := NodeName(cluster, g.prefix, i);
      state := state.(servers := state.servers + [Server("", name, g.flavor, g.image, ACTIVE, g.networks, g.tags)]);
      match g.disk {
        case NoDisk =>
        case Boot(size) => state := state.(volumes := state.volumes + [Volume("", name + "-boot", size, "in-use", name)]);
        case OnDatastore(ds) => state := state.(volumes := state.volumes + [Volume("", name + ("@" + ds), 0, "in-use", "")]);
      }
    }
  }

  // ---------- Keys ----------

  /** A number after a dash has no dash in it, so the last dash tells where the number starts. */
  lemma {:induction false} LastDash(a: string, x: string, b: string, y: string)
    requires a + "-" + x == b + "-" + y && '-' !in x && '-' !in y
    ensures a == b && x == y
  {
    var s := a + "-" + x;
    assert s[|a|] == '-' && s[|b|] == '-';
    assert a == s[..|a|] && b == s[..|b|];
    assert x == s[|a| + 1..] && y == s[|b| + 1..];
  }

  lemma {:induction false} SamePrefix(a: string, x: string, y: string)
    requires a + x == a + y
    ensures x == y
  {
    assert x == (a + x)[|a|..] && y == (a + y)[|a|..];
  }

  lemma {:induction false} DecimalHasNoDash(n: nat)
    ensures '-' !in Decimal(n)
  {
    assert forall i :: 0 <= i < |Decimal(n)| ==> IsDigit(Decimal(n)[i]);
  }

  /** Within a cluster a node's name determines its group's name and its number. */
  lemma {:induction false} NodeNameDetermines(cluster: string, p: string, i: nat, q: string, j: nat)
    ensures NodeName(cluster, p, i) == NodeName(cluster, q, j) <==> p == q && i == j
  {
    if NodeName(cluster, p, i) == NodeName(cluster, q, j) {
      SamePrefix(cluster + "-", p + "-" + Decimal(i + 1), q + "-" + Decimal(j + 1));
      DecimalHasNoDash(i + 1);
      DecimalHasNoDash(j + 1);
      LastDash(p, Decimal(i + 1), q, Decimal(j + 1));
      DecimalValue(i + 1);
      DecimalValue(j + 1);
    }
  }

  /** The groups that have nodes all have different names. */
  predicate DistinctGroups(gs: seq<Group>) {
    forall k, l :: 0 <= k < l < |gs| && gs[k].count > 0 && gs[l].count > 0 ==> gs[k].prefix != gs[l].prefix
  }

  ghost predicate IsNode(cluster: string, gs: seq<Group>, s: Server, k: nat, i: nat) {
    k < |gs| && i < Turns(gs[k].count) && s == NodeServer(cluster, gs[k], i)
  }

  lemma {:induction false} NodeIsServer(cluster: string, gs: seq<Group>, k: nat, i: nat)
    requires k < |gs| && i < Turns(gs[k].count)
    ensures NodeServer(cluster, gs[k], i) in AllServers(cluster, gs)
    decreases |gs|
  {
    var n := |gs| - 1;
    if k < n {
      NodeIsServer(cluster, gs[..n], k, i);
    } else {
      assert Servers(cluster, gs[n], Turns(gs[n].count))[i] == NodeServer(cluster, gs[k], i);
    }
  }

  lemma {:induction false} ServerIsNode(cluster: string, gs: seq<Group>, s: Server) returns (k: nat, i: nat)
    requires s in AllServers(cluster, gs)
    ensures IsNode(cluster, gs, s, k, i)
    decreases |gs|
  {
    var n := |gs| - 1;
    if s in AllServers(cluster, gs[..n]) {
      k, i := ServerIsNode(cluster, gs[..n], s);
    } else {
      var last := Servers(cluster, gs[n], Turns(gs[n].count));
      assert s in last;
      k := n;
      i :| i < |last| && last[i] == s;
    }
  }

  lemma {:induction false} KeysAppend<T>(a: seq<T>, b: seq<T>, key: T -> string)
    ensures DistinctKeys(a + b, key) <==>
            DistinctKeys(a, key) && DistinctKeys(b, key) && forall x, y :: x in a && y in b ==> key(x) != key(y)
  {
    var s := a + b;
    if DistinctKeys(s, key) {
      forall i, j | 0 <= i < j < |a| ensures key(a[i]) != key(a[j]) {
        assert s[i] == a[i] && s[j] == a[j];
      }
      forall i, j | 0 <= i < j < |b| ensures key(b[i]) != key(b[j]) {
        assert s[|a| + i] == b[i] && s[|a| + j] == b[j];
      }
      forall x, y | x in a && y in b ensures key(x) != key(y) {
        var i :| 0 <= i < |a| && a[i] == x;
        var j :| 0 <= j < |b| && b[j] == y;
        assert s[i] == x && s[|a| + j] == y;
      }
    } else {
      var i, j :| 0 <= i < j < |s| && key(s[i]) == key(s[j]);
      if j < |a| {
        assert s[i] == a[i] && s[j] == a[j];
      } else if i < |a| {
        assert a[i] in a && b[j - |a|] in b;
      } else {
        assert s[i] == b[i - |a|] && s[j] == b[j - |a|];
      }
    }
  }

  lemma {:induction false} GroupKeys(cluster: string, g: Group, n: nat)
    ensures DistinctKeys(Servers(cluster, g, n), ServerKey)
  {
    var r := Servers(cluster, g, n);
    forall i, j | 0 <= i < j < n ensures ServerKey(r[i]) != ServerKey(r[j]) {
      NodeNameDetermines(cluster, g.prefix, i, g.prefix, j);
    }
  }

  lemma {:induction false} NodeKey(cluster: string, g: Group, i: nat)
    ensures ServerKey(NodeServer(cluster, g, i)) == NodeName(cluster, g.prefix, i) != ""
  {
  }

  /** Every server has a comparison key of its own exactly when the groups that have nodes have
      names of their own, the fixed ones being master and worker. */
  lemma {:induction false} ServerKeysDistinct(cluster: string, gs: seq<Group>)
    ensures DistinctKeys(AllServers(cluster, gs), ServerKey) <==> DistinctGroups(gs)
    decreases |gs|
  {
    if gs != [] {
      var n := |gs| - 1;
      var before, last := AllServers(cluster, gs[..n]), Servers(cluster, gs[n], Turns(gs[n].count));
      ServerKeysDistinct(cluster, gs[..n]);
      KeysAppend(before, last, ServerKey);
      GroupKeys(cluster, gs[n], Turns(gs[n].count));
      if DistinctGroups(gs) {
        forall x, y | x in before && y in last ensures ServerKey(x) != ServerKey(y) {
          NewGroupApart(cluster, gs, x, y);
        }
      } else {
        var k, l :| 0 <= k < l < |gs| && gs[k].count > 0 && gs[l].count > 0 && gs[k].prefix == gs[l].prefix;
        CollidingGroups(cluster, gs, k, l);
      }
    }
  }

  lemma {:induction false} CollidingGroups(cluster: string, gs: seq<Group>, k: nat, l: nat)
    requires k < l < |gs| && gs[k].count > 0 && gs[l].count > 0 && gs[k].prefix == gs[l].prefix
    ensures !DistinctKeys(AllServers(cluster, gs), ServerKey)
    decreases |gs|
  {
    var n := |gs| - 1;
    var before, last := AllServers(cluster, gs[..n]), Servers(cluster, gs[n], Turns(gs[n].count));
    KeysAppend(before, last, ServerKey);
    assert gs[..n][k] == gs[k];
    if l < n {
      CollidingGroups(cluster, gs[..n], k, l);
    } else {
      NodeIsServer(cluster, gs[..n], k, 0);
      assert last[0] == NodeServer(cluster, gs[n], 0);
      NodeKey(cluster, gs[k], 0);
      NodeKey(cluster, gs[n], 0);
    }
  }

  lemma {:induction false} NewGroupApart(cluster: string, gs: seq<Group>, x: Server, y: Server)
    requires gs != [] && DistinctGroups(gs)
    requires x in AllServers(cluster, gs[..|gs| - 1]) && y in Servers(cluster, gs[|gs| - 1], Turns(gs[|gs| - 1].count))
    ensures ServerKey(x) != ServerKey(y)
  {
    var n := |gs| - 1;
    var last := Servers(cluster, gs[n], Turns(gs[n].count));
    var k, i := ServerIsNode(cluster, gs[..n], x);
    var j: nat :| j < |last| && last[j] == y;
    assert gs[..n][k] == gs[k];
    NodeKey(cluster, gs[k], i);
    NodeKey(cluster, gs[n], j);
    NodeNameDetermines(cluster, gs[k].prefix, i, gs[n].prefix, j);
  }

  // ---------- Volumes ----------

  predicate OneDatastore(gs: seq<Group>, ds: string) {
    forall k :: 0 <= k < |gs| ==> gs[k].disk.OnDatastore? ==> gs[k].disk.datastore == ds
  }

  /** A disk's key names its node. */
  function DiskKey(cluster: string, g: Group, i: nat): string {
    match g.disk
    case OnDatastore(ds) => "name:" + (NodeName(cluster, g.prefix, i) + ("@" + ds))
    case _ => "attached:" + NodeName(cluster, g.prefix, i)
  }

  lemma {:induction false} DiskKeyIsKey(cluster: string, g: Group, i: nat)
    ensures forall v :: v in NodeVolumes(cluster, g, i) ==> VolumeKey(v) == DiskKey(cluster, g, i)
    ensures |NodeVolumes(cluster, g, i)| <= 1
  {
    NodeKey(cluster, g, i);
  }

  lemma {:induction false} DiskKeyDetermines(cluster: string, g: Group, i: nat, h: Group, j: nat)
    requires g.disk.OnDatastore? && h.disk.OnDatastore? ==> g.disk == h.disk
    requires DiskKey(cluster, g, i) == DiskKey(cluster, h, j)
    ensures g.prefix == h.prefix && i == j
  {
    var a, b := NodeName(cluster, g.prefix, i), NodeName(cluster, h.prefix, j);
    if g.disk.OnDatastore? && h.disk.OnDatastore? {
      SamePrefix("name:", a + ("@" + g.disk.datastore), b + ("@" + h.disk.datastore));
      SameSuffix(a, b, "@" + g.disk.datastore);
    } else {
      assert DiskKey(cluster, g, i)[0] == (if g.disk.OnDatastore? then 'n' else 'a');
      assert DiskKey(cluster, h, j)[0] == (if h.disk.OnDatastore? then 'n' else 'a');
      SamePrefix("attached:", a, b);
    }
    NodeNameDetermines(cluster, g.prefix, i, h.prefix, j);
  }

  lemma {:induction false} SameSuffix(a: string, b: string, x: string)
    requires a + x == b + x
    ensures a == b
  {
    assert |a| == |b|;
    assert a == (a + x)[..|a|] && b == (b + x)[..|b|];
  }

  lemma {:induction false} GroupVolume(cluster: string, g: Group, n: nat, v: Volume) returns (i: nat)
    requires v in Volumes(cluster, g, n)
    ensures i < n && v in NodeVolumes(cluster, g, i)
  {
    if v in Volumes(cluster, g, n - 1) {
      i := GroupVolume(cluster, g, n - 1, v);
    } else {
      i := n - 1;
    }
  }

  lemma {:induction false} VolumeIsDisk(cluster: string, gs: seq<Group>, v: Volume) returns (k: nat, i: nat)
    requires v in AllVolumes(cluster, gs)
    ensures k < |gs| && i < Turns(gs[k].count) && v in NodeVolumes(cluster, gs[k], i)
    decreases |gs|
  {
    var n := |gs| - 1;
    if v in AllVolumes(cluster, gs[..n]) {
      k, i := VolumeIsDisk(cluster, gs[..n], v);
    } else {
      k := n;
      i := GroupVolume(cluster, gs[n], Turns(gs[n].count), v);
    }
  }

  lemma {:induction false} GroupVolumeKeys(cluster: string, g: Group, n: nat)
    ensures DistinctKeys(Volumes(cluster, g, n), VolumeKey)
  {
    if n > 0 {
      var before, last := Volumes(cluster, g, n - 1), NodeVolumes(cluster, g, n - 1);
      GroupVolumeKeys(cluster, g, n - 1);
      DiskKeyIsKey(cluster, g, n - 1);
      KeysAppend(before, last, VolumeKey);
      forall x, y | x in before && y in last ensures VolumeKey(x) != VolumeKey(y) {
        var i := GroupVolume(cluster, g, n - 1, x);
        DiskKeyIsKey(cluster, g, i);
        if VolumeKey(x) == VolumeKey(y) {
          DiskKeyDetermines(cluster, g, i, g, n - 1);
        }
      }
    }
  }

  /** Distinct group names keep the volumes apart too. */
  lemma {:induction false} VolumeKeysDistinct(cluster: string, gs: seq<Group>, ds: string)
    requires DistinctGroups(gs) && OneDatastore(gs, ds)
    ensures DistinctKeys(AllVolumes(cluster, gs), VolumeKey)
    decreases |gs|
  {
    if gs != [] {
      var n := |gs| - 1;
      var before, last := AllVolumes(cluster, gs[..n]), Volumes(cluster, gs[n], Turns(gs[n].count));
      VolumeKeysDistinct(cluster, gs[..n], ds);
      GroupVolumeKeys(cluster, gs[n], Turns(gs[n].count));
      KeysAppend(before, last, VolumeKey);
      forall x, y | x in before && y in last ensures VolumeKey(x) != VolumeKey(y) {
        var k, i := VolumeIsDisk(cluster, gs[..n], x);
        var j := GroupVolume(cluster, gs[n], Turns(gs[n].count), y);
        assert gs[..n][k] == gs[k];
        DiskKeyIsKey(cluster, gs[k], i);
        DiskKeyIsKey(cluster, gs[n], j);
        if VolumeKey(x) == VolumeKey(y) {
          DiskKeyDetermines(cluster, gs[k], i, gs[n], j);
        }
      }
    }
  }

  // ---------- The built state ----------

  /** mapByKey drops nothing when the keys are given and distinct. */
  lemma {:induction false} KeyedKeepsAll<T(!new)>(items: seq<T>, key: T -> string)
    requires DistinctKeys(items, key) && forall x :: x in items ==> key(x) != ""
    ensures |Keyed(items, key)| == |items|
    ensures forall x :: x in items ==> key(x) in Keyed(items, key) && Keyed(items, key)[key(x)] == x
    decreases |items|
  {
    if items != [] {
      var n := |items| - 1;
      var init, last := items[..n], items[n];
      assert items == init + [last];
      KeyedKeepsAll(init, key);
      KeyedIsLast(init, key, key(last));
      var m := Keyed(init, key);
      assert key(last) !in m;
      assert m[key(last) := last].Keys == m.Keys + {key(last)};
      assert |m[key(last) := last]| == |m[key(last) := last].Keys| && |m| == |m.Keys|;
    }
  }

  function NodeCount(gs: seq<Group>): nat {
    if gs == [] then 0 else NodeCount(gs[..|gs| - 1]) + Turns(gs[|gs| - 1].count)
  }

  lemma {:induction false} ServerCount(cluster: string, gs: seq<Group>)
    ensures |AllServers(cluster, gs)| == NodeCount(gs)
    decreases |gs|
  {
    if gs != [] {
      ServerCount(cluster, gs[..|gs| - 1]);
    }
  }

  /** Windows pools with nodes have names of their own, and none takes the name of a main group with nodes. */
  predicate PoolNamesFree(c: Config) {
    && (forall k, l :: 0 <= k < l < |c.pools| && c.pools[k].count > 0 && c.pools[l].count > 0 ==> c.pools[k].name != c.pools[l].name)
    && (forall k :: 0 <= k < |c.pools| && c.pools[k].count > 0 ==>
          (c.masterCount > 0 ==> c.pools[k].name != "master") && (c.workerCount > 0 ==> c.pools[k].name != "worker"))
  }

  /** What the names of groups depend on. */
  ghost predicate MainShape(c: Config, main: seq<Group>) {
    && |main| == 2 && main[0].prefix == "master" && main[1].prefix == "worker"
    && main[0].count == c.masterCount && main[1].count == c.workerCount
  }

  lemma MainGroupsShape(c: Config)
    ensures MainShape(c, MainGroups(c))
  {
  }

  lemma {:induction false} GroupsDistinct(c: Config)
    ensures DistinctGroups(Groups(c)) <==> PoolNamesFree(c)
  {
    MainGroupsShape(c);
    PoolsDistinct(c, MainGroups(c), PoolGroups(c, c.pools));
  }

  lemma {:induction false} PoolsDistinct(c: Config, main: seq<Group>, ps: seq<Group>)
    requires MainShape(c, main)
    requires |ps| == |c.pools| && forall k :: 0 <= k < |ps| ==> ps[k].prefix == c.pools[k].name && ps[k].count == c.pools[k].count
    ensures DistinctGroups(main + ps) <==> PoolNamesFree(c)
  {
    var gs := main + ps;
    assert main[0].prefix[0] == 'm' && main[1].prefix[0] == 'w';
    assert gs[0] == main[0] && gs[1] == main[1] && forall k :: 0 <= k < |ps| ==> gs[k + 2] == ps[k];
    if DistinctGroups(gs) {
      FreeIfDistinct(c, main, ps);
    }
    if PoolNamesFree(c) {
      forall k, l | 0 <= k < l < |gs| && gs[k].count > 0 && gs[l].count > 0 ensures gs[k].prefix != gs[l].prefix {
        if l >= 2 {
          assert gs[l] == ps[l - 2];
          assert k >= 2 ==> gs[k] == ps[k - 2];
        }
      }
    }
  }

  lemma {:induction false} FreeIfDistinct(c: Config, main: seq<Group>, ps: seq<Group>)
    requires MainShape(c, main) && DistinctGroups(main + ps)
    requires |ps| == |c.pools| && forall k :: 0 <= k < |ps| ==> ps[k].prefix == c.pools[k].name && ps[k].count == c.pools[k].count
    ensures PoolNamesFree(c)
  {
    var gs := main + ps;
    assert gs[0] == main[0] && gs[1] == main[1] && forall k :: 0 <= k < |ps| ==> gs[k + 2] == ps[k];
    forall k, l | 0 <= k < l < |c.pools| && c.pools[k].count > 0 && c.pools[l].count > 0 ensures c.pools[k].name != c.pools[l].name {
      assert gs[k + 2].prefix != gs[l + 2].prefix;
    }
    forall k | 0 <= k < |c.pools| && c.pools[k].count > 0
      ensures (c.masterCount > 0 ==> c.pools[k].name != "master") && (c.workerCount > 0 ==> c.pools[k].name != "worker")
    {
      assert gs[k + 2].count > 0;
    }
  }

  lemma MainDatastore(c: Config)
    ensures OneDatastore(MainGroups(c), Datastore(c))
  {
    VMwareDatastore(c, Datastore(c));
    if CanonicalProvider(c.provider) != "vmware" {
      var image := if CanonicalProvider(c.provider) == "openstack" && c.openstack.Some? then c.openstack.value.imageID else "";
      CloudDatastore(c, image, Datastore(c));
    }
  }

  lemma VMwareDatastore(c: Config, ds: string)
    ensures OneDatastore(VMwareGroups(c, DatastoreDisk(ds)), ds)
  {
  }

  lemma CloudDatastore(c: Config, image: string, ds: string)
    ensures OneDatastore(CloudGroups(c, image), ds)
  {
  }

  lemma {:induction false} GroupsShareDatastore(c: Config)
    ensures OneDatastore(Groups(c), Datastore(c))
  {
    MainDatastore(c);
    PoolDatastore(c, MainGroups(c), Datastore(c));
  }

  lemma {:induction false} PoolDatastore(c: Config, main: seq<Group>, ds: string)
    requires OneDatastore(main, ds)
    ensures OneDatastore(main + PoolGroups(c, c.pools), ds)
  {
    var ps := PoolGroups(c, c.pools);
    forall k | 0 <= k < |ps| ensures !ps[k].disk.OnDatastore? {
      assert ps[k] == PoolGroup(c, c.pools[k]);
    }
  }

  /** In the built state servers have distinct keys exactly when the pool names are free; then
      volumes have too, and the comparison sees every volume and as many servers as the configuration
      counts nodes. */
  lemma {:induction false} BuiltKeysDistinct(c: Config)
    ensures DistinctKeys(Desired(c).servers, ServerKey) <==> PoolNamesFree(c)
    ensures PoolNamesFree(c) ==> DistinctKeys(Desired(c).volumes, VolumeKey)
    ensures |Desired(c).servers| == NodeCount(Groups(c))
    ensures PoolNamesFree(c) ==> |Keyed(Desired(c).servers, ServerKey)| == NodeCount(Groups(c))
    ensures PoolNamesFree(c) ==> |Keyed(Desired(c).volumes, VolumeKey)| == |Desired(c).volumes|
  {
    var cluster, gs := c.clusterName, Groups(c);
    NodesKept(c);
    GroupsDistinct(c);
    ServerKeysDistinct(cluster, gs);
    ServerCount(cluster, gs);
    if PoolNamesFree(c) {
      GroupsShareDatastore(c);
      VolumeKeysDistinct(cluster, gs, Datastore(c));
      forall s | s in AllServers(cluster, gs) ensures ServerKey(s) != "" {
        var k, i := ServerIsNode(cluster, gs, s);
        NodeKey(cluster, gs[k], i);
      }
      KeyedKeepsAll(AllServers(cluster, gs), ServerKey);
      VolumesHaveKeys(cluster, gs);
      KeyedKeepsAll(AllVolumes(cluster, gs), VolumeKey);
    }
  }

  lemma {:induction false} VolumesHaveKeys(cluster: string, gs: seq<Group>)
    ensures forall v :: v in AllVolumes(cluster, gs) ==> VolumeKey(v) != ""
  {
    forall v | v in AllVolumes(cluster, gs) ensures VolumeKey(v) != "" {
      var k, i := VolumeIsDisk(cluster, gs, v);
      DiskKeyIsKey(cluster, gs[k], i);
      assert |DiskKey(cluster, gs[k], i)| > 0;
    }
  }

  /** Whatever the configuration, the state built from it shows no drift against itself. */
  lemma {:induction false} BuiltMatchesItself(sort: seq<FloatingIP> -> seq<FloatingIP>, c: Config)
    requires IsSort(sort)
    ensures Drifts(sort, Desired(c), Desired(c)) == multiset{}
  {
    var s := Desired(c);
    var m := Keyed(s.servers, ServerKey);
    NodesKept(c);
    SelfSilent(sort, s);
    forall k | k in m ensures !Inactive(m[k]) {
      KeyedIsLast(s.servers, ServerKey, k);
      assert m[k] in s.servers;
      var g, i := ServerIsNode(c.clusterName, Groups(c), m[k]);
    }
  }
}
