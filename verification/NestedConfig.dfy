/** The nested writes that rewrite a legacy cluster configuration (rewriteLegacyClusterConfig of
    cmd/cluster_migrate_layout.go). */
module NestedConfig {
  import opened Text

  /** A decoded YAML value. A mapping with a key that is no string decodes to another Go type than one
      with strings only: Mixed, its other keys by their text. */
  datatype Value =
    | Null
    | Scalar(text: string)
    | List(items: seq<Value>)
    | Mapping(entries: map<string, Value>)
    | Mixed(strings: map<string, Value>, others: map<string, Value>)

  type Config = map<string, Value>
  type Path = seq<string>

  /** setNestedMigrationConfigValue: whatever is in the way of the path and is no mapping with strings
      only, mixed mappings too, becomes an empty mapping. */
  function Set(config: Config, value: Value, path: Path): Config
    decreases |path|
  {
    if path == [] then config
    else if |path| == 1 then config[path[0] := value]
    else config[path[0] := Mapping(Set(Inner(config, path[0]), value, path[1..]))]
  }

  function Inner(config: Config, part: string): Config {
    if part in config && config[part].Mapping? then config[part].entries else map[]
  }

  /** What is found below a value, through mappings with strings only, as the source looks. */
  function Get(v: Value, path: Path): Option<Value>
    decreases |path|
  {
    if path == [] then Some(v)
    else if v.Mapping? && path[0] in v.entries then Get(v.entries[path[0]], path[1..])
    else None
  }

  predicate Holds(v: Value, path: Path) {
    Get(v, path).Some? && Get(v, path).value != Null
  }

  /** hasNestedMigrationConfigValue: a missing key reads as null. */
  method Has(config: Config, path: Path) returns (has: bool)
    ensures has <==> Holds(Mapping(config), path)
  {
    var current := Mapping(config);
    for i := 0 to |path|
      invariant Holds(current, path[i..]) <==> Holds(Mapping(config), path)
    {
      assert path[i..][1..] == path[i + 1..];
      if !current.Mapping? {
        return false;
      }
      current := if path[i] in current.entries then current.entries[path[i]] else Null;
    }
    return current != Null;
  }

  // ---------- One write ----------

  /** Paths that part ways. */
  predicate Apart(p: Path, q: Path) {
    exists i :: 0 <= i < |p| && i < |q| && p[i] != q[i]
  }

  lemma {:induction false} SetThenGet(config: Config, value: Value, path: Path)
    requires path != []
    ensures Get(Mapping(Set(config, value, path)), path) == Some(value)
    decreases |path|
  {
    if |path| > 1 {
      SetThenGet(Inner(config, path[0]), value, path[1..]);
    }
  }

  /** A write leaves paths that part ways with its own as the source finds them, even where it turns a
      scalar into a mapping. */
  lemma {:induction false} SetElsewhere(config: Config, value: Value, path: Path, q: Path)
    requires Apart(path, q)
    ensures Get(Mapping(Set(config, value, path)), q) == Get(Mapping(config), q)
    decreases |path|
  {
    var i :| 0 <= i < |path| && i < |q| && path[i] != q[i];
    if i > 0 && path[0] == q[0] {
      var p', q' := path[1..], q[1..];
      assert p'[i - 1] == path[i] && q'[i - 1] == q[i];
      SetElsewhere(Inner(config, path[0]), value, p', q');
      NothingInEmpty(q');
      if path[0] !in config || !config[path[0]].Mapping? {
        assert Get(Mapping(Inner(config, path[0])), q') == None;
      }
    }
  }

  lemma NothingInEmpty(q: Path)
    requires q != []
    ensures Get(Mapping(map[]), q) == None
  {
  }

  // ---------- What is lost ----------

  /** What a reader of the configuration finds below a value, in mixed mappings too. */
  function Look(v: Value, path: Path): Option<Value>
    decreases |path|
  {
    if path == [] then Some(v)
    else
      match v
      case Mapping(entries) => if path[0] in entries then Look(entries[path[0]], path[1..]) else None
      case Mixed(strings, _) => if path[0] in strings then Look(strings[path[0]], path[1..]) else None
      case _ => None
  }

  /** The source finds nothing a reader does not. */
  lemma {:induction false} GetIsLook(v: Value, path: Path)
    ensures Get(v, path).Some? ==> Look(v, path) == Get(v, path)
    decreases |path|
  {
    if path != [] && v.Mapping? && path[0] in v.entries {
      GetIsLook(v.entries[path[0]], path[1..]);
    }
  }

  /** On its way, where it still goes with another path, a write meets a mixed mapping. */
  predicate Crosses(config: Config, path: Path, q: Path)
    decreases |path|
  {
    && |path| > 1 && q != [] && path[0] == q[0] && path[0] in config
    && (config[path[0]].Mixed? || (config[path[0]].Mapping? && Crosses(config[path[0]].entries, path[1..], q[1..])))
  }

  ghost predicate MixedAt(v: Value, path: Path) {
    Get(v, path).Some? && Get(v, path).value.Mixed?
  }

  /** That is: at a proper prefix of the path stands a mixed mapping, and the other path goes through it. */
  lemma {:induction false} CrossesIff(config: Config, path: Path, q: Path)
    ensures Crosses(config, path, q) <==> exists m :: 0 < m < |path| && path[..m] <= q && MixedAt(Mapping(config), path[..m])
  {
    if Crosses(config, path, q) {
      var m := CrossedAt(config, path, q);
    }
    if m :| 0 < m < |path| && path[..m] <= q && MixedAt(Mapping(config), path[..m]) {
      CrossingAt(config, path, q, m);
    }
  }

  lemma {:induction false} CrossingAt(config: Config, path: Path, q: Path, m: nat)
    requires 0 < m < |path| && path[..m] <= q && MixedAt(Mapping(config), path[..m])
    ensures Crosses(config, path, q)
    decreases |path|
  {
    var r := path[..m];
    assert r[0] == path[0] == q[0];
    assert Get(Mapping(config), r) == Get(config[path[0]], r[1..]);
    if m > 1 {
      assert r[1..] != [] && config[path[0]].Mapping?;
      assert r[1..] == path[1..][..m - 1] && r[1..] <= q[1..];
      CrossingAt(config[path[0]].entries, path[1..], q[1..], m - 1);
    } else {
      assert r[1..] == [];
    }
  }

  lemma {:induction false} CrossedAt(config: Config, path: Path, q: Path) returns (m: nat)
    requires Crosses(config, path, q)
    ensures 0 < m < |path| && path[..m] <= q && MixedAt(Mapping(config), path[..m])
    decreases |path|
  {
    if config[path[0]].Mixed? {
      m := 1;
      assert path[..1] == [path[0]] && path[..1][1..] == [];
    } else {
      var k := CrossedAt(config[path[0]].entries, path[1..], q[1..]);
      m := k + 1;
      assert path[..m] == [path[0]] + path[1..][..k] && path[..m][1..] == path[1..][..k];
      assert q == [q[0]] + q[1..];
    }
  }

  /** What a write does to a path that parts ways with its own: nothing, unless a mixed mapping stands
      where they still go together; then all of it is lost. */
  lemma {:induction false} SetLooks(config: Config, value: Value, path: Path, q: Path)
    requires Apart(path, q)
    ensures Look(Mapping(Set(config, value, path)), q) == if Crosses(config, path, q) then None else Look(Mapping(config), q)
    decreases |path|
  {
    var i :| 0 <= i < |path| && i < |q| && path[i] != q[i];
    if i > 0 && path[0] == q[0] {
      var p', q' := path[1..], q[1..];
      assert p'[i - 1] == path[i] && q'[i - 1] == q[i];
      SetLooks(Inner(config, path[0]), value, p', q');
      if path[0] !in config || !config[path[0]].Mapping? {
        assert Look(Mapping(map[]), q') == None;
      }
    }
  }

  /** Writing what is already there changes nothing. */
  lemma {:induction false} SetSame(config: Config, value: Value, path: Path)
    requires Get(Mapping(config), path) == Some(value)
    ensures Set(config, value, path) == config
    decreases |path|
  {
    if |path| > 1 {
      SetSame(Inner(config, path[0]), value, path[1..]);
    }
  }

  // ---------- A sequence of writes ----------

  datatype Write = Write(path: Path, value: Value)

  function WriteAll(config: Config, writes: seq<Write>): Config {
    if writes == [] then config
    else
      var last := writes[|writes| - 1];
      Set(WriteAll(config, writes[..|writes| - 1]), last.value, last.path)
  }

  ghost predicate PrefixFree(writes: seq<Write>) {
    && (forall i :: 0 <= i < |writes| ==> writes[i].path != [])
    && (forall i, j :: 0 <= i < j < |writes| ==> Apart(writes[j].path, writes[i].path))
  }

  /** Every path written reads back its value: no later write clobbers an earlier one. */
  lemma {:induction false} AllReadBack(config: Config, writes: seq<Write>, k: nat)
    requires PrefixFree(writes) && k < |writes|
    ensures Get(Mapping(WriteAll(config, writes)), writes[k].path) == Some(writes[k].value)
    decreases |writes|
  {
    var n := |writes| - 1;
    var before := WriteAll(config, writes[..n]);
    if k == n {
      SetThenGet(before, writes[n].value, writes[n].path);
    } else {
      AllReadBack(config, writes[..n], k);
      SetElsewhere(before, writes[n].value, writes[n].path, writes[k].path);
    }
  }

  /** Every path apart from all those written reads as before. */
  lemma {:induction false} AllElsewhere(config: Config, writes: seq<Write>, q: Path)
    requires forall i :: 0 <= i < |writes| ==> Apart(writes[i].path, q)
    ensures Get(Mapping(WriteAll(config, writes)), q) == Get(Mapping(config), q)
    decreases |writes|
  {
    if writes != [] {
      var n := |writes| - 1;
      AllElsewhere(config, writes[..n], q);
      SetElsewhere(WriteAll(config, writes[..n]), writes[n].value, writes[n].path, q);
    }
  }

  ghost predicate ApartFromAll(writes: seq<Write>, q: Path) {
    forall i :: 0 <= i < |writes| ==> Apart(writes[i].path, q)
  }

  /** Some write meets a mixed mapping the path goes through. */
  ghost predicate Crossed(config: Config, writes: seq<Write>, q: Path) {
    exists i :: 0 <= i < |writes| && Crosses(config, writes[i].path, q)
  }

  /** Of two paths that part ways, one does so with a prefix of the other, or goes on through it. */
  lemma PrefixApart(path: Path, q: Path, r: Path)
    requires Apart(path, q) && r <= q
    ensures Apart(path, r) || (|r| < |path| && path[..|r|] == r)
  {
    var i :| 0 <= i < |path| && i < |q| && path[i] != q[i];
    if i >= |r| {
      if path[..|r|] != r {
        var j :| 0 <= j < |r| && path[j] != r[j];
        assert Apart(path, r);
      }
    } else {
      assert path[i] != r[i];
    }
  }

  /** A write puts a mapping with strings only at every proper prefix of its path. */
  lemma {:induction false} SetMakesMappings(config: Config, value: Value, path: Path, r: Path)
    requires |r| < |path| && path[..|r|] == r
    ensures !MixedAt(Mapping(Set(config, value, path)), r)
    decreases |path|
  {
    if r != [] {
      assert path[1..][..|r| - 1] == r[1..] && r[0] == path[0];
      SetMakesMappings(Inner(config, path[0]), value, path[1..], r[1..]);
    }
  }

  /** Writes that meet no mixed mapping on a path make none there and remove none. */
  lemma {:induction false} MixedStays(config: Config, writes: seq<Write>, q: Path, r: Path)
    requires ApartFromAll(writes, q) && !Crossed(config, writes, q) && r <= q && r != []
    ensures MixedAt(Mapping(WriteAll(config, writes)), r) <==> MixedAt(Mapping(config), r)
    decreases |writes|
  {
    if writes != [] {
      var n := |writes| - 1;
      var before, w := WriteAll(config, writes[..n]), writes[n];
      BeforeLast(config, writes, q);
      MixedStays(config, writes[..n], q, r);
      PrefixApart(w.path, q, r);
      if Apart(w.path, r) {
        SetElsewhere(before, w.value, w.path, r);
      } else {
        SetMakesMappings(before, w.value, w.path, r);
        CrossesIff(config, w.path, q);
      }
    }
  }

  lemma BeforeLast(config: Config, writes: seq<Write>, q: Path)
    requires writes != [] && ApartFromAll(writes, q)
    ensures var n := |writes| - 1;
      && ApartFromAll(writes[..n], q) && Apart(writes[n].path, q)
      && (Crossed(config, writes, q) <==> Crossed(config, writes[..n], q) || Crosses(config, writes[n].path, q))
  {
    var n := |writes| - 1;
    assert forall i :: 0 <= i < n ==> writes[..n][i] == writes[i];
  }

  /** Where no earlier write crosses a path, a later one does as it would at first. */
  lemma {:induction false} CrossesAsBefore(config: Config, writes: seq<Write>, path: Path, q: Path)
    requires ApartFromAll(writes, q) && !Crossed(config, writes, q)
    ensures Crosses(WriteAll(config, writes), path, q) <==> Crosses(config, path, q)
  {
    CrossesIff(WriteAll(config, writes), path, q);
    CrossesIff(config, path, q);
    forall m | 0 < m < |path| && path[..m] <= q
      ensures MixedAt(Mapping(WriteAll(config, writes)), path[..m]) <==> MixedAt(Mapping(config), path[..m])
    {
      MixedStays(config, writes, q, path[..m]);
    }
  }

  /** After all writes a path apart from theirs reads as before, unless one of them meets a mixed mapping
      it goes through; then it is gone. */
  lemma {:induction false} AllLooks(config: Config, writes: seq<Write>, q: Path)
    requires ApartFromAll(writes, q)
    ensures Look(Mapping(WriteAll(config, writes)), q) == if Crossed(config, writes, q) then None else Look(Mapping(config), q)
    decreases |writes|
  {
    if writes != [] {
      var n := |writes| - 1;
      BeforeLast(config, writes, q);
      AllLooks(config, writes[..n], q);
      SetLooks(WriteAll(config, writes[..n]), writes[n].value, writes[n].path, q);
      if !Crossed(config, writes[..n], q) {
        CrossesAsBefore(config, writes[..n], writes[n].path, q);
      }
    }
  }

  lemma {:induction false} WriteAllConcat(config: Config, a: seq<Write>, b: seq<Write>)
    ensures WriteAll(config, a + b) == WriteAll(WriteAll(config, a), b)
    decreases |b|
  {
    if b == [] {
      assert a + b == a;
    } else {
      var n := |b| - 1;
      assert (a + b)[..|a + b| - 1] == a + b[..n] && (a + b)[|a + b| - 1] == b[n];
      WriteAllConcat(config, a, b[..n]);
    }
  }

  /** Where every path already holds its value, writing changes nothing. */
  lemma {:induction false} WriteAllSame(config: Config, writes: seq<Write>)
    requires forall i :: 0 <= i < |writes| ==> Get(Mapping(config), writes[i].path) == Some(writes[i].value)
    ensures WriteAll(config, writes) == config
    decreases |writes|
  {
    if writes != [] {
      var n := |writes| - 1;
      WriteAllSame(config, writes[..n]);
      SetSame(config, writes[n].value, writes[n].path);
    }
  }

  // ---------- The rewrite ----------

  /** The places of the migrated cluster. */
  datatype Places = Places(gitOpsDir: string, sopsKey: string, sshKey: string)

  const OPENCENTER := "opencenter"
  const GITOPS := "gitops"
  const SECRETS := "secrets"
  const SSH_KEY := "ssh_key"
  const SSH := "ssh"
  const AUTH := "auth"

  const LOCAL_DIR: Path := [OPENCENTER, GITOPS, "repository", "local_dir"]
  const AGE_KEY_FILE: Path := [SECRETS, "sops_age_key_file"]
  const SOPS_KEY_FILE: Path := [SECRETS, "sops", "age_key_file"]
  const PRIVATE: Path := [SECRETS, SSH_KEY, "private"]
  const PUBLIC: Path := [SECRETS, SSH_KEY, "public"]
  const KEY_PATH: Path := [OPENCENTER, "infrastructure", SSH, "key_path"]
  const AUTH_SSH: Path := [OPENCENTER, GITOPS, AUTH, SSH]
  const AUTH_PRIVATE: Path := [OPENCENTER, GITOPS, AUTH, SSH, "private_key"]
  const AUTH_PUBLIC: Path := [OPENCENTER, GITOPS, AUTH, SSH, "public_key"]

  function Always(p: Places): seq<Write> {
    [Write(LOCAL_DIR, Scalar(p.gitOpsDir)), Write(AGE_KEY_FILE, Scalar(p.sopsKey)), Write(SOPS_KEY_FILE, Scalar(p.sopsKey)),
     Write(PRIVATE, Scalar(p.sshKey)), Write(PUBLIC, Scalar(p.sshKey + ".pub")), Write(KEY_PATH, Scalar(p.sshKey))]
  }

  function WithAuth(p: Places): seq<Write> {
    [Write(AUTH_PRIVATE, Scalar(p.sshKey)), Write(AUTH_PUBLIC, Scalar(p.sshKey + ".pub"))]
  }

  /** The writes made for a configuration. */
  function Writes(config: Config, p: Places): seq<Write> {
    Always(p) + if Holds(Mapping(config), AUTH_SSH) then WithAuth(p) else []
  }

  lemma Parts(p: Path, q: Path, i: nat)
    requires i < |p| && i < |q| && |p[i]| != |q[i]|
    ensures Apart(p, q) && Apart(q, p)
  {
    assert p[i] != q[i] && q[i] != p[i];
  }

  /** The paths under "opencenter" and those under "secrets" part at once, the others further down. */
  lemma PathsPart()
    ensures Apart(AGE_KEY_FILE, LOCAL_DIR) && Apart(SOPS_KEY_FILE, LOCAL_DIR) && Apart(SOPS_KEY_FILE, AGE_KEY_FILE)
    ensures Apart(PRIVATE, LOCAL_DIR) && Apart(PRIVATE, AGE_KEY_FILE) && Apart(PRIVATE, SOPS_KEY_FILE)
    ensures Apart(PUBLIC, LOCAL_DIR) && Apart(PUBLIC, AGE_KEY_FILE) && Apart(PUBLIC, SOPS_KEY_FILE) && Apart(PUBLIC, PRIVATE)
    ensures Apart(KEY_PATH, LOCAL_DIR) && Apart(KEY_PATH, AGE_KEY_FILE) && Apart(KEY_PATH, SOPS_KEY_FILE)
    ensures Apart(KEY_PATH, PRIVATE) && Apart(KEY_PATH, PUBLIC)
  {
    Parts(AGE_KEY_FILE, LOCAL_DIR, 0);
    Parts(SOPS_KEY_FILE, LOCAL_DIR, 0);
    Parts(SOPS_KEY_FILE, AGE_KEY_FILE, 1);
    Parts(PRIVATE, LOCAL_DIR, 0);
    Parts(PRIVATE, AGE_KEY_FILE, 1);
    Parts(PRIVATE, SOPS_KEY_FILE, 1);
    Parts(PUBLIC, LOCAL_DIR, 0);
    Parts(PUBLIC, AGE_KEY_FILE, 1);
    Parts(PUBLIC, SOPS_KEY_FILE, 1);
    Parts(PUBLIC, PRIVATE, 2);
    Parts(KEY_PATH, LOCAL_DIR, 1);
    Parts(KEY_PATH, AGE_KEY_FILE, 0);
    Parts(KEY_PATH, SOPS_KEY_FILE, 0);
    Parts(KEY_PATH, PRIVATE, 0);
    Parts(KEY_PATH, PUBLIC, 0);
  }

  /** The key-pair paths under the ssh mapping part with all the others. */
  lemma AuthPathsPart(q: Path)
    requires q == AUTH_SSH || q == AUTH_PRIVATE || q == AUTH_PUBLIC
    ensures Apart(q, LOCAL_DIR) && Apart(q, AGE_KEY_FILE) && Apart(q, SOPS_KEY_FILE)
    ensures Apart(q, PRIVATE) && Apart(q, PUBLIC) && Apart(q, KEY_PATH)
    ensures Apart(LOCAL_DIR, q) && Apart(AGE_KEY_FILE, q) && Apart(SOPS_KEY_FILE, q)
    ensures Apart(PRIVATE, q) && Apart(PUBLIC, q) && Apart(KEY_PATH, q)
  {
    Parts(q, LOCAL_DIR, 2);
    Parts(q, AGE_KEY_FILE, 0);
    Parts(q, SOPS_KEY_FILE, 0);
    Parts(q, PRIVATE, 0);
    Parts(q, PUBLIC, 0);
    Parts(q, KEY_PATH, 1);
  }

  lemma AuthPairParts()
    ensures Apart(AUTH_PUBLIC, AUTH_PRIVATE)
  {
    Parts(AUTH_PUBLIC, AUTH_PRIVATE, 4);
  }

  lemma {:induction false} PrefixFreeNext(writes: seq<Write>, w: Write)
    requires PrefixFree(writes) && w.path != [] && forall v :: v in writes ==> Apart(w.path, v.path)
    ensures PrefixFree(writes + [w])
  {
  }

  lemma {:induction false} SixPartWays(a: Write, b: Write, c: Write, d: Write, e: Write, f: Write)
    requires a.path != [] && b.path != [] && c.path != [] && d.path != [] && e.path != [] && f.path != []
    requires Apart(b.path, a.path)
    requires Apart(c.path, a.path) && Apart(c.path, b.path)
    requires Apart(d.path, a.path) && Apart(d.path, b.path) && Apart(d.path, c.path)
    requires Apart(e.path, a.path) && Apart(e.path, b.path) && Apart(e.path, c.path) && Apart(e.path, d.path)
    requires Apart(f.path, a.path) && Apart(f.path, b.path) && Apart(f.path, c.path) && Apart(f.path, d.path) && Apart(f.path, e.path)
    ensures PrefixFree([a, b, c, d, e, f])
  {
    PrefixFreeNext([a], b);
    PrefixFreeNext([a] + [b], c);
    PrefixFreeNext([a] + [b] + [c], d);
    PrefixFreeNext([a] + [b] + [c] + [d], e);
    PrefixFreeNext([a] + [b] + [c] + [d] + [e], f);
    assert [a] + [b] + [c] + [d] + [e] + [f] == [a, b, c, d, e, f];
  }

  lemma {:induction false} AlwaysIsPrefixFree(p: Places)
    ensures PrefixFree(Always(p))
  {
    var w := Always(p);
    PathsPart();
    SixPartWays(w[0], w[1], w[2], w[3], w[4], w[5]);
    assert w == [w[0], w[1], w[2], w[3], w[4], w[5]];
  }

  /** The paths of the unconditional writes, and those apart from all of them. */
  ghost predicate ApartFromAlways(q: Path) {
    && Apart(q, LOCAL_DIR) && Apart(q, AGE_KEY_FILE) && Apart(q, SOPS_KEY_FILE)
    && Apart(q, PRIVATE) && Apart(q, PUBLIC) && Apart(q, KEY_PATH)
  }

  lemma AlwaysPaths(p: Places, q: Path, w: Write)
    requires w in Always(p)
    ensures w.path in [LOCAL_DIR, AGE_KEY_FILE, SOPS_KEY_FILE, PRIVATE, PUBLIC, KEY_PATH]
  {
  }

  lemma ApartFromEach(p: Places, q: Path)
    requires ApartFromAlways(q)
    ensures forall w :: w in Always(p) ==> Apart(q, w.path)
  {
    forall w | w in Always(p) ensures Apart(q, w.path) {
      AlwaysPaths(p, q, w);
    }
  }

  /** The paths written never lead through or to one another. */
  lemma {:induction false} WritesArePrefixFree(config: Config, p: Places)
    ensures PrefixFree(Writes(config, p))
  {
    AlwaysIsPrefixFree(p);
    if Holds(Mapping(config), AUTH_SSH) {
      AuthIsPrefixFree(p);
    } else {
      assert Always(p) + [] == Always(p);
    }
  }

  lemma {:induction false} AuthIsPrefixFree(p: Places)
    ensures PrefixFree(Always(p) + WithAuth(p))
  {
    AlwaysIsPrefixFree(p);
    AuthPathsPart(AUTH_PRIVATE);
    AuthPathsPart(AUTH_PUBLIC);
    AuthPairParts();
    ApartFromEach(p, AUTH_PRIVATE);
    ApartFromEach(p, AUTH_PUBLIC);
    TwoMore(Always(p), WithAuth(p)[0], WithAuth(p)[1]);
    assert WithAuth(p) == [WithAuth(p)[0], WithAuth(p)[1]];
  }

  lemma {:induction false} TwoMore(writes: seq<Write>, a: Write, b: Write)
    requires PrefixFree(writes) && a.path != [] && b.path != [] && Apart(b.path, a.path)
    requires forall v :: v in writes ==> Apart(a.path, v.path)
    requires forall v :: v in writes ==> Apart(b.path, v.path)
    ensures PrefixFree(writes + [a, b])
  {
    PrefixFreeNext(writes, a);
    PrefixFreeNext(writes + [a], b);
    assert writes + [a, b] == writes + [a] + [b];
  }

  lemma {:induction false} AuthStays(config: Config, p: Places)
    ensures Get(Mapping(WriteAll(config, Always(p))), AUTH_SSH) == Get(Mapping(config), AUTH_SSH)
  {
    AuthPathsPart(AUTH_SSH);
    forall w | w in Always(p) ensures Apart(w.path, AUTH_SSH) {
      AlwaysPaths(p, AUTH_SSH, w);
    }
    AllElsewhere(config, Always(p), AUTH_SSH);
  }

  /** rewriteLegacyClusterConfig between reading the file and writing it. The test for the ssh
      mapping, made halfway, sees what the original configuration had. */
  method Rewrite(config: Config, p: Places) returns (r: Config)
    ensures r == WriteAll(config, Writes(config, p))
  {
    r := WriteEach(config, Always(p));
    AuthStays(config, p);
    var has := Has(r, AUTH_SSH);
    if has {
      r := WriteEach(r, WithAuth(p));
      WriteAllConcat(config, Always(p), WithAuth(p));
    } else {
      assert Always(p) + [] == Always(p);
    }
  }

  method WriteEach(config: Config, writes: seq<Write>) returns (r: Config)
    ensures r == WriteAll(config, writes)
  {
    r := config;
    for i := 0 to |writes|
      invariant r == WriteAll(config, writes[..i])
    {
      assert writes[..i + 1][..i] == writes[..i];
      r := Set(r, writes[i].value, writes[i].path);
    }
    assert writes[..|writes|] == writes;
  }

  /** After the rewrite every path written reads back its value, and every path apart from them all
      reads as before as far as the source looks; a reader, who looks into mixed mappings too, finds it
      as before unless a write met a mixed mapping it goes through, and then not at all. */
  lemma {:induction false} RewriteReadsBack(config: Config, p: Places)
    ensures var writes := Writes(config, p); var r := Mapping(WriteAll(config, writes));
      && (forall k :: 0 <= k < |writes| ==> Get(r, writes[k].path) == Look(r, writes[k].path) == Some(writes[k].value))
      && (forall q :: ApartFromAll(writes, q) ==> Get(r, q) == Get(Mapping(config), q))
      && (forall q :: ApartFromAll(writes, q) ==> Look(r, q) == if Crossed(config, writes, q) then None else Look(Mapping(config), q))
  {
    var writes := Writes(config, p);
    var r := Mapping(WriteAll(config, writes));
    WritesArePrefixFree(config, p);
    forall k | 0 <= k < |writes| ensures Get(r, writes[k].path) == Look(r, writes[k].path) == Some(writes[k].value) {
      AllReadBack(config, writes, k);
      GetIsLook(r, writes[k].path);
    }
    forall q | ApartFromAll(writes, q) ensures Get(r, q) == Get(Mapping(config), q) {
      AllElsewhere(config, writes, q);
    }
    forall q | ApartFromAll(writes, q) ensures Look(r, q) == if Crossed(config, writes, q) then None else Look(Mapping(config), q) {
      AllLooks(config, writes, q);
    }
  }

  /** Below a mixed mapping at a proper prefix of a written path stands something that no written path
      leads to or through. */
  ghost predicate Strays(config: Config, writes: seq<Write>) {
    exists q :: Stray(config, writes, q)
  }

  ghost predicate Stray(config: Config, writes: seq<Write>, q: Path) {
    ApartFromAll(writes, q) && Crossed(config, writes, q) && Look(Mapping(config), q).Some?
  }

  ghost predicate Kept(config: Config, writes: seq<Write>, q: Path) {
    ApartFromAll(writes, q) ==> Look(Mapping(WriteAll(config, writes)), q) == Look(Mapping(config), q)
  }

  /** Every path apart from those written reads as before exactly if nothing strays. */
  lemma {:induction false} KeptIffNothingStrays(config: Config, p: Places)
    ensures var writes := Writes(config, p);
      (forall q :: Kept(config, writes, q)) <==> !Strays(config, writes)
  {
    var writes := Writes(config, p);
    RewriteReadsBack(config, p);
    if !Strays(config, writes) {
      forall q ensures Kept(config, writes, q) {
        assert !Stray(config, writes, q);
      }
    }
    if q :| Stray(config, writes, q) {
      assert !Kept(config, writes, q);
    }
  }

  /** In particular if no mixed mapping stands at a proper prefix of a written path. */
  lemma {:induction false} NothingMixedNothingLost(config: Config, writes: seq<Write>)
    requires forall i, m :: 0 <= i < |writes| && 0 < m < |writes[i].path| ==> !MixedAt(Mapping(config), writes[i].path[..m])
    ensures !Strays(config, writes)
  {
    if q :| Stray(config, writes, q) {
      var i :| 0 <= i < |writes| && Crosses(config, writes[i].path, q);
      var m := CrossedAt(config, writes[i].path, q);
    }
  }

  /** And something is lost if one does, with a string key that no written path goes on with. */
  lemma {:induction false} StrayKey(config: Config, writes: seq<Write>, i: nat, m: nat, key: string)
    requires i < |writes| && 0 < m < |writes[i].path| && MixedAt(Mapping(config), writes[i].path[..m])
    requires key in Get(Mapping(config), writes[i].path[..m]).value.strings
    requires ApartFromAll(writes, writes[i].path[..m] + [key])
    ensures Stray(config, writes, writes[i].path[..m] + [key])
  {
    var r := writes[i].path[..m];
    LookOn(Mapping(config), r, key);
    CrossingAt(config, writes[i].path, r + [key], m);
  }

  lemma {:induction false} LookOn(v: Value, r: Path, key: string)
    requires MixedAt(v, r) && key in Get(v, r).value.strings
    ensures Look(v, r + [key]).Some?
    decreases |r|
  {
    if r != [] {
      assert (r + [key])[1..] == r[1..] + [key];
      LookOn(v.entries[r[0]], r[1..], key);
    } else {
      assert r + [key] == [key] && [key][1..] == [];
    }
  }

  /** Secrets with the key 1 among others lose the others. */
  lemma {:induction false} SecretsAreLost(p: Places, other: string, x: Value, y: Value)
    requires other != "sops_age_key_file" && other != "sops" && other != SSH_KEY
    ensures var config: Config := map[SECRETS := Mixed(map[other := y], map["1" := x])];
      var r := Mapping(WriteAll(config, Writes(config, p)));
      Look(Mapping(config), [SECRETS, other]) == Some(y) && Look(r, [SECRETS, other]) == None
  {
    var config: Config := map[SECRETS := Mixed(map[other := y], map["1" := x])];
    var writes, q := Writes(config, p), [SECRETS, other];
    NoSecretsHere(config, p, other);
    assert q[1..] == [other] && [other][1..] == [];
    assert writes[1] == Always(p)[1] && writes[1].path == AGE_KEY_FILE;
    assert AGE_KEY_FILE[0] == SECRETS;
    assert Crosses(config, AGE_KEY_FILE, q);
    assert Look(Mapping(config), q) == Look(config[SECRETS], [other]) == Look(y, []);
    AllLooks(config, writes, q);
  }

  lemma {:induction false} NoSecretsHere(config: Config, p: Places, other: string)
    requires other != "sops_age_key_file" && other != "sops" && other != SSH_KEY
    requires OPENCENTER !in config
    ensures ApartFromAll(Writes(config, p), [SECRETS, other])
  {
    var q := [SECRETS, other];
    assert |OPENCENTER| != |SECRETS|;
    assert Get(Mapping(config), AUTH_SSH) == None;
    assert Writes(config, p) == Always(p);
    forall w | w in Always(p) ensures Apart(w.path, q) {
      AlwaysPaths(p, q, w);
      ApartAt(w.path, q, if w.path[0] == SECRETS then 1 else 0);
    }
  }

  /** A string key beside another is not lost by itself: one that a written path goes on with, and that
      holds a scalar, has nothing to lose. */
  lemma {:induction false} StringKeyNotEnough(p: Places, x: Value, y: string)
    ensures var config: Config := map[SECRETS := Mixed(map["sops" := Scalar(y)], map["1" := x])];
      !Strays(config, Writes(config, p))
  {
    var config: Config := map[SECRETS := Mixed(map["sops" := Scalar(y)], map["1" := x])];
    var writes := Writes(config, p);
    if q :| Stray(config, writes, q) {
      var i :| 0 <= i < |writes| && Crosses(config, writes[i].path, q);
      assert q[0] == SECRETS;
      assert writes[1] == Always(p)[1] && writes[1].path == AGE_KEY_FILE;
      assert writes[2] == Always(p)[2] && writes[2].path == SOPS_KEY_FILE;
      OnlySops(config, q, y);
    }
  }

  lemma OnlySops(config: Config, q: Path, y: string)
    requires config.Keys == {SECRETS} && config[SECRETS].Mixed? && config[SECRETS].strings == map["sops" := Scalar(y)]
    requires q != [] && Look(Mapping(config), q).Some?
    ensures q == [SECRETS] || q == [SECRETS, "sops"]
  {
    if |q| > 1 {
      var rest := q[1..];
      assert Look(config[SECRETS], rest).Some? && rest[0] == "sops";
      assert Look(Scalar(y), rest[1..]).Some?;
      assert rest[1..] == [];
    }
  }

  lemma ApartAt(path: Path, q: Path, i: nat)
    requires i < |path| && i < |q| && path[i] != q[i]
    ensures Apart(path, q)
  {
  }

  /** What is below a mapping keeps it from being null. */
  lemma {:induction false} HoldsAbove(v: Value, path: Path, last: string)
    requires Get(v, path + [last]).Some?
    ensures Holds(v, path) && Get(v, path).value.Mapping?
    decreases |path|
  {
    if path != [] {
      assert (path + [last])[1..] == path[1..] + [last] && (path + [last])[0] == path[0];
      HoldsAbove(v.entries[path[0]], path[1..], last);
    } else {
      assert path + [last] == [last];
    }
  }

  /** Rewriting a configuration twice is rewriting it once. */
  lemma {:induction false} RewriteTwice(config: Config, p: Places)
    ensures var r := WriteAll(config, Writes(config, p)); WriteAll(r, Writes(r, p)) == r
  {
    var writes := Writes(config, p);
    var r := WriteAll(config, writes);
    RewriteReadsBack(config, p);
    SameWrites(config, p);
    WriteAllSame(r, writes);
  }

  lemma {:induction false} SameWrites(config: Config, p: Places)
    ensures Writes(WriteAll(config, Writes(config, p)), p) == Writes(config, p)
  {
    var writes := Writes(config, p);
    var r := WriteAll(config, writes);
    if Holds(Mapping(config), AUTH_SSH) {
      RewriteReadsBack(config, p);
      var k := |Always(p)|;
      assert writes[k] == WithAuth(p)[0];
      assert AUTH_PRIVATE == AUTH_SSH + ["private_key"];
      HoldsAbove(Mapping(r), AUTH_SSH, "private_key");
    } else {
      assert writes == Always(p);
      AuthStays(config, p);
    }
  }

  // ---------- What is written where ----------

  lemma WrittenAt(config: Config, p: Places, k: nat, path: Path, text: string)
    requires k < 6 && Always(p)[k] == Write(path, Scalar(text))
    ensures Get(Mapping(WriteAll(config, Writes(config, p))), path) == Some(Scalar(text))
  {
    assert Writes(config, p)[k] == Always(p)[k];
    RewriteReadsBack(config, p);
  }

  /** After the rewrite the repository is in its new directory, both settings for the age key name the new
      key, and the private and public key of the key pair are the new ones. */
  lemma {:induction false} PlacesAreWritten(config: Config, p: Places)
    ensures var r := Mapping(WriteAll(config, Writes(config, p)));
      && Get(r, ["opencenter", "gitops", "repository", "local_dir"]) == Some(Scalar(p.gitOpsDir))
      && Get(r, ["secrets", "sops_age_key_file"]) == Some(Scalar(p.sopsKey))
      && Get(r, ["secrets", "sops", "age_key_file"]) == Some(Scalar(p.sopsKey))
      && Get(r, ["secrets", "ssh_key", "private"]) == Some(Scalar(p.sshKey))
      && Get(r, ["secrets", "ssh_key", "public"]) == Some(Scalar(p.sshKey + ".pub"))
      && Get(r, ["opencenter", "infrastructure", "ssh", "key_path"]) == Some(Scalar(p.sshKey))
  {
    WrittenAt(config, p, 0, LOCAL_DIR, p.gitOpsDir);
    WrittenAt(config, p, 1, AGE_KEY_FILE, p.sopsKey);
    WrittenAt(config, p, 2, SOPS_KEY_FILE, p.sopsKey);
    WrittenAt(config, p, 3, PRIVATE, p.sshKey);
    WrittenAt(config, p, 4, PUBLIC, p.sshKey + ".pub");
    WrittenAt(config, p, 5, KEY_PATH, p.sshKey);
  }

  lemma AuthHeld(config: Config, p: Places)
    requires Holds(Mapping(config), AUTH_SSH)
    ensures var r := Mapping(WriteAll(config, Writes(config, p)));
      Get(r, AUTH_PRIVATE) == Some(Scalar(p.sshKey)) && Get(r, AUTH_PUBLIC) == Some(Scalar(p.sshKey + ".pub"))
  {
    var writes := Writes(config, p);
    assert writes[6] == WithAuth(p)[0] && writes[7] == WithAuth(p)[1];
    RewriteReadsBack(config, p);
  }

  lemma AuthNotHeld(config: Config, p: Places, q: Path)
    requires !Holds(Mapping(config), AUTH_SSH) && (q == AUTH_PRIVATE || q == AUTH_PUBLIC)
    ensures Get(Mapping(WriteAll(config, Writes(config, p))), q) == Get(Mapping(config), q)
  {
    assert Writes(config, p) == Always(p);
    AuthApart(p, q);
    AllElsewhere(config, Always(p), q);
  }

  lemma AuthApart(p: Places, q: Path)
    requires q == AUTH_PRIVATE || q == AUTH_PUBLIC
    ensures ApartFromAll(Always(p), q)
  {
    AuthPathsPart(q);
    forall i | 0 <= i < 6 ensures Apart(Always(p)[i].path, q) {
      assert i == 0 || i == 1 || i == 2 || i == 3 || i == 4 || i == 5;
    }
  }

  /** The key pair for the repository is written exactly where its mapping held something; elsewhere it
      stays as it was. */
  lemma {:induction false} AuthIsWritten(config: Config, p: Places, keys: Path, private: Path, public: Path)
    requires keys == ["opencenter", "gitops", "auth", "ssh"]
    requires private == keys + ["private_key"] && public == keys + ["public_key"]
    ensures var r := Mapping(WriteAll(config, Writes(config, p)));
      if Holds(Mapping(config), keys) then Get(r, private) == Some(Scalar(p.sshKey)) && Get(r, public) == Some(Scalar(p.sshKey + ".pub"))
      else Get(r, private) == Get(Mapping(config), private) && Get(r, public) == Get(Mapping(config), public)
  {
    assert keys == AUTH_SSH && private == AUTH_PRIVATE && public == AUTH_PUBLIC;
    if Holds(Mapping(config), AUTH_SSH) {
      AuthHeld(config, p);
    } else {
      AuthNotHeld(config, p, private);
      AuthNotHeld(config, p, public);
    }
  }
}
