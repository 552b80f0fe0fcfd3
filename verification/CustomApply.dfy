/** Carrying out a custom overlay migration: moving the files, then rewriting the kustomizations
    beside them. The disk is one map that every operation updates in place. */
module CustomApply {
  import opened Text
  import opened CustomMigration
  import K = Kustomization

  // ---------- The disk ----------

  predicate IsDir(fs: FS, p: Path) {
    p == [] || (p in fs && fs[p].Dir?)
  }

  /** No directory on the way is reached through a link. */
  ghost predicate Straight(fs: FS, dir: Path) {
    forall n :: 0 < n <= |dir| && dir[..n] in fs ==> !fs[dir[..n]].Link?
  }

  /** All directories down to this one. */
  function Prefixes(dir: Path): set<Path> {
    if dir == [] then {} else Prefixes(Parent(dir)) + {dir}
  }

  function WithDirs(fs: FS, dirs: set<Path>): FS {
    map p | p in fs.Keys + dirs :: if p in fs then fs[p] else Dir
  }

  function Renamed(fs: FS, from: Path, to: Path): FS
    requires from in fs
  {
    (fs - {from})[to := fs[from]]
  }

  /** os.ReadFile; a file seen only through a linked directory is never asked for. */
  function Reading(fs: FS, p: Path): K.Reading {
    if p !in fs then if Lstat(fs, p) == Absent then K.NotFound else K.Unreadable
    else match fs[p]
      case File(data) => K.Contents(data)
      case Dir => K.Unreadable
      case Link(Nowhere) => K.NotFound
      case Link(ToFile(data)) => K.Contents(data)
      case Link(ToDir(_)) => K.Unreadable
  }

  predicate Writable(fs: FS, p: Path) {
    if p in fs then !fs[p].Dir? && !(fs[p].Link? && fs[p].target.ToDir?) else IsDir(fs, Parent(p))
  }

  /** What a write leaves at a path: links are written through. */
  function Overwritten(fs: FS, p: Path, data: string): Entry {
    if p in fs && fs[p].Link? then Link(ToFile(data)) else File(data)
  }

  class Disk {
    var fs: FS

    constructor (fs: FS)
      ensures this.fs == fs
    {
      this.fs := fs;
    }

    method ReadFile(p: Path) returns (r: K.Reading)
      ensures r == Reading(fs, p)
    {
      return Reading(fs, p);
    }

    method MkdirAll(dir: Path) returns (ok: bool)
      requires Straight(fs, dir)
      modifies this
      ensures ok <==> forall n :: 0 < n <= |dir| && dir[..n] in old(fs) ==> old(fs)[dir[..n]].Dir?
      ensures ok ==> fs == WithDirs(old(fs), Prefixes(dir))
      ensures forall p :: p in old(fs) ==> p in fs && fs[p] == old(fs)[p]
    {
      for n := 0 to |dir|
        invariant fs == WithDirs(old(fs), Prefixes(dir[..n]))
        invariant forall k :: 0 < k <= n && dir[..k] in old(fs) ==> old(fs)[dir[..k]].Dir?
      {
        var next := dir[..n + 1];
        PrefixesShorter(dir, n);
        if next in fs {
          if !fs[next].Dir? {
            return false;
          }
        } else {
          fs := fs[next := Dir];
        }
      }
      assert dir[..|dir|] == dir;
      return true;
    }

    method Rename(from: Path, to: Path) returns (ok: bool)
      requires from in fs && fs[from].File?
      modifies this
      ensures ok <==> IsDir(old(fs), Parent(to)) && !IsDir(old(fs), to)
      ensures fs == if ok then Renamed(old(fs), from, to) else old(fs)
    {
      if !IsDir(fs, Parent(to)) || IsDir(fs, to) {
        return false;
      }
      fs := Renamed(fs, from, to);
      return true;
    }

    method WriteFile(p: Path, data: string) returns (ok: bool)
      modifies this
      ensures ok <==> Writable(old(fs), p)
      ensures fs == if ok then old(fs)[p := Overwritten(old(fs), p, data)] else old(fs)
    {
      if !Writable(fs, p) {
        return false;
      }
      fs := fs[p := Overwritten(fs, p, data)];
      return true;
    }
  }

  lemma PrefixesShorter(dir: Path, n: nat)
    requires n < |dir|
    ensures Prefixes(dir[..n + 1]) == Prefixes(dir[..n]) + {dir[..n + 1]}
    ensures forall p :: p in Prefixes(dir[..n]) ==> |p| <= n
  {
    assert Parent(dir[..n + 1]) == dir[..n];
    PrefixesAreShort(dir[..n]);
  }

  lemma {:induction false} PrefixesAreShort(dir: Path)
    ensures forall p :: p in Prefixes(dir) <==> 0 < |p| <= |dir| && p == dir[..|p|]
    decreases |dir|
  {
    if dir != [] {
      PrefixesAreShort(Parent(dir));
      forall p ensures p in Prefixes(dir) <==> 0 < |p| <= |dir| && p == dir[..|p|] {
        assert |p| < |dir| ==> Parent(dir)[..|p|] == dir[..|p|];
        assert |p| == |dir| ==> dir[..|p|] == dir;
      }
    }
  }

  // ---------- Good moves, and where they lead ----------

  /** A file of the user's own, going to a free place in a custom directory that is no link. */
  ghost predicate Good(fs: FS, c: Move) {
    && c.from in fs && fs[c.from].File? && !IsCustom(c.from)
    && Destination(c.from) == Some(c.to) && Last(c.from) != KUSTOMIZATION
    && c.to !in fs && (Parent(c.to) in fs ==> fs[Parent(c.to)].Dir?)
  }

  ghost predicate GoodMoves(fs: FS, cs: set<Move>) {
    && (forall c :: c in cs ==> Good(fs, c))
    && (forall c, d :: c in cs && d in cs && c.to == d.to ==> c == d)
  }

  function Elements(moves: seq<Move>): set<Move> {
    set c | c in moves
  }

  ghost function Froms(cs: set<Move>): set<Path> {
    set c | c in cs :: c.from
  }

  ghost function Targets(cs: set<Move>): set<Path> {
    set c | c in cs :: c.to
  }

  /** The directories the files move into. */
  ghost function Homes(cs: set<Move>): set<Path> {
    set c | c in cs :: Parent(c.to)
  }

  /** The disk after some moves; it does not depend on their order. */
  ghost function Moved(fs: FS, cs: set<Move>): FS
  {
    map p | p in Present(fs, cs) :: EntryAt(fs, cs, p)
  }

  ghost function Present(fs: FS, cs: set<Move>): set<Path> {
    (fs.Keys - Froms(cs)) + Targets(cs) + Homes(cs)
  }

  ghost function EntryAt(fs: FS, cs: set<Move>, p: Path): Entry {
    if p in Targets(cs) then
      var c :| c in cs && c.to == p;
      if c.from in fs then fs[c.from] else Dir
    else if p in fs then fs[p] else Dir
  }

  lemma MovedTo(fs: FS, cs: set<Move>, c: Move)
    requires GoodMoves(fs, cs) && c in cs
    ensures c.to in Moved(fs, cs) && Moved(fs, cs)[c.to] == fs[c.from]
  {
    assert c.to in Targets(cs);
  }

  /** Nothing else moves. */
  lemma MovedElsewhere(fs: FS, cs: set<Move>, p: Path)
    requires p !in Froms(cs) && p !in Targets(cs)
    ensures p in Moved(fs, cs) <==> p in fs || p in Homes(cs)
    ensures p in Moved(fs, cs) ==> Moved(fs, cs)[p] == if p in fs then fs[p] else Dir
  {
  }

  lemma MovedFrom(fs: FS, cs: set<Move>, p: Path)
    requires GoodMoves(fs, cs) && p in Froms(cs)
    ensures p in fs && p !in Moved(fs, cs) && p !in Targets(cs) && p !in Homes(cs)
  {
    forall c | c in cs ensures c.to != p && Parent(c.to) != p {
      InCustom(fs, c);
    }
  }

  lemma InCustom(fs: FS, c: Move)
    requires Good(fs, c)
    ensures |c.to| == 4 && IsCustom(c.to) && Last(c.to) == Last(c.from)
    ensures IsCustom(Parent(c.to)) && Parent(c.to) == [c.from[0], c.from[1], CUSTOM]
  {
    assert c.to[2] == CUSTOM && c.to[1..][1] == CUSTOM;
    assert Parent(c.to)[1..][1] == CUSTOM;
  }

  // ---------- One move ----------

  lemma {:induction false} Above(fs: FS, p: Path, n: nat)
    requires IsTree(fs) && p in fs && 0 < n < |p|
    ensures p[..n] in fs && fs[p[..n]].Dir?
    decreases |p|
  {
    assert Placed(fs, p);
    if n < |p| - 1 {
      Above(fs, Parent(p), n);
      assert Parent(p)[..n] == p[..n];
    }
  }

  /** Directories stay where they are. */
  lemma DirStays(fs: FS, cs: set<Move>, p: Path)
    requires GoodMoves(fs, cs) && p in fs && fs[p].Dir?
    ensures p in Moved(fs, cs) && Moved(fs, cs)[p].Dir?
  {
    MovedElsewhere(fs, cs, p);
  }

  /** The directories above a destination, before or after some moves. */
  lemma {:induction false} WayThere(fs: FS, cs: set<Move>, c: Move)
    requires IsTree(fs) && GoodMoves(fs, cs) && Good(fs, c)
    ensures var out, home := Moved(fs, cs), Parent(c.to);
      && |home| == 3 && home[..1] in out && out[home[..1]].Dir? && home[..2] in out && out[home[..2]].Dir?
      && home[..3] == home && (home in out ==> out[home].Dir?)
  {
    var home := Parent(c.to);
    InCustom(fs, c);
    Above(fs, c.from, 1);
    Above(fs, c.from, 2);
    assert home[..1] == c.from[..1] && home[..2] == c.from[..2];
    DirStays(fs, cs, home[..1]);
    DirStays(fs, cs, home[..2]);
    HomeIsDir(fs, cs, c);
  }

  lemma HomeIsDir(fs: FS, cs: set<Move>, c: Move)
    requires GoodMoves(fs, cs) && Good(fs, c)
    ensures var out := Moved(fs, cs);
      Parent(c.to) in out ==> out[Parent(c.to)].Dir?
  {
    var home := Parent(c.to);
    InCustom(fs, c);
    forall d | d in cs ensures d.to != home && d.from != home {
      InCustom(fs, d);
    }
    MovedElsewhere(fs, cs, home);
  }

  lemma {:induction false} WayIsStraight(fs: FS, cs: set<Move>, c: Move)
    requires IsTree(fs) && GoodMoves(fs, cs) && Good(fs, c)
    ensures var out, home := Moved(fs, cs), Parent(c.to);
      && Straight(out, home)
      && (forall n :: 0 < n <= |home| && home[..n] in out ==> out[home[..n]].Dir?)
      && WithDirs(out, Prefixes(home)) == out[home := Dir]
  {
    var out, home := Moved(fs, cs), Parent(c.to);
    WayThere(fs, cs, c);
    forall n | 0 < n <= |home| ensures home[..n] in out ==> out[home[..n]].Dir? {
      assert n == 1 || n == 2 || n == 3;
    }
    OnlyHomeIsMade(out, home);
  }

  lemma {:induction false} OnlyHomeIsMade(fs: FS, home: Path)
    requires |home| == 3 && home[..1] in fs && home[..2] in fs && (home in fs ==> fs[home].Dir?)
    ensures WithDirs(fs, Prefixes(home)) == fs[home := Dir]
  {
    ThreeDirs(home);
  }

  lemma {:induction false} ThreeDirs(home: Path)
    requires |home| == 3
    ensures Prefixes(home) == {home[..1], home[..2], home}
  {
    PrefixesShorter(home, 0);
    PrefixesShorter(home, 1);
    PrefixesShorter(home, 2);
    assert home[..3] == home && home[..0] == [];
  }

  /** With its directory made, a file can be renamed. */
  lemma {:induction false} MoveReady(fs: FS, cs: set<Move>, c: Move)
    requires GoodMoves(fs, cs + {c}) && c !in cs
    ensures var ready := Moved(fs, cs)[Parent(c.to) := Dir];
      && c.from in ready && ready[c.from] == fs[c.from]
      && IsDir(ready, Parent(c.to)) && c.to !in ready
  {
    assert c in cs + {c};
    InCustom(fs, c);
    SourceWaits(fs, cs, c);
    MovedElsewhere(fs, cs, c.from);
    MovedElsewhere(fs, cs, c.to);
  }

  /** Making the directory and renaming the file is one more move. */
  lemma {:induction false} MoveStep(fs: FS, cs: set<Move>, c: Move)
    requires GoodMoves(fs, cs + {c}) && c !in cs && c.from in Moved(fs, cs)[Parent(c.to) := Dir]
    ensures Renamed(Moved(fs, cs)[Parent(c.to) := Dir], c.from, c.to) == Moved(fs, cs + {c})
  {
    var before, after := Moved(fs, cs), Moved(fs, cs + {c});
    var out := Renamed(before[Parent(c.to) := Dir], c.from, c.to);
    PresentStep(fs, cs, c);
    assert before.Keys == Present(fs, cs) && after.Keys == Present(fs, cs + {c});
    assert out.Keys == after.Keys;
    MoveReady(fs, cs, c);
    forall p | p in out ensures out[p] == after[p] {
      assert after[p] == EntryAt(fs, cs + {c}, p);
      if p != c.from {
        EntryStep(fs, cs, c, p);
      } else {
        assert false;
      }
    }
  }

  lemma SetsStep(cs: set<Move>, c: Move)
    ensures Froms(cs + {c}) == Froms(cs) + {c.from} && Targets(cs + {c}) == Targets(cs) + {c.to}
    ensures Homes(cs + {c}) == Homes(cs) + {Parent(c.to)}
  {
    var all := cs + {c};
    forall d | d in all ensures d in cs || d == c {
    }
    assert c in all && forall d :: d in cs ==> d in all;
  }

  lemma PresentStep(fs: FS, cs: set<Move>, c: Move)
    requires GoodMoves(fs, cs + {c}) && c !in cs
    ensures Present(fs, cs + {c}) == Present(fs, cs) + {Parent(c.to), c.to} - {c.from}
  {
    assert c in cs + {c};
    InCustom(fs, c);
    SetsStep(cs, c);
    SourceWaits(fs, cs, c);
    NoSourceIsHome(fs, cs + {c}, c);
  }

  lemma NoSourceIsHome(fs: FS, cs: set<Move>, c: Move)
    requires GoodMoves(fs, cs) && c in cs
    ensures c.from !in Targets(cs) && c.from !in Homes(cs)
  {
    forall d | d in cs ensures d.to != c.from && Parent(d.to) != c.from {
      InCustom(fs, d);
    }
  }

  lemma SourceWaits(fs: FS, cs: set<Move>, c: Move)
    requires GoodMoves(fs, cs + {c}) && c !in cs
    ensures c.from !in Froms(cs) && c.from !in Targets(cs) && c.to !in Targets(cs) && c.to !in Homes(cs) && c.to !in Froms(cs)
    ensures Parent(c.to) !in Froms(cs) && Parent(c.to) !in Targets(cs)
  {
    assert c in cs + {c};
    InCustom(fs, c);
    forall d | d in cs ensures d.from != c.from && d.to != c.from && d.to != c.to && Parent(d.to) != c.to && d.from != c.to
      && Parent(c.to) != d.from && Parent(c.to) != d.to {
      assert d in cs + {c};
      InCustom(fs, d);
    }
  }

  lemma EntryStep(fs: FS, cs: set<Move>, c: Move, p: Path)
    requires GoodMoves(fs, cs + {c}) && c !in cs && p != c.from
    requires p in Moved(fs, cs) || p == Parent(c.to) || p == c.to
    ensures EntryAt(fs, cs + {c}, p)
         == if p == c.to then fs[c.from] else if p == Parent(c.to) then Dir else Moved(fs, cs)[p]
  {
    var all := cs + {c};
    assert c in all;
    SourceWaits(fs, cs, c);
    InCustom(fs, c);
    if p == c.to {
      assert c.to in Targets(all);
    } else if p in Targets(cs) {
      var d :| d in cs && d.to == p;
      assert d in all && p in Targets(all);
    } else {
      assert p !in Targets(all);
    }
  }

  // ---------- Kustomizations ----------

  /** The kustomization beside a destination. */
  function KustomizationOf(c: Move): Path {
    Parent(c.to) + [KUSTOMIZATION]
  }

  ghost function Kustomizations(cs: set<Move>): set<Path> {
    set c | c in cs :: KustomizationOf(c)
  }

  /** The files moving in beside a kustomization, in order. */
  function Resources(moves: seq<Move>, k: Path): seq<string> {
    if moves == [] then []
    else
      var last := moves[|moves| - 1];
      Resources(moves[..|moves| - 1], k) + if KustomizationOf(last) == k then [Last(last.to)] else []
  }

  lemma ResourcesNext(moves: seq<Move>, k: Path, i: nat)
    requires i < |moves|
    ensures Resources(moves[..i + 1], k) == Resources(moves[..i], k) + if KustomizationOf(moves[i]) == k then [Last(moves[i].to)] else []
    ensures Elements(moves[..i + 1]) == Elements(moves[..i]) + {moves[i]}
  {
    assert moves[..i + 1][..i] == moves[..i] && moves[..i + 1] == moves[..i] + [moves[i]];
  }

  ghost predicate Grouped(moves: seq<Move>, groups: map<Path, seq<string>>) {
    && groups.Keys == Kustomizations(Elements(moves))
    && forall k :: k in groups ==> groups[k] == Resources(moves, k)
  }

  lemma {:induction false} NoResources(moves: seq<Move>, k: Path)
    requires k !in Kustomizations(Elements(moves))
    ensures Resources(moves, k) == []
    decreases |moves|
  {
    if moves != [] {
      var n := |moves| - 1;
      assert moves == moves[..n] + [moves[n]];
      assert moves[n] in Elements(moves);
      forall c | c in Elements(moves[..n]) ensures KustomizationOf(c) != k {
        assert c in Elements(moves);
      }
      NoResources(moves[..n], k);
    }
  }

  lemma GroupStep(moves: seq<Move>, i: nat, groups: map<Path, seq<string>>)
    requires i < |moves| && Grouped(moves[..i], groups)
    ensures var k := KustomizationOf(moves[i]);
      Grouped(moves[..i + 1], groups[k := (if k in groups then groups[k] else []) + [Last(moves[i].to)]])
  {
    var k := KustomizationOf(moves[i]);
    var more := groups[k := (if k in groups then groups[k] else []) + [Last(moves[i].to)]];
    if k !in groups {
      NoResources(moves[..i], k);
    }
    ResourcesNext(moves, k, i);
    KustomizationsNext(Elements(moves[..i]), moves[i]);
    forall k' | k' in more ensures more[k'] == Resources(moves[..i + 1], k') {
      ResourcesNext(moves, k', i);
    }
  }

  lemma KustomizationsNext(cs: set<Move>, c: Move)
    ensures Kustomizations(cs + {c}) == Kustomizations(cs) + {KustomizationOf(c)}
  {
    assert c in cs + {c} && forall d :: d in cs ==> d in cs + {c};
  }

  /** resourcesByKustomization. */
  method Group(moves: seq<Move>) returns (groups: map<Path, seq<string>>)
    ensures Grouped(moves, groups)
  {
    groups := map[];
    for i := 0 to |moves|
      invariant Grouped(moves[..i], groups)
    {
      var k := KustomizationOf(moves[i]);
      GroupStep(moves, i, groups);
      groups := groups[k := (if k in groups then groups[k] else []) + [Last(moves[i].to)]];
    }
    assert moves[..|moves|] == moves;
  }

  ghost function PreparationAt(codec: K.Codec, fs: FS, groups: map<Path, seq<string>>, k: Path): K.Prepared
    requires k in groups
  {
    K.Preparation(codec, Reading(fs, k), groups[k])
  }

  /** The rewritten kustomizations of some groups, and their new contents. */
  ghost predicate Updates(codec: K.Codec, fs: FS, groups: map<Path, seq<string>>, done: set<Path>, updates: map<Path, string>)
    requires done <= groups.Keys
  {
    && updates.Keys <= done
    && (forall k :: k in done ==> PreparationAt(codec, fs, groups, k) != K.Refused)
    && (forall k :: k in done ==> (k in updates <==> PreparationAt(codec, fs, groups, k).Rewrite?))
    && (forall k :: k in updates ==> PreparationAt(codec, fs, groups, k) == K.Rewrite(updates[k]))
  }

  /** The kustomization updates, prepared in any order; none when one file cannot be merged. */
  method PrepareAll(disk: Disk, codec: K.Codec, groups: map<Path, seq<string>>) returns (ok: bool, updates: map<Path, string>)
    ensures ok <==> forall k :: k in groups ==> PreparationAt(codec, disk.fs, groups, k) != K.Refused
    ensures ok ==> Updates(codec, disk.fs, groups, groups.Keys, updates)
  {
    updates := map[];
    var todo := groups.Keys;
    while todo != {}
      invariant todo <= groups.Keys
      invariant Updates(codec, disk.fs, groups, groups.Keys - todo, updates)
    {
      var k :| k in todo;
      var reading := disk.ReadFile(k);
      var prepared := K.Prepare(codec, reading, groups[k]);
      assert prepared == PreparationAt(codec, disk.fs, groups, k);
      if prepared.Refused? {
        return false, map[];
      }
      if prepared.Rewrite? {
        updates := updates[k := prepared.data];
      }
      todo := todo - {k};
    }
    assert groups.Keys - {} == groups.Keys;
    return true, updates;
  }

  // ---------- Applying ----------

  ghost predicate Distinct(moves: seq<Move>) {
    forall i, j :: 0 <= i < j < |moves| ==> moves[i] != moves[j]
  }

  ghost predicate Ready(fs: FS, moves: seq<Move>) {
    IsTree(fs) && GoodMoves(fs, Elements(moves)) && Distinct(moves)
  }

  lemma ReadyStep(fs: FS, moves: seq<Move>, i: nat)
    requires Ready(fs, moves) && i < |moves|
    ensures var cs, c := Elements(moves[..i]), moves[i];
      && Elements(moves[..i + 1]) == cs + {c} && c !in cs && c in cs + {c}
      && GoodMoves(fs, cs + {c}) && GoodMoves(fs, cs) && Good(fs, c)
  {
    ResourcesNext(moves, [], i);
    var cs, c := Elements(moves[..i]), moves[i];
    assert c in Elements(moves);
    forall d | d in cs + {c} ensures d in Elements(moves) {
    }
  }

  lemma NoMoves(fs: FS)
    ensures Moved(fs, {}) == fs
  {
  }

  /** All moves, in the order given. */
  method MoveAll(disk: Disk, moves: seq<Move>) returns (ok: bool)
    requires Ready(disk.fs, moves)
    modifies disk
    ensures ok && disk.fs == Moved(old(disk.fs), Elements(moves))
  {
    ghost var fs := disk.fs;
    NoMoves(fs);
    assert Elements(moves[..0]) == {};
    for i := 0 to |moves|
      invariant disk.fs == Moved(fs, Elements(moves[..i]))
    {
      ReadyStep(fs, moves, i);
      ok := MoveOne(disk, fs, Elements(moves[..i]), moves[i]);
      if !ok {
        return false;
      }
    }
    assert moves[..|moves|] == moves;
    return true;
  }

  /** MkdirAll and the rename of one candidate. */
  method MoveOne(disk: Disk, ghost fs: FS, ghost cs: set<Move>, c: Move) returns (ok: bool)
    requires IsTree(fs) && GoodMoves(fs, cs + {c}) && GoodMoves(fs, cs) && Good(fs, c) && c !in cs
    requires disk.fs == Moved(fs, cs)
    modifies disk
    ensures ok && disk.fs == Moved(fs, cs + {c})
  {
    WayIsStraight(fs, cs, c);
    MoveReady(fs, cs, c);
    MoveStep(fs, cs, c);
    ok := disk.MkdirAll(Parent(c.to));
    if !ok {
      return false;
    }
    ok := disk.Rename(c.from, c.to);
  }

  /** The disk with some files rewritten. */
  function Written(fs: FS, updates: map<Path, string>): FS {
    map p | p in fs.Keys + updates.Keys :: if p in updates then Overwritten(fs, p, updates[p]) else fs[p]
  }

  lemma WriteStep(fs: FS, updates: map<Path, string>, k: Path, data: string)
    requires k !in updates
    ensures Written(fs, updates[k := data]) == Written(fs, updates)[k := Overwritten(fs, k, data)]
    ensures Overwritten(Written(fs, updates), k, data) == Overwritten(fs, k, data)
  {
  }

  /** Every update can be written where it stands, and nothing is in its way. */
  ghost predicate Room(fs: FS, updates: map<Path, string>) {
    forall k :: k in updates ==> RoomAt(fs, updates.Keys, k)
  }

  ghost predicate RoomAt(fs: FS, writes: set<Path>, k: Path) {
    var home := Parent(k);
    && |k| == 4 && Writable(fs, k)
    && (forall n :: 0 < n <= 3 ==> home[..n] in fs && fs[home[..n]].Dir? && home[..n] !in writes)
  }

  lemma {:induction false} AlreadyThere(fs: FS, home: Path)
    requires |home| == 3 && forall n :: 0 < n <= 3 ==> home[..n] in fs && fs[home[..n]].Dir?
    ensures WithDirs(fs, Prefixes(home)) == fs
  {
    assert home[..3] == home;
    assert home[..1] in fs && home[..2] in fs;
    OnlyHomeIsMade(fs, home);
  }

  /** The kustomizations, written in any order. */
  method WriteAll(disk: Disk, updates: map<Path, string>) returns (ok: bool)
    requires Room(disk.fs, updates)
    modifies disk
    ensures ok && disk.fs == Written(old(disk.fs), updates)
  {
    ghost var fs := disk.fs;
    ghost var done: map<Path, string> := map[];
    var todo := updates.Keys;
    while todo != {}
      invariant todo <= updates.Keys && done.Keys == updates.Keys - todo
      invariant forall k :: k in done ==> done[k] == updates[k]
      invariant disk.fs == Written(fs, done)
    {
      var k :| k in todo;
      WriteStep(fs, done, k, updates[k]);
      ok := WriteOne(disk, fs, updates, done, k);
      if !ok {
        return false;
      }
      done := done[k := updates[k]];
      todo := todo - {k};
    }
    assert done == updates;
    return true;
  }

  method WriteOne(disk: Disk, ghost fs: FS, updates: map<Path, string>, ghost done: map<Path, string>, k: Path) returns (ok: bool)
    requires Room(fs, updates) && done.Keys <= updates.Keys && k in updates && k !in done
    requires disk.fs == Written(fs, done)
    modifies disk
    ensures ok && disk.fs == Written(fs, done)[k := Overwritten(Written(fs, done), k, updates[k])]
  {
    var home := Parent(k);
    assert RoomAt(fs, updates.Keys, k);
    forall n | 0 < n <= 3 ensures home[..n] in disk.fs && disk.fs[home[..n]].Dir? {
    }
    AlreadyThere(disk.fs, home);
    assert home[..3] == home;
    ok := disk.MkdirAll(home);
    if !ok {
      return false;
    }
    ok := disk.WriteFile(k, updates[k]);
  }
}
