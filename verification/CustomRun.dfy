/** The whole of a custom overlay migration: scan, prepare, move, rewrite. */
module CustomRun {
  import opened Text
  import opened CustomMigration
  import opened CustomApply
  import K = Kustomization

  /** Every entry once, in some order; WalkDir's lexical order is one. */
  ghost predicate Visits(fs: FS, walk: seq<Path>) {
    && (forall i :: 0 <= i < |walk| ==> walk[i] in fs)
    && (forall p :: p in fs ==> p in walk)
    && (forall i, j :: 0 <= i < j < |walk| ==> walk[i] != walk[j])
  }

  /** Whether an entry moves if no other file wants its place. */
  predicate Movable(fs: FS, m: Ledger, p: Path)
    requires p in fs
  {
    Decide(fs, m, {}, p) == Moves
  }

  /** The decision depends on what is taken only for a file that could move. */
  lemma DecideTaken(fs: FS, m: Ledger, taken: set<Path>, p: Path)
    requires p in fs && forall t :: t in taken ==> AtDestination(fs, t) == Moves
    ensures Decide(fs, m, taken, p) == if Movable(fs, m, p) && NewPath(p) in taken then Taken else Decide(fs, m, {}, p)
  {
  }

  /** Some file visited could move there. */
  ghost predicate Wanted(fs: FS, m: Ledger, walk: seq<Path>, t: Path)
    requires Covers(fs, walk)
  {
    exists p :: p in walk && p in fs && Wants(fs, m, p, t)
  }

  predicate Wants(fs: FS, m: Ledger, p: Path, t: Path)
    requires p in fs
  {
    Movable(fs, m, p) && NewPath(p) == t
  }

  lemma WantedNext(fs: FS, m: Ledger, walk: seq<Path>, t: Path)
    requires Covers(fs, walk) && walk != []
    ensures var n := |walk| - 1;
      Wanted(fs, m, walk, t) <==> Wanted(fs, m, walk[..n], t) || Wants(fs, m, walk[n], t)
  {
    assert walk == walk[..|walk| - 1] + [walk[|walk| - 1]];
  }

  /** The destinations planned are those the files visited could move to. */
  lemma {:induction false} PlanTargets(fs: FS, m: Ledger, walk: seq<Path>, t: Path)
    requires Covers(fs, walk)
    ensures t in Tos(Plan(fs, m, walk)) <==> Wanted(fs, m, walk, t)
    decreases |walk|
  {
    if walk != [] {
      var n := |walk| - 1;
      Advance(fs, m, walk, n);
      assert walk[..n + 1] == walk;
      PlanTargets(fs, m, walk[..n], t);
      WantedNext(fs, m, walk, t);
      Decision(fs, m, walk, n);
      TargetStep(fs, m, Tos(Plan(fs, m, walk[..n])), walk[n], t);
    }
  }

  lemma TargetStep(fs: FS, m: Ledger, taken: set<Path>, p: Path, t: Path)
    requires p in fs
    ensures var d := if Movable(fs, m, p) && NewPath(p) in taken then Taken else Decide(fs, m, {}, p);
      t in Tos(Planned(d, p)) <==> Wants(fs, m, p, t) && t !in taken
  {
    var d := if Movable(fs, m, p) && NewPath(p) in taken then Taken else Decide(fs, m, {}, p);
    if d == Moves {
      assert Planned(d, p)[0].to == NewPath(p);
    }
  }

  lemma WantedIsFree(fs: FS, m: Ledger, walk: seq<Path>, t: Path)
    requires Covers(fs, walk) && Wanted(fs, m, walk, t)
    ensures AtDestination(fs, t) == Moves
  {
    var p :| p in walk && p in fs && Wants(fs, m, p, t);
  }

  lemma {:induction false} Decision(fs: FS, m: Ledger, walk: seq<Path>, i: nat)
    requires Covers(fs, walk) && i < |walk|
    ensures var taken := Tos(Plan(fs, m, walk[..i]));
      DecisionAt(fs, m, walk, i) == if Movable(fs, m, walk[i]) && NewPath(walk[i]) in taken then Taken else Decide(fs, m, {}, walk[i])
    decreases |walk|, 1
  {
    var taken := Tos(Plan(fs, m, walk[..i]));
    forall t | t in taken ensures AtDestination(fs, t) == Moves {
      PlanTargets(fs, m, walk[..i], t);
      WantedIsFree(fs, m, walk[..i], t);
    }
    DecideTaken(fs, m, taken, walk[i]);
  }

  /** First come, first served: a file moves exactly if it could and no file visited before it wants
      the same place; and the scan fails only over an entry that would fail by itself. */
  lemma {:induction false} FirstComeMoves(fs: FS, m: Ledger, walk: seq<Path>, i: nat)
    requires Covers(fs, walk) && i < |walk|
    ensures DecisionAt(fs, m, walk, i) == Moves
       <==> Movable(fs, m, walk[i])
            && forall j :: 0 <= j < i ==> !Wants(fs, m, walk[j], NewPath(walk[i]))
    ensures DecisionAt(fs, m, walk, i) == Fails <==> Decide(fs, m, {}, walk[i]) == Fails
  {
    Decision(fs, m, walk, i);
    var before := walk[..i];
    PlanTargets(fs, m, before, NewPath(walk[i]));
    assert forall j :: 0 <= j < i ==> before[j] == walk[j];
  }

  /** A movable file is a good move by itself. */
  lemma MovableIsGood(fs: FS, m: Ledger, p: Path)
    requires p in fs && Movable(fs, m, p)
    ensures Good(fs, Move(p, NewPath(p)))
  {
    var home := Parent(NewPath(p));
    assert Lstat(fs, NewPath(p)) == Absent && ParentsClear(fs, home);
  }

  /** The plan holds good moves, in no order of importance: all places are different. */
  lemma {:induction false} PlanIsGood(fs: FS, m: Ledger, walk: seq<Path>)
    requires Covers(fs, walk)
    ensures GoodMoves(fs, Elements(Plan(fs, m, walk))) && Distinct(Plan(fs, m, walk))
    decreases |walk|
  {
    if walk != [] {
      var n := |walk| - 1;
      Advance(fs, m, walk, n);
      assert walk[..n + 1] == walk;
      PlanIsGood(fs, m, walk[..n]);
      var before := Plan(fs, m, walk[..n]);
      FirstComeMoves(fs, m, walk, n);
      if DecisionAt(fs, m, walk, n) == Moves {
        var c := Move(walk[n], NewPath(walk[n]));
        MovableIsGood(fs, m, walk[n]);
        Decision(fs, m, walk, n);
        assert c.to !in Tos(before);
        OneMore(fs, before, c);
      }
    }
  }

  lemma OneMore(fs: FS, moves: seq<Move>, c: Move)
    requires GoodMoves(fs, Elements(moves)) && Distinct(moves) && Good(fs, c) && c.to !in Tos(moves)
    ensures GoodMoves(fs, Elements(moves + [c])) && Distinct(moves + [c])
  {
    forall d | d in moves ensures d.to in Tos(moves) {
    }
    forall d | d in Elements(moves + [c]) ensures d == c || d in Elements(moves) {
    }
  }

  // ---------- Kustomizations around the moves ----------

  function PreparedFor(codec: K.Codec, fs: FS, moves: seq<Move>, k: Path): K.Prepared {
    K.Preparation(codec, Reading(fs, k), Resources(moves, k))
  }

  /** The kustomizations beside the destinations can all be merged into. */
  ghost predicate Preparable(codec: K.Codec, fs: FS, cs: set<Move>) {
    forall c :: c in cs ==> K.Preparation(codec, Reading(fs, KustomizationOf(c)), []) != K.Refused
  }

  /** The updates are what preparing each of those kustomizations gives. */
  ghost predicate Rewrites(codec: K.Codec, fs: FS, moves: seq<Move>, updates: map<Path, string>) {
    var ks := Kustomizations(Elements(moves));
    && updates.Keys <= ks
    && (forall k :: k in ks ==> PreparedFor(codec, fs, moves, k) != K.Refused)
    && (forall k :: k in ks ==> (k in updates <==> PreparedFor(codec, fs, moves, k).Rewrite?))
    && (forall k :: k in updates ==> PreparedFor(codec, fs, moves, k) == K.Rewrite(updates[k]))
  }

  /** A kustomization is refused or not whatever is merged into it. */
  lemma RefusedAnyway(codec: K.Codec, reading: K.Reading, a: seq<string>, b: seq<string>)
    ensures K.Preparation(codec, reading, a) == K.Refused <==> K.Preparation(codec, reading, b) == K.Refused
  {
  }

  lemma PreparableEach(codec: K.Codec, fs: FS, moves: seq<Move>)
    ensures Preparable(codec, fs, Elements(moves))
       <==> forall k :: k in Kustomizations(Elements(moves)) ==> PreparedFor(codec, fs, moves, k) != K.Refused
  {
    forall c | c in Elements(moves)
      ensures var k := KustomizationOf(c);
        k in Kustomizations(Elements(moves))
        && (K.Preparation(codec, Reading(fs, k), []) == K.Refused <==> PreparedFor(codec, fs, moves, k) == K.Refused)
    {
      var k := KustomizationOf(c);
      RefusedAnyway(codec, Reading(fs, k), [], Resources(moves, k));
    }
  }

  /** The kustomization beside a destination is neither moved nor moved onto. */
  lemma {:induction false} KustomizationStays(fs: FS, cs: set<Move>, c: Move)
    requires GoodMoves(fs, cs) && c in cs
    ensures var k := KustomizationOf(c);
      && |k| == 4 && Parent(k) == Parent(c.to) && Last(k) == KUSTOMIZATION && IsCustom(k)
      && k !in Froms(cs) && k !in Targets(cs) && k !in Homes(cs)
      && (k in Moved(fs, cs) <==> k in fs) && (k in fs ==> Moved(fs, cs)[k] == fs[k])
  {
    var k := KustomizationOf(c);
    InCustom(fs, c);
    assert Parent(k) == Parent(c.to) && k[1..][1] == CUSTOM;
    forall d | d in cs ensures d.from != k && d.to != k && Parent(d.to) != k {
      InCustom(fs, d);
    }
    MovedElsewhere(fs, cs, k);
  }

  lemma {:induction false} RoomForOne(codec: K.Codec, fs: FS, moves: seq<Move>, updates: map<Path, string>, c: Move)
    requires Ready(fs, moves) && Rewrites(codec, fs, moves, updates) && c in moves && KustomizationOf(c) in updates
    ensures RoomAt(Moved(fs, Elements(moves)), updates.Keys, KustomizationOf(c))
  {
    var home, out := Parent(c.to), Moved(fs, Elements(moves));
    assert c in Elements(moves);
    KustomizationStays(fs, Elements(moves), c);
    HomesAreThere(fs, Elements(moves), c);
    WritableThere(codec, fs, moves, updates, c);
    forall n | 0 < n <= 3 ensures home[..n] in out && out[home[..n]].Dir? && home[..n] !in updates.Keys {
      ShortIsNoUpdate(codec, fs, moves, updates, home[..n]);
    }
  }

  lemma {:induction false} HomesAreThere(fs: FS, cs: set<Move>, c: Move)
    requires IsTree(fs) && GoodMoves(fs, cs) && c in cs
    ensures var out, home := Moved(fs, cs), Parent(c.to);
      |home| == 3 && forall n :: 0 < n <= 3 ==> home[..n] in out && out[home[..n]].Dir?
  {
    var home := Parent(c.to);
    WayThere(fs, cs, c);
    assert home in Homes(cs) && home in Present(fs, cs);
    forall n | 0 < n <= 3 ensures home[..n] in Moved(fs, cs) && Moved(fs, cs)[home[..n]].Dir? {
      assert n == 1 || n == 2 || n == 3;
    }
  }

  lemma {:induction false} WritableThere(codec: K.Codec, fs: FS, moves: seq<Move>, updates: map<Path, string>, c: Move)
    requires Ready(fs, moves) && Rewrites(codec, fs, moves, updates) && c in moves && KustomizationOf(c) in updates
    ensures Writable(Moved(fs, Elements(moves)), KustomizationOf(c))
  {
    var k, home := KustomizationOf(c), Parent(c.to);
    assert c in Elements(moves);
    KustomizationStays(fs, Elements(moves), c);
    HomesAreThere(fs, Elements(moves), c);
    assert home[..3] == home;
    Readable(codec, fs, moves, k);
    StaysWritable(fs, Moved(fs, Elements(moves)), k);
  }

  lemma Readable(codec: K.Codec, fs: FS, moves: seq<Move>, k: Path)
    requires PreparedFor(codec, fs, moves, k) != K.Refused
    ensures Reading(fs, k) != K.Unreadable
  {
  }

  lemma StaysWritable(fs: FS, out: FS, k: Path)
    requires Reading(fs, k) != K.Unreadable && IsDir(out, Parent(k))
    requires (k in out <==> k in fs) && (k in fs ==> out[k] == fs[k])
    ensures Writable(out, k)
  {
  }

  lemma ShortIsNoUpdate(codec: K.Codec, fs: FS, moves: seq<Move>, updates: map<Path, string>, p: Path)
    requires Ready(fs, moves) && Rewrites(codec, fs, moves, updates) && |p| <= 3
    ensures p !in updates
  {
    forall c | c in Elements(moves) ensures KustomizationOf(c) != p {
      KustomizationStays(fs, Elements(moves), c);
    }
  }

  lemma {:induction false} RoomForUpdates(codec: K.Codec, fs: FS, moves: seq<Move>, updates: map<Path, string>)
    requires Ready(fs, moves) && Rewrites(codec, fs, moves, updates)
    ensures Room(Moved(fs, Elements(moves)), updates)
  {
    forall k | k in updates ensures RoomAt(Moved(fs, Elements(moves)), updates.Keys, k) {
      var c :| c in Elements(moves) && KustomizationOf(c) == k;
      RoomForOne(codec, fs, moves, updates, c);
    }
  }

  // ---------- The run ----------

  /** Sorting by path: the same moves in some order. */
  ghost predicate Arranges(sort: seq<Move> -> seq<Move>) {
    forall s :: Permutes(sort, s)
  }

  ghost predicate Permutes(sort: seq<Move> -> seq<Move>, s: seq<Move>) {
    multiset(sort(s)) == multiset(s)
  }

  lemma {:induction false} SortedPlan(fs: FS, plan: seq<Move>, moves: seq<Move>)
    requires multiset(moves) == multiset(plan) && IsTree(fs) && GoodMoves(fs, Elements(plan)) && Distinct(plan)
    ensures Elements(moves) == Elements(plan) && Ready(fs, moves)
  {
    forall c ensures c in moves <==> c in plan {
      assert c in moves <==> c in multiset(moves);
      assert c in plan <==> c in multiset(plan);
    }
    forall i, j | 0 <= i < j < |moves| ensures moves[i] != moves[j] {
      if moves[i] == moves[j] {
        Twice(moves, i, j);
        OnlyOnce(plan, moves[i]);
      }
    }
  }

  lemma Twice(s: seq<Move>, i: nat, j: nat)
    requires i < j < |s| && s[i] == s[j]
    ensures multiset(s)[s[i]] >= 2
  {
    assert s == s[..j] + s[j..];
    assert s[i] == s[..j][i] && s[j] == s[j..][0];
    assert s[i] in multiset(s[..j]) && s[i] in multiset(s[j..]);
  }

  lemma {:induction false} OnlyOnce(s: seq<Move>, c: Move)
    requires Distinct(s)
    ensures multiset(s)[c] <= 1
    decreases |s|
  {
    if s != [] {
      var n := |s| - 1;
      OnlyOnce(s[..n], c);
      assert s == s[..n] + [s[n]];
      if c == s[n] {
        assert c !in s[..n];
        assert c !in multiset(s[..n]);
      }
    }
  }

  /** runClusterMigrateCustom from the scan on. It fails exactly when an entry cannot be looked at or
      a kustomization cannot be merged into, and then, as in a dry run, nothing has changed. */
  method Migrate(disk: Disk, m: Ledger, codec: K.Codec, walk: seq<Path>, sort: seq<Move> -> seq<Move>, apply: bool)
    returns (ok: bool, report: Report, moves: seq<Move>, updates: map<Path, string>)
    requires IsTree(disk.fs) && Visits(disk.fs, walk) && Arranges(sort)
    modifies disk
    ensures ok <==> AllPass(old(disk.fs), m, walk, |walk|) && Preparable(codec, old(disk.fs), Elements(Plan(old(disk.fs), m, walk)))
    ensures ok ==> report == ReportOf(old(disk.fs), m, walk) && multiset(moves) == multiset(Plan(old(disk.fs), m, walk))
    ensures ok ==> Rewrites(codec, old(disk.fs), moves, updates)
    ensures disk.fs == if ok && apply then Written(Moved(old(disk.fs), Elements(moves)), updates) else old(disk.fs)
  {
    ghost var fs := disk.fs;
    var scan := new Scan(disk.fs, m);
    ok := scan.Walk(walk);
    report, moves, updates := scan.report, [], map[];
    if !ok {
      return;
    }
    moves := sort(scan.candidates);
    PlanIsGood(fs, m, walk);
    assert Permutes(sort, scan.candidates);
    SortedPlan(fs, scan.candidates, moves);
    ok, updates := PrepareMoves(disk, codec, moves);
    if !ok || !apply {
      return;
    }
    RoomForUpdates(codec, fs, moves, updates);
    ok := Carry(disk, moves, updates);
  }

  method PrepareMoves(disk: Disk, codec: K.Codec, moves: seq<Move>) returns (ok: bool, updates: map<Path, string>)
    ensures ok <==> Preparable(codec, disk.fs, Elements(moves))
    ensures ok ==> Rewrites(codec, disk.fs, moves, updates)
  {
    var groups := Group(moves);
    PreparableEach(codec, disk.fs, moves);
    forall k | k in groups ensures PreparationAt(codec, disk.fs, groups, k) == PreparedFor(codec, disk.fs, moves, k) {
    }
    ok, updates := PrepareAll(disk, codec, groups);
  }

  method Carry(disk: Disk, moves: seq<Move>, updates: map<Path, string>) returns (ok: bool)
    requires Ready(disk.fs, moves) && Room(Moved(disk.fs, Elements(moves)), updates)
    modifies disk
    ensures ok && disk.fs == Written(Moved(old(disk.fs), Elements(moves)), updates)
  {
    ok := MoveAll(disk, moves);
    if !ok {
      return false;
    }
    ok := WriteAll(disk, updates);
  }
}