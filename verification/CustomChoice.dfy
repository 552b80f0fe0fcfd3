/** Which files a custom overlay migration moves, and where it reports the others, read off the overlay,
    the generated-files manifest and the order of the walk alone. */
module CustomChoice {
  import opened Text
  import opened CustomMigration
  import opened CustomApply
  import opened CustomRun
  import opened CustomLaws
  import K = Kustomization

  predicate InRoot(p: Path) {
    p != [] && (p[0] == "services" || p[0] == "managed-services" || p[0] == "customer-managed")
  }

  /** A file the migration looks at. */
  predicate Belongs(p: Path) {
    InRoot(p) || p == ["kustomization.yaml"] || p == [".sops.yaml"]
  }

  /** Something on the way to it, or itself, is called custom. */
  predicate BelowCustom(p: Path) {
    InRoot(p) && exists i :: 1 <= i < |p| && p[i] == "custom"
  }

  /** The manifest lists it. */
  predicate Generated(m: Ledger, p: Path) {
    Belongs(p) && !BelowCustom(p) && Join(p, '/') in m.files
  }

  predicate AsGenerated(fs: FS, m: Ledger, p: Path)
    requires p in fs && fs[p].File? && Generated(m, p)
  {
    m.files[Join(p, '/')] == m.hash(fs[p].data)
  }

  /** A file of the user's own. */
  predicate Own(m: Ledger, p: Path) {
    Belongs(p) && !BelowCustom(p) && Join(p, '/') !in m.files
  }

  /** One deep enough to have a place, and no kustomization. */
  predicate HasPlace(m: Ledger, p: Path) {
    Own(m, p) && |p| >= 3 && p[|p| - 1] != "kustomization.yaml"
  }

  function Home(p: Path): Path
    requires |p| >= 3
  {
    [p[0], p[1], "custom"]
  }

  function Place(p: Path): Path
    requires |p| >= 3
  {
    Home(p) + [p[|p| - 1]]
  }

  predicate IsFree(fs: FS, p: Path)
    requires |p| >= 3
  {
    Place(p) !in fs && (Home(p) in fs ==> fs[Home(p)].Dir?)
  }

  /** A file that moves unless another one takes its place. */
  predicate Wishes(fs: FS, m: Ledger, p: Path)
    requires p in fs
  {
    fs[p].File? && HasPlace(m, p) && IsFree(fs, p)
  }

  // ---------- One entry ----------

  lemma {:induction false} RootIs(p: Path)
    ensures p != [] ==> (IsRoot(p[0]) <==> InRoot(p))
    ensures Owned(p) <==> Belongs(p)
    ensures IsCustom(p) <==> BelowCustom(p)
    ensures Belongs(p) ==> p != [MANIFEST]
  {
    if BelowCustom(p) {
      var i :| 1 <= i < |p| && p[i] == "custom";
      assert p[1..][i - 1] == CUSTOM;
    }
    if IsCustom(p) {
      var i :| 0 <= i < |p[1..]| && p[1..][i] == CUSTOM;
      assert p[i + 1] == "custom";
    }
  }

  lemma {:induction false} PlaceIs(p: Path)
    requires |p| >= 3
    ensures Destination(p) == if InRoot(p) then Some(Place(p)) else None
    ensures InRoot(p) ==> NewPath(p) == Place(p)
    ensures Parent(Place(p)) == Home(p) && Last(Place(p)) == Last(p) == p[|p| - 1]
  {
    RootIs(p);
    assert Place(p) == [p[0], p[1], CUSTOM, Last(p)];
  }

  /** What stands in the way of a file: nothing, a file for a directory, something at its place, which a
      link may lead to, or else a link. */
  predicate Unreadable(fs: FS, p: Path)
    requires |p| >= 3
  {
    Home(p) in fs && (fs[Home(p)].File? || (fs[Home(p)].Link? && fs[Home(p)].target.ToFile?))
  }

  predicate Occupied(fs: FS, p: Path)
    requires |p| >= 3
  {
    || (Place(p) in fs && !fs[Place(p)].Link?)
    || (LeadsOn(fs, p) && p[|p| - 1] in fs[Home(p)].target.names && !fs[Home(p)].target.names[p[|p| - 1]])
  }

  predicate LeadsOn(fs: FS, p: Path)
    requires |p| >= 3
  {
    Home(p) in fs && fs[Home(p)].Link? && fs[Home(p)].target.ToDir?
  }

  lemma {:induction false} AtPlace(fs: FS, p: Path)
    requires IsTree(fs) && p in fs && |p| >= 3
    ensures var v := AtDestination(fs, Place(p));
      && (v == Moves <==> IsFree(fs, p))
      && (v == Fails <==> Unreadable(fs, p))
      && (v == DestinationExists <==> Occupied(fs, p))
      && v in {Moves, Fails, DestinationExists, DestinationLink, ParentLink}
  {
    PlaceIs(p);
    Above(fs, p, 1);
    Above(fs, p, 2);
    if Place(p) in fs {
      assert Placed(fs, Place(p));
    }
    if Home(p) in fs && fs[Home(p)].Link? {
      assert Lstat(fs, Home(p)) == Found(true);
    } else {
      ClearWay(fs, Home(p), p);
    }
  }

  /** The decision about one file, by what it is and what others took. */
  lemma {:induction false} DecideIs(fs: FS, m: Ledger, taken: set<Path>, p: Path)
    requires IsTree(fs) && p in fs && fs[p].File?
    ensures var v := Decide(fs, m, taken, p);
      && (v == Ignored <==> !Belongs(p))
      && (v == AlreadyCustom <==> BelowCustom(p))
      && (v in {Tracked, TrackedModified} <==> Generated(m, p))
      && (Generated(m, p) ==> (v == Tracked <==> AsGenerated(fs, m, p)))
      && (v == Unknown <==> Own(m, p) && |p| < 3)
      && (v == Reserved <==> Own(m, p) && |p| >= 3 && !HasPlace(m, p))
      && (HasPlace(m, p) ==> v == if Place(p) in taken then Taken else AtDestination(fs, Place(p)))
  {
    RootIs(p);
    if |p| >= 3 {
      PlaceIs(p);
      AtPlace(fs, p);
    }
  }

  lemma {:induction false} MovableIs(fs: FS, m: Ledger, p: Path)
    requires IsTree(fs) && p in fs
    ensures Movable(fs, m, p) <==> Wishes(fs, m, p)
    ensures Wishes(fs, m, p) ==> NewPath(p) == Place(p)
  {
    if fs[p].File? {
      DecideIs(fs, m, {}, p);
      if |p| >= 3 {
        PlaceIs(p);
        AtPlace(fs, p);
      }
    }
  }

  // ---------- The whole walk ----------

  /** A file visited before wants the same place. */
  ghost predicate Beaten(fs: FS, m: Ledger, walk: seq<Path>, i: nat)
    requires Covers(fs, walk) && i < |walk| && |walk[i]| >= 3
  {
    exists j :: 0 <= j < i && Wishes(fs, m, walk[j]) && Place(walk[j]) == Place(walk[i])
  }

  /** A file moves exactly if it is the user's own, deep enough, no kustomization, its place is free, and
      no such file visited before it wants the same place. */
  lemma {:induction false} MovesIff(fs: FS, m: Ledger, walk: seq<Path>, i: nat)
    requires IsTree(fs) && Covers(fs, walk) && i < |walk|
    ensures DecisionAt(fs, m, walk, i) == Moves <==> Wishes(fs, m, walk[i]) && !Beaten(fs, m, walk, i)
  {
    FirstComeMoves(fs, m, walk, i);
    MovableIs(fs, m, walk[i]);
    if Wishes(fs, m, walk[i]) {
      forall j | 0 <= j < i
        ensures Wants(fs, m, walk[j], NewPath(walk[i])) <==> Wishes(fs, m, walk[j]) && Place(walk[j]) == Place(walk[i])
      {
        MovableIs(fs, m, walk[j]);
      }
    }
  }

  /** The i-th entry visited is the file a move is about, and it moves. */
  ghost predicate MovesAt(fs: FS, m: Ledger, walk: seq<Path>, c: Move, i: nat)
    requires Covers(fs, walk) && i < |walk|
  {
    var p := walk[i];
    Wishes(fs, m, p) && !Beaten(fs, m, walk, i) && c == Move(p, Place(p))
  }

  ghost predicate MovesSomewhere(fs: FS, m: Ledger, walk: seq<Path>, c: Move)
    requires Covers(fs, walk)
  {
    exists i: nat :: i < |walk| && MovesAt(fs, m, walk, c, i)
  }

  /** The plan holds exactly the moves of these files to their places. */
  lemma {:induction false} PlanIff(fs: FS, m: Ledger, walk: seq<Path>, c: Move)
    requires IsTree(fs) && Covers(fs, walk)
    ensures c in Plan(fs, m, walk) <==> MovesSomewhere(fs, m, walk, c)
    decreases |walk|
  {
    if walk != [] {
      var n := |walk| - 1;
      PlanIff(fs, m, walk[..n], c);
      PlanNext(fs, m, walk);
      PlannedIff(fs, m, walk, c, n);
      OneFurther(fs, m, walk, c);
    }
  }

  lemma PlannedIff(fs: FS, m: Ledger, walk: seq<Path>, c: Move, i: nat)
    requires IsTree(fs) && Covers(fs, walk) && i < |walk|
    ensures c in Planned(DecisionAt(fs, m, walk, i), walk[i]) <==> MovesAt(fs, m, walk, c, i)
  {
    MovesIff(fs, m, walk, i);
    MovableIs(fs, m, walk[i]);
  }

  lemma OneFurther(fs: FS, m: Ledger, walk: seq<Path>, c: Move)
    requires Covers(fs, walk) && walk != []
    ensures var n := |walk| - 1;
      MovesSomewhere(fs, m, walk, c) <==> MovesSomewhere(fs, m, walk[..n], c) || MovesAt(fs, m, walk, c, n)
  {
    var n := |walk| - 1;
    forall i: nat | i < n ensures MovesAt(fs, m, walk[..n], c, i) <==> MovesAt(fs, m, walk, c, i) {
      if |walk[i]| >= 3 {
        BeatenBefore(fs, m, walk, i, n);
      }
    }
  }

  lemma BeatenBefore(fs: FS, m: Ledger, walk: seq<Path>, i: nat, n: nat)
    requires Covers(fs, walk) && i < n <= |walk| && |walk[i]| >= 3
    ensures Beaten(fs, m, walk[..n], i) <==> Beaten(fs, m, walk, i)
  {
    assert forall j :: 0 <= j < i ==> walk[..n][j] == walk[j];
  }

  /** The scan fails exactly over a file with a place that cannot be looked at. */
  lemma {:induction false} PassesIff(fs: FS, m: Ledger, walk: seq<Path>)
    requires IsTree(fs) && Covers(fs, walk)
    ensures AllPass(fs, m, walk, |walk|) <==> forall p :: p in walk && fs[p].File? && HasPlace(m, p) ==> !Unreadable(fs, p)
  {
    forall i | 0 <= i < |walk|
      ensures DecisionAt(fs, m, walk, i) == Fails
         <==> fs[walk[i]].File? && HasPlace(m, walk[i]) && Unreadable(fs, walk[i])
    {
      FirstComeMoves(fs, m, walk, i);
      if fs[walk[i]].File? {
        DecideIs(fs, m, {}, walk[i]);
        if |walk[i]| >= 3 {
          AtPlace(fs, walk[i]);
        }
      }
    }
  }

  /** The verdict on a file visited. */
  lemma {:induction false} VerdictIs(fs: FS, m: Ledger, walk: seq<Path>, i: nat)
    requires IsTree(fs) && Covers(fs, walk) && i < |walk| && fs[walk[i]].File? && HasPlace(m, walk[i])
    ensures var p, v := walk[i], DecisionAt(fs, m, walk, i);
      v == if IsFree(fs, p) && Beaten(fs, m, walk, i) then Taken else AtDestination(fs, Place(p))
  {
    var p := walk[i];
    Decision(fs, m, walk, i);
    MovesIff(fs, m, walk, i);
    MovableIs(fs, m, p);
    DecideIs(fs, m, {}, p);
    AtPlace(fs, p);
  }

  /** How often a file is on a list of the report; never more than once. */
  ghost function Times(fs: FS, m: Ledger, walk: seq<Path>, b: Bucket, p: Path): nat
    requires Covers(fs, walk)
  {
    CountOf(Listed(fs, m, walk, b), p)
  }

  /** A kustomization, or a file whose place is occupied or wanted before. */
  ghost predicate Refused(fs: FS, m: Ledger, walk: seq<Path>, i: nat)
    requires Covers(fs, walk) && i < |walk|
  {
    var p := walk[i];
    Own(m, p) && |p| >= 3 && (!HasPlace(m, p) || Occupied(fs, p) || (IsFree(fs, p) && Beaten(fs, m, walk, i)))
  }

  /** Where the i-th entry visited is listed, if it is a file. */
  lemma {:induction false} BucketIff(fs: FS, m: Ledger, walk: seq<Path>, i: nat)
    requires IsTree(fs) && Covers(fs, walk) && i < |walk| && fs[walk[i]].File?
    ensures var p, b := walk[i], BucketOf(DecisionAt(fs, m, walk, i));
      && (b == CustomBucket <==> BelowCustom(p))
      && (b == TrackedBucket <==> Generated(m, p) && AsGenerated(fs, m, p))
      && (b == ModifiedBucket <==> Generated(m, p) && !AsGenerated(fs, m, p))
      && (b == UnknownBucket <==> Own(m, p) && |p| < 3)
      && (b == MoveBucket <==> Wishes(fs, m, p) && !Beaten(fs, m, walk, i))
      && (b == RefusedBucket <==> Refused(fs, m, walk, i))
  {
    var p := walk[i];
    Decision(fs, m, walk, i);
    DecideIs(fs, m, {}, p);
    MovableIs(fs, m, p);
    if HasPlace(m, p) {
      VerdictIs(fs, m, walk, i);
      AtPlace(fs, p);
    }
  }

  /** The report of a scan that passes: every file on the list it belongs on, once. */
  lemma {:induction false} ReportIff(fs: FS, m: Ledger, walk: seq<Path>, i: nat)
    requires IsTree(fs) && Visits(fs, walk) && i < |walk| && fs[walk[i]].File?
    ensures var p := walk[i];
      && (Times(fs, m, walk, CustomBucket, p) == 1 <==> BelowCustom(p))
      && (Times(fs, m, walk, TrackedBucket, p) == 1 <==> Generated(m, p) && AsGenerated(fs, m, p))
      && (Times(fs, m, walk, ModifiedBucket, p) == 1 <==> Generated(m, p) && !AsGenerated(fs, m, p))
      && (Times(fs, m, walk, UnknownBucket, p) == 1 <==> Own(m, p) && |p| < 3)
      && (Times(fs, m, walk, RefusedBucket, p) == 1 <==> Refused(fs, m, walk, i))
  {
    BucketIff(fs, m, walk, i);
    ListedCount(fs, m, walk, CustomBucket, i);
    ListedCount(fs, m, walk, TrackedBucket, i);
    ListedCount(fs, m, walk, ModifiedBucket, i);
    ListedCount(fs, m, walk, UnknownBucket, i);
    ListedCount(fs, m, walk, RefusedBucket, i);
  }

  // ---------- What a run does to files ----------

  /** No file of the manifest is moved. */
  lemma {:induction false} GeneratedIsNotPlanned(fs: FS, m: Ledger, walk: seq<Path>, c: Move)
    requires IsTree(fs) && Covers(fs, walk) && c in Plan(fs, m, walk)
    ensures Join(c.from, '/') !in m.files
  {
    PlanIff(fs, m, walk, c);
  }

  lemma {:induction false} FromsOfRun(codec: K.Codec, fs: FS, m: Ledger, walk: seq<Path>, moves: seq<Move>, updates: map<Path, string>, c: Move)
    requires Ran(codec, fs, m, walk, moves, updates)
    ensures c in Elements(moves) <==> c in Plan(fs, m, walk)
  {
    SameElements(moves, Plan(fs, m, walk));
  }

  /** After a run every generated file is where it was, with the contents it had. */
  lemma {:induction false} GeneratedStays(codec: K.Codec, fs: FS, m: Ledger, walk: seq<Path>, moves: seq<Move>, updates: map<Path, string>, p: Path)
    requires Ran(codec, fs, m, walk, moves, updates) && p in fs && Generated(m, p)
    ensures var out := After(fs, moves, updates); p in out && out[p] == fs[p]
  {
    var cs := Elements(moves);
    if p in Froms(cs) {
      var c :| c in cs && c.from == p;
      FromsOfRun(codec, fs, m, walk, moves, updates, c);
      GeneratedIsNotPlanned(fs, m, walk, c);
    }
    RootIs(p);
    Conserved(codec, fs, moves, updates, p);
  }

  /** A chosen file is at its place after the run, with the contents it had. */
  lemma {:induction false} ChosenMoves(codec: K.Codec, fs: FS, m: Ledger, walk: seq<Path>, moves: seq<Move>, updates: map<Path, string>, i: nat)
    requires Ran(codec, fs, m, walk, moves, updates) && i < |walk| && Wishes(fs, m, walk[i]) && !Beaten(fs, m, walk, i)
    ensures var p, out := walk[i], After(fs, moves, updates);
      Place(p) in out && out[Place(p)] == fs[p]
  {
    var p := walk[i];
    var c := Move(p, Place(p));
    assert MovesAt(fs, m, walk, c, i);
    PlanIff(fs, m, walk, c);
    FromsOfRun(codec, fs, m, walk, moves, updates, c);
    assert c in Elements(moves) && p in Froms(Elements(moves));
    MovableIs(fs, m, p);
    RootIs(p);
    Conserved(codec, fs, moves, updates, p);
  }
}
