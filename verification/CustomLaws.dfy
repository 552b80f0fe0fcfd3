/** What a custom overlay migration guarantees: no collisions, contents conserved, every file
    accounted for, and nothing left to do for a second run. */
module CustomLaws {
  import opened Text
  import opened CustomMigration
  import opened CustomApply
  import opened CustomRun
  import K = Kustomization

  // ---------- No collisions ----------

  /** Planned destinations are pairwise distinct, new, inside a custom directory of the overlay, and
      none is a source or a kustomization that may be rewritten. */
  lemma {:induction false} NoCollisions(fs: FS, m: Ledger, walk: seq<Path>, c: Move, d: Move)
    requires IsTree(fs) && Visits(fs, walk)
    requires c in Plan(fs, m, walk) && d in Plan(fs, m, walk)
    ensures c.to !in fs && IsCustom(c.to) && Last(c.to) == Last(c.from)
    ensures |c.from| > 2 && |c.to| == 4 && c.to[..2] == c.from[..2]
    ensures c.to == d.to <==> c == d
    ensures c.to != d.from && c.to != KustomizationOf(d) && c.to != Parent(d.to)
  {
    PlanIsGood(fs, m, walk);
    var cs := Elements(Plan(fs, m, walk));
    assert c in cs && d in cs;
    InCustom(fs, c);
    InCustom(fs, d);
    KustomizationStays(fs, cs, d);
    assert c.to[..2] == c.from[..2];
    assert c.to in Targets(cs);
  }

  // ---------- Conservation ----------

  /** Where a path's entry is after the run. */
  ghost function Relocated(cs: set<Move>, p: Path): Path {
    if p in Froms(cs) then NewPath(p) else p
  }

  lemma RelocatedMove(fs: FS, cs: set<Move>, p: Path)
    requires GoodMoves(fs, cs) && p in Froms(cs)
    ensures Move(p, NewPath(p)) in cs && NewPath(p) in Targets(cs) && NewPath(p) !in fs
  {
    var c :| c in cs && c.from == p;
    assert Good(fs, c) && c.to == NewPath(p);
    assert c == Move(p, NewPath(p));
  }

  lemma {:induction false} RelocationIsInjective(fs: FS, cs: set<Move>, p: Path, q: Path)
    requires GoodMoves(fs, cs) && p in fs && q in fs && Relocated(cs, p) == Relocated(cs, q)
    ensures p == q
  {
    if p in Froms(cs) {
      RelocatedMove(fs, cs, p);
    }
    if q in Froms(cs) {
      RelocatedMove(fs, cs, q);
    }
  }

  ghost function After(fs: FS, moves: seq<Move>, updates: map<Path, string>): FS {
    Written(Moved(fs, Elements(moves)), updates)
  }

  /** Every entry is still there under its new path, with the same contents unless it is a
      kustomization that was rewritten where it stood. */
  lemma {:induction false} Conserved(codec: K.Codec, fs: FS, moves: seq<Move>, updates: map<Path, string>, p: Path)
    requires Ready(fs, moves) && Rewrites(codec, fs, moves, updates) && p in fs
    ensures var q, out := Relocated(Elements(moves), p), After(fs, moves, updates);
      && q in out
      && (q !in updates ==> out[q] == fs[p])
      && (q in updates ==> q == p && IsCustom(p) && Last(p) == KUSTOMIZATION)
  {
    var cs := Elements(moves);
    var q := Relocated(cs, p);
    if q in updates {
      UpdateIsKustomization(codec, fs, moves, updates, q);
    }
    if p in Froms(cs) {
      RelocatedMove(fs, cs, p);
      MovedTo(fs, cs, Move(p, q));
    } else {
      FreeOfTargets(fs, cs, p);
      MovedElsewhere(fs, cs, p);
    }
  }

  lemma FreeOfTargets(fs: FS, cs: set<Move>, p: Path)
    requires GoodMoves(fs, cs) && p in fs
    ensures p !in Targets(cs)
  {
  }

  lemma UpdateIsKustomization(codec: K.Codec, fs: FS, moves: seq<Move>, updates: map<Path, string>, k: Path)
    requires Ready(fs, moves) && Rewrites(codec, fs, moves, updates) && k in updates
    ensures IsCustom(k) && |k| == 4 && Last(k) == KUSTOMIZATION
    ensures k !in Froms(Elements(moves)) && k !in Targets(Elements(moves))
    ensures k in Moved(fs, Elements(moves)) <==> k in fs
  {
    var cs := Elements(moves);
    var c :| c in cs && KustomizationOf(c) == k;
    KustomizationStays(fs, cs, c);
  }

  /** And nothing else is there but the new directories and new kustomizations. */
  lemma {:induction false} NothingElse(codec: K.Codec, fs: FS, moves: seq<Move>, updates: map<Path, string>, q: Path)
    requires Ready(fs, moves) && Rewrites(codec, fs, moves, updates) && q in After(fs, moves, updates)
    ensures var cs, out := Elements(moves), After(fs, moves, updates);
      || (q in updates && q !in fs)
      || (q in Homes(cs) && q !in fs && out[q] == Dir)
      || exists p :: p in fs && Relocated(cs, p) == q
  {
    var cs := Elements(moves);
    if q in Targets(cs) {
      var c :| c in cs && c.to == q;
      assert c.from in fs && Relocated(cs, c.from) == q;
    } else if q in fs && q !in Froms(cs) {
      assert Relocated(cs, q) == q;
    } else if q !in updates {
      assert q in Present(fs, cs);
      assert q in Homes(cs);
      if q in Froms(cs) {
        MovedFrom(fs, cs, q);
        assert false;
      }
    } else {
      UpdateIsKustomization(codec, fs, moves, updates, q);
    }
  }

  // ---------- A second run ----------

  /** Something stands at a destination, or the way to it is a link. */
  predicate Blocked(fs: FS, to: Path) {
    var home := Parent(to);
    to in fs || (home in fs && fs[home].Link? && !fs[home].target.ToFile?)
  }

  lemma {:induction false} BlockedStays(fs: FS, to: Path)
    requires Blocked(fs, to) && Parent(to) != []
    ensures AtDestination(fs, to) != Moves && AtDestination(fs, to) != Fails
  {
    if to !in fs {
      assert Lstat(fs, Parent(to)) == Found(true);
    }
  }

  /** A destination that neither takes the file nor fails the scan is blocked. */
  lemma {:induction false} BlockedOtherwise(fs: FS, p: Path)
    requires IsTree(fs) && p in fs && Destination(p).Some?
    requires AtDestination(fs, NewPath(p)) != Moves && AtDestination(fs, NewPath(p)) != Fails
    ensures Blocked(fs, NewPath(p))
  {
    var to := NewPath(p);
    var home := Parent(to);
    assert home == [p[0], p[1], CUSTOM] && to != [];
    if to !in fs && !(home in fs && fs[home].Link?) {
      Above(fs, p, 1);
      Above(fs, p, 2);
      ClearWay(fs, home, p);
    }
  }

  lemma ClearWay(fs: FS, home: Path, p: Path)
    requires |p| > 2 && home == [p[0], p[1], CUSTOM]
    requires p[..1] in fs && fs[p[..1]].Dir? && p[..2] in fs && fs[p[..2]].Dir?
    requires !(home in fs && fs[home].Link?)
    ensures ParentsClear(fs, home)
  {
    assert Parent(home) == p[..2] && Parent(p[..2]) == p[..1] && Parent(p[..1]) == [];
    assert ParentsClear(fs, p[..1]);
    assert ParentsClear(fs, p[..2]);
  }

  /** What the scan found in the way is in the way afterwards, and so is what it moved. */
  lemma {:induction false} BlockedAfter(codec: K.Codec, fs: FS, moves: seq<Move>, updates: map<Path, string>, p: Path)
    requires Ready(fs, moves) && Rewrites(codec, fs, moves, updates) && Destination(p).Some?
    requires Blocked(fs, NewPath(p)) || NewPath(p) in Tos(moves)
    ensures Blocked(After(fs, moves, updates), NewPath(p))
  {
    var to, cs := NewPath(p), Elements(moves);
    var home := Parent(to);
    CustomPlace(p);
    if c :| c in moves && c.to == to {
      assert c in cs && to in Targets(cs) && to in Present(fs, cs);
    } else if to in fs {
      CustomStays(codec, fs, moves, updates, to);
    } else {
      CustomStays(codec, fs, moves, updates, home);
      if home in updates {
        UpdateIsKustomization(codec, fs, moves, updates, home);
      }
    }
  }

  lemma CustomPlace(p: Path)
    requires Destination(p).Some?
    ensures var to := NewPath(p); |to| == 4 && IsCustom(to) && IsCustom(Parent(to)) && |Parent(to)| == 3
  {
    var to := NewPath(p);
    assert to[1..][1] == CUSTOM && Parent(to)[1..][1] == CUSTOM;
  }

  /** What is in a custom directory never moves. */
  lemma {:induction false} CustomStays(codec: K.Codec, fs: FS, moves: seq<Move>, updates: map<Path, string>, q: Path)
    requires Ready(fs, moves) && Rewrites(codec, fs, moves, updates) && q in fs && IsCustom(q)
    ensures Relocated(Elements(moves), q) == q
    ensures q in After(fs, moves, updates) && (q !in updates ==> After(fs, moves, updates)[q] == fs[q])
  {
    forall c | c in Elements(moves) ensures c.from != q {
      assert Good(fs, c);
    }
    Conserved(codec, fs, moves, updates, q);
  }

  /** A run of the migration that went through. */
  ghost predicate Ran(codec: K.Codec, fs: FS, m: Ledger, walk: seq<Path>, moves: seq<Move>, updates: map<Path, string>) {
    && Visits(fs, walk) && AllPass(fs, m, walk, |walk|)
    && multiset(moves) == multiset(Plan(fs, m, walk)) && Ready(fs, moves) && Rewrites(codec, fs, moves, updates)
  }

  /** A file the first scan left alone is left alone by the next. */
  lemma {:induction false} LeftAlone(codec: K.Codec, fs: FS, m: Ledger, walk: seq<Path>, moves: seq<Move>, updates: map<Path, string>, p: Path)
    requires Ran(codec, fs, m, walk, moves, updates)
    requires p in fs && p !in Froms(Elements(moves)) && p !in updates
    ensures var out := After(fs, moves, updates);
      p in out && Decide(out, m, {}, p) != Moves && Decide(out, m, {}, p) != Fails
  {
    Conserved(codec, fs, moves, updates, p);
    var out := After(fs, moves, updates);
    SameUntilDestination(fs, out, m, p);
    if AtPlace(Decide(fs, m, {}, p)) {
      InTheWay(fs, m, walk, p);
      SameElements(moves, Plan(fs, m, walk));
      BlockedAfter(codec, fs, moves, updates, p);
      CustomPlace(p);
      BlockedStays(out, NewPath(p));
    }
  }

  /** The verdicts given by looking at the destination. */
  predicate AtPlace(v: Verdict) {
    v in {Moves, Fails, DestinationLink, DestinationExists, ParentLink}
  }

  lemma SameUntilDestination(fs: FS, out: FS, m: Ledger, p: Path)
    requires p in fs && p in out && fs[p] == out[p]
    ensures var d := Decide(fs, m, {}, p);
      if AtPlace(d) then Destination(p).Some? && d == AtDestination(fs, NewPath(p)) && Decide(out, m, {}, p) == AtDestination(out, NewPath(p))
      else Decide(out, m, {}, p) == d
  {
  }

  lemma {:induction false} InTheWay(fs: FS, m: Ledger, walk: seq<Path>, p: Path)
    requires Visits(fs, walk) && AllPass(fs, m, walk, |walk|) && IsTree(fs)
    requires p in fs && AtPlace(Decide(fs, m, {}, p))
    ensures Destination(p).Some? && (Blocked(fs, NewPath(p)) || NewPath(p) in Tos(Plan(fs, m, walk)))
  {
    SameUntilDestination(fs, fs, m, p);
    if Movable(fs, m, p) {
      assert Wants(fs, m, p, NewPath(p));
      PlanTargets(fs, m, walk, NewPath(p));
    } else {
      var i :| 0 <= i < |walk| && walk[i] == p;
      FirstComeMoves(fs, m, walk, i);
      BlockedOtherwise(fs, p);
    }
  }

  lemma SameElements(a: seq<Move>, b: seq<Move>)
    requires multiset(a) == multiset(b)
    ensures Elements(a) == Elements(b) && Tos(a) == Tos(b)
  {
    forall c ensures c in a <==> c in b {
      assert c in a <==> c in multiset(a);
      assert c in b <==> c in multiset(b);
    }
  }

  /** What a first run left or wrote does not move in a second. */
  lemma {:induction false} NothingMoves(codec: K.Codec, fs: FS, m: Ledger, walk: seq<Path>, moves: seq<Move>, updates: map<Path, string>, q: Path)
    requires Ran(codec, fs, m, walk, moves, updates)
    requires q in After(fs, moves, updates)
    ensures var d := Decide(After(fs, moves, updates), m, {}, q); d != Moves && d != Fails
  {
    var cs, out := Elements(moves), After(fs, moves, updates);
    if q in updates {
      UpdateIsKustomization(codec, fs, moves, updates, q);
      Immobile(out, m, q);
    } else if q in fs && q !in Froms(cs) {
      LeftAlone(codec, fs, m, walk, moves, updates, q);
    } else {
      NothingElse(codec, fs, moves, updates, q);
      NewIsImmobile(fs, cs, q);
      Immobile(out, m, q);
    }
  }

  lemma Immobile(fs: FS, m: Ledger, q: Path)
    requires q in fs && (IsCustom(q) || fs[q].Dir?)
    ensures var d := Decide(fs, m, {}, q); d != Moves && d != Fails
  {
  }

  lemma NewIsImmobile(fs: FS, cs: set<Move>, q: Path)
    requires GoodMoves(fs, cs) && (q in Targets(cs) || q in Homes(cs))
    ensures IsCustom(q)
  {
    var c :| c in cs && (c.to == q || Parent(c.to) == q);
    InCustom(fs, c);
  }

  /** A second run, whatever the order of its walk, plans nothing and does not fail. */
  lemma {:induction false} SecondRunIsIdle(codec: K.Codec, fs: FS, m: Ledger, walk: seq<Path>, moves: seq<Move>, updates: map<Path, string>,
                                           again: seq<Path>)
    requires Ran(codec, fs, m, walk, moves, updates)
    requires Covers(After(fs, moves, updates), again)
    ensures Plan(After(fs, moves, updates), m, again) == [] && AllPass(After(fs, moves, updates), m, again, |again|)
  {
    var out := After(fs, moves, updates);
    forall q | q in out ensures !Movable(out, m, q) && Decide(out, m, {}, q) != Fails {
      NothingMoves(codec, fs, m, walk, moves, updates, q);
    }
    NothingPlanned(out, m, again);
  }

  lemma {:induction false} NothingPlanned(fs: FS, m: Ledger, walk: seq<Path>)
    requires Covers(fs, walk)
    requires forall q :: q in fs ==> !Movable(fs, m, q) && Decide(fs, m, {}, q) != Fails
    ensures Plan(fs, m, walk) == [] && AllPass(fs, m, walk, |walk|)
  {
    forall i | 0 <= i < |walk| ensures DecisionAt(fs, m, walk, i) != Fails {
      FirstComeMoves(fs, m, walk, i);
    }
    if Plan(fs, m, walk) != [] {
      var c := Plan(fs, m, walk)[0];
      assert c.to in Tos(Plan(fs, m, walk));
      PlanTargets(fs, m, walk, c.to);
      WantedSomewhere(fs, m, walk, c.to);
    }
  }

  lemma WantedSomewhere(fs: FS, m: Ledger, walk: seq<Path>, t: Path)
    requires Covers(fs, walk) && Wanted(fs, m, walk, t)
    ensures exists q :: q in fs && Movable(fs, m, q)
  {
    var q :| q in walk && q in fs && Wants(fs, m, q, t);
  }

  /** The disk stays a tree. */
  lemma {:induction false} StaysATree(codec: K.Codec, fs: FS, moves: seq<Move>, updates: map<Path, string>)
    requires Ready(fs, moves) && Rewrites(codec, fs, moves, updates)
    ensures IsTree(After(fs, moves, updates))
  {
    var out := After(fs, moves, updates);
    forall q | q in out ensures Placed(out, q) {
      StaysPlaced(codec, fs, moves, updates, q);
    }
  }

  lemma {:induction false} StaysPlaced(codec: K.Codec, fs: FS, moves: seq<Move>, updates: map<Path, string>, q: Path)
    requires Ready(fs, moves) && Rewrites(codec, fs, moves, updates) && q in After(fs, moves, updates)
    ensures Placed(After(fs, moves, updates), q)
  {
    var cs := Elements(moves);
    if q in fs && q !in Froms(cs) {
      KeptPlaced(codec, fs, moves, updates, q);
    } else {
      NothingElse(codec, fs, moves, updates, q);
      NewComes(cs, updates, codec, fs, moves, q);
      var c :| c in cs && (q == c.to || q == KustomizationOf(c) || q == Parent(c.to));
      NewPlaced(codec, fs, moves, updates, q, c);
    }
  }

  lemma FixedNames()
    ensures K.IsName(CUSTOM) && K.IsName(KUSTOMIZATION)
  {
  }

  lemma NewComes(cs: set<Move>, updates: map<Path, string>, codec: K.Codec, fs: FS, moves: seq<Move>, q: Path)
    requires cs == Elements(moves) && Ready(fs, moves) && Rewrites(codec, fs, moves, updates)
    requires q in Targets(cs) || q in Homes(cs) || q in updates
    ensures exists c :: c in cs && (q == c.to || q == KustomizationOf(c) || q == Parent(c.to))
  {
    if q in updates {
      assert q in Kustomizations(cs);
    }
  }

  lemma {:induction false} KeptPlaced(codec: K.Codec, fs: FS, moves: seq<Move>, updates: map<Path, string>, q: Path)
    requires Ready(fs, moves) && Rewrites(codec, fs, moves, updates) && q in fs && q !in Froms(Elements(moves))
    ensures Placed(After(fs, moves, updates), q)
  {
    assert Placed(fs, q);
    if |q| > 1 {
      DirStays(fs, Elements(moves), Parent(q));
      DirRemains(codec, fs, moves, updates, Parent(q));
    }
  }

  lemma {:induction false} NewPlaced(codec: K.Codec, fs: FS, moves: seq<Move>, updates: map<Path, string>, q: Path, c: Move)
    requires Ready(fs, moves) && Rewrites(codec, fs, moves, updates) && c in Elements(moves)
    requires q == c.to || q == KustomizationOf(c) || q == Parent(c.to)
    ensures Placed(After(fs, moves, updates), q)
  {
    assert Placed(fs, c.from);
    FixedNames();
    InCustom(fs, c);
    HomeRemains(codec, fs, moves, updates, c, 3);
    HomeRemains(codec, fs, moves, updates, c, 2);
    assert Parent(KustomizationOf(c)) == Parent(c.to);
  }

  lemma DirRemains(codec: K.Codec, fs: FS, moves: seq<Move>, updates: map<Path, string>, d: Path)
    requires Ready(fs, moves) && Rewrites(codec, fs, moves, updates) && d in Moved(fs, Elements(moves)) && Moved(fs, Elements(moves))[d].Dir?
    ensures d in After(fs, moves, updates) && After(fs, moves, updates)[d].Dir?
  {
  }

  lemma {:induction false} HomeRemains(codec: K.Codec, fs: FS, moves: seq<Move>, updates: map<Path, string>, c: Move, n: nat)
    requires Ready(fs, moves) && Rewrites(codec, fs, moves, updates) && c in Elements(moves) && 0 < n <= 3
    ensures var home, out := Parent(c.to), After(fs, moves, updates);
      |home| == 3 && home[..3] == home && home[..n] in out && out[home[..n]].Dir?
  {
    HomesAreThere(fs, Elements(moves), c);
    ShortIsNoUpdate(codec, fs, moves, updates, Parent(c.to)[..n]);
  }

  // ---------- The kustomizations ----------

  lemma {:induction false} ResourcesAreNames(fs: FS, moves: seq<Move>, k: Path)
    requires Ready(fs, moves)
    ensures K.Names(Resources(moves, k))
    decreases |moves|
  {
    if moves != [] {
      var n := |moves| - 1;
      ReadyShorter(fs, moves);
      ResourcesAreNames(fs, moves[..n], k);
      var c := moves[n];
      assert c in Elements(moves) && Placed(fs, c.from);
      InCustom(fs, c);
    }
  }

  lemma ReadyShorter(fs: FS, moves: seq<Move>)
    requires Ready(fs, moves) && moves != []
    ensures Ready(fs, moves[..|moves| - 1])
  {
    ReadyStep(fs, moves, |moves| - 1);
  }

  /** After the run each kustomization lists all the files moved beside it: preparing it again
      would change nothing. */
  lemma {:induction false} KustomizationsSettle(codec: K.Codec, fs: FS, moves: seq<Move>, updates: map<Path, string>, k: Path)
    requires K.RoundTrips(codec)
    requires Ready(fs, moves) && Rewrites(codec, fs, moves, updates) && k in Kustomizations(Elements(moves))
    ensures K.Preparation(codec, Reading(After(fs, moves, updates), k), Resources(moves, k)) == K.Unchanged
  {
    var c :| c in Elements(moves) && KustomizationOf(c) == k;
    KustomizationStays(fs, Elements(moves), c);
    if PreparedFor(codec, fs, moves, k).Rewrite? {
      RewrittenSettles(codec, fs, moves, updates, k);
    } else {
      UntouchedSettles(codec, fs, moves, updates, k);
    }
  }

  lemma {:induction false} RewrittenSettles(codec: K.Codec, fs: FS, moves: seq<Move>, updates: map<Path, string>, k: Path)
    requires K.RoundTrips(codec) && Ready(fs, moves) && Rewrites(codec, fs, moves, updates) && k in updates
    ensures K.Preparation(codec, Reading(After(fs, moves, updates), k), Resources(moves, k)) == K.Unchanged
  {
    ResourcesAreNames(fs, moves, k);
    K.PreparedIsSettled(codec, Reading(fs, k), Resources(moves, k));
    ReadBack(Moved(fs, Elements(moves)), updates, k);
  }

  lemma ReadBack(fs: FS, updates: map<Path, string>, k: Path)
    requires k in updates
    ensures Reading(Written(fs, updates), k) == K.Contents(updates[k])
  {
  }

  lemma {:induction false} UntouchedSettles(codec: K.Codec, fs: FS, moves: seq<Move>, updates: map<Path, string>, k: Path)
    requires Ready(fs, moves) && Rewrites(codec, fs, moves, updates) && IsCustom(k) && k !in updates
    requires PreparedFor(codec, fs, moves, k) == K.Unchanged
    ensures K.Preparation(codec, Reading(After(fs, moves, updates), k), Resources(moves, k)) == K.Unchanged
  {
    NothingToRead(codec, fs, k, Resources(moves, k));
    CustomStays(codec, fs, moves, updates, k);
    SameReading(fs, After(fs, moves, updates), k);
  }

  lemma SameReading(fs: FS, out: FS, k: Path)
    requires k in fs && k in out && fs[k] == out[k]
    ensures Reading(out, k) == Reading(fs, k)
  {
  }

  lemma NothingToRead(codec: K.Codec, fs: FS, k: Path, resources: seq<string>)
    requires K.Preparation(codec, Reading(fs, k), resources) == K.Unchanged
    ensures k in fs
  {
  }

  // ---------- Every file is accounted for ----------

  function CountOf(list: seq<Finding>, p: Path): nat {
    if list == [] then 0
    else CountOf(list[..|list| - 1], p) + if list[|list| - 1].path == p then 1 else 0
  }

  function Entered(list: seq<Finding>, p: Path, d: Verdict, b: Bucket): seq<Finding> {
    list + if BucketOf(d) == b then [Finding(p, d)] else []
  }

  lemma CountNext(list: seq<Finding>, p: Path, d: Verdict, b: Bucket, q: Path)
    ensures CountOf(Entered(list, p, d, b), q) == CountOf(list, q) + if BucketOf(d) == b && p == q then 1 else 0
  {
    if BucketOf(d) == b {
      assert (list + [Finding(p, d)])[..|list|] == list;
    } else {
      assert list + [] == list;
    }
  }

  lemma ListedNext(fs: FS, m: Ledger, walk: seq<Path>, b: Bucket)
    requires Covers(fs, walk) && walk != []
    ensures var n := |walk| - 1;
      Listed(fs, m, walk, b) == Entered(Listed(fs, m, walk[..n], b), walk[n], DecisionAt(fs, m, walk, n), b)
  {
  }

  lemma DecisionBefore(fs: FS, m: Ledger, walk: seq<Path>, i: nat, n: nat)
    requires Covers(fs, walk) && i < n <= |walk|
    ensures DecisionAt(fs, m, walk[..n], i) == DecisionAt(fs, m, walk, i)
  {
    assert walk[..n][..i] == walk[..i];
  }

  /** How often an entry is listed in a bucket. */
  lemma {:induction false} ListedCount(fs: FS, m: Ledger, walk: seq<Path>, b: Bucket, i: nat)
    requires Covers(fs, walk) && i < |walk| && forall j, k :: 0 <= j < k < |walk| ==> walk[j] != walk[k]
    ensures CountOf(Listed(fs, m, walk, b), walk[i]) == if BucketOf(DecisionAt(fs, m, walk, i)) == b then 1 else 0
    decreases |walk|
  {
    var n := |walk| - 1;
    ListedNext(fs, m, walk, b);
    CountNext(Listed(fs, m, walk[..n], b), walk[n], DecisionAt(fs, m, walk, n), b, walk[i]);
    if i < n {
      ListedCount(fs, m, walk[..n], b, i);
      DecisionBefore(fs, m, walk, i, n);
    } else {
      NeverListed(fs, m, walk[..n], b, walk[i]);
    }
  }

  lemma {:induction false} NeverListed(fs: FS, m: Ledger, walk: seq<Path>, b: Bucket, p: Path)
    requires Covers(fs, walk) && p !in walk
    ensures CountOf(Listed(fs, m, walk, b), p) == 0
    decreases |walk|
  {
    if walk != [] {
      var n := |walk| - 1;
      ListedNext(fs, m, walk, b);
      CountNext(Listed(fs, m, walk[..n], b), walk[n], DecisionAt(fs, m, walk, n), b, p);
      NeverListed(fs, m, walk[..n], b, p);
    }
  }

  /** An owned regular file other than the manifest is listed once, in one bucket or as a move; other
      regular files are not listed at all. */
  lemma {:induction false} ExactlyOneBucket(fs: FS, m: Ledger, walk: seq<Path>, p: Path) returns (home: Bucket)
    requires Visits(fs, walk) && AllPass(fs, m, walk, |walk|) && p in fs && fs[p].File?
    ensures home != NoBucket <==> Owned(p) && p != [MANIFEST]
    ensures forall b: Bucket :: b != NoBucket ==> CountOf(Listed(fs, m, walk, b), p) == if b == home then 1 else 0
  {
    var i :| 0 <= i < |walk| && walk[i] == p;
    home := BucketOf(DecisionAt(fs, m, walk, i));
    OwnedIsListed(fs, m, Tos(Plan(fs, m, walk[..i])), p);
    forall b: Bucket ensures CountOf(Listed(fs, m, walk, b), p) == if b == home then 1 else 0 {
      ListedCount(fs, m, walk, b, i);
    }
  }

  lemma OwnedIsListed(fs: FS, m: Ledger, taken: set<Path>, p: Path)
    requires p in fs && fs[p].File? && Decide(fs, m, taken, p) != Fails
    ensures BucketOf(Decide(fs, m, taken, p)) != NoBucket <==> Owned(p) && p != [MANIFEST]
  {
  }

  /** The move bucket is the plan. */
  lemma {:induction false} PlanIsListed(fs: FS, m: Ledger, walk: seq<Path>)
    requires Covers(fs, walk)
    ensures var listed, plan := Listed(fs, m, walk, MoveBucket), Plan(fs, m, walk);
      |plan| == |listed| && forall i :: 0 <= i < |plan| ==> plan[i] == Move(listed[i].path, NewPath(listed[i].path))
    decreases |walk|
  {
    if walk != [] {
      var n := |walk| - 1;
      PlanIsListed(fs, m, walk[..n]);
      ListedNext(fs, m, walk, MoveBucket);
      PlanNext(fs, m, walk);
    }
  }

  lemma PlanNext(fs: FS, m: Ledger, walk: seq<Path>)
    requires Covers(fs, walk) && walk != []
    ensures var n := |walk| - 1;
      Plan(fs, m, walk) == Plan(fs, m, walk[..n]) + Planned(DecisionAt(fs, m, walk, n), walk[n])
  {
  }

  // ---------- Twice ----------

  /** Migrating, then migrating again: the second run goes through, moves nothing and leaves the disk
      as it is. */
  method MigrateTwice(disk: Disk, m: Ledger, codec: K.Codec, walk: seq<Path>, sort: seq<Move> -> seq<Move>)
    returns (ok: bool, again: seq<Move>, between: FS)
    requires IsTree(disk.fs) && Visits(disk.fs, walk) && Arranges(sort)
    modifies disk
    ensures ok ==> again == [] && disk.fs == between
    ensures ok <==> AllPass(old(disk.fs), m, walk, |walk|) && Preparable(codec, old(disk.fs), Elements(Plan(old(disk.fs), m, walk)))
  {
    ghost var fs := disk.fs;
    var report, moves, updates;
    ok, report, moves, updates := Migrate(disk, m, codec, walk, sort, true);
    between, again := disk.fs, [];
    if !ok {
      return;
    }
    PlanIsGood(fs, m, walk);
    SortedPlan(fs, Plan(fs, m, walk), moves);
    again := MigrateAgain(disk, m, codec, sort, fs, walk, moves, updates);
  }

  method MigrateAgain(disk: Disk, m: Ledger, codec: K.Codec, sort: seq<Move> -> seq<Move>,
                      ghost fs: FS, ghost walk: seq<Path>, ghost moves: seq<Move>, ghost updates: map<Path, string>)
    returns (again: seq<Move>)
    requires Ran(codec, fs, m, walk, moves, updates) && disk.fs == After(fs, moves, updates) && Arranges(sort)
    modifies disk
    ensures again == [] && disk.fs == old(disk.fs)
  {
    StaysATree(codec, fs, moves, updates);
    var second := WalkOver(disk.fs);
    SecondRunIsIdle(codec, fs, m, walk, moves, updates, second);
    var ok, report, nothing;
    ok, report, again, nothing := Migrate(disk, m, codec, second, sort, true);
    NoMoveNoChange(codec, old(disk.fs), again, nothing);
  }

  lemma NoMoveNoChange(codec: K.Codec, fs: FS, moves: seq<Move>, updates: map<Path, string>)
    requires multiset(moves) == multiset([]) && Rewrites(codec, fs, moves, updates)
    ensures moves == [] && After(fs, moves, updates) == fs
  {
    assert |moves| == |multiset(moves)| == 0;
    assert Elements(moves) == {};
    NoMoves(fs);
  }

  /** Some walk over a disk. */
  method WalkOver(fs: FS) returns (walk: seq<Path>)
    ensures Visits(fs, walk)
  {
    walk := [];
    var todo := fs.Keys;
    while todo != {}
      invariant todo <= fs.Keys
      invariant forall p :: p in walk <==> p in fs.Keys - todo
      invariant forall i :: 0 <= i < |walk| ==> walk[i] in fs && walk[i] !in todo
      invariant forall i, j :: 0 <= i < j < |walk| ==> walk[i] != walk[j]
    {
      var p :| p in todo;
      walk := walk + [p];
      todo := todo - {p};
    }
  }
}
