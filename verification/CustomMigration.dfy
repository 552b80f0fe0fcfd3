/** Scanning a cluster overlay for hand-written files to move under custom directories
    (runClusterMigrateCustom of cmd/cluster_migrate_layout.go). */
module CustomMigration {
  import opened Text
  import Kustomization

  type Path = seq<string>

  /** What a symbolic link leads to; for a directory, its entries and whether each is a link. */
  datatype LinkTarget = Nowhere | ToFile(data: string) | ToDir(names: map<string, bool>)

  datatype Entry = File(data: string) | Dir | Link(target: LinkTarget)

  /** The entries below the overlay directory, by their path from it. */
  type FS = map<Path, Entry>

  function Parent(p: Path): Path {
    if p == [] then [] else p[..|p| - 1]
  }

  function Last(p: Path): string {
    if p == [] then "" else p[|p| - 1]
  }

  ghost predicate Placed(fs: FS, p: Path) {
    && p != [] && Kustomization.IsName(Last(p))
    && (|p| > 1 ==> Parent(p) in fs && fs[Parent(p)].Dir?)
  }

  /** Every entry has a name and stands in a directory. */
  ghost predicate IsTree(fs: FS) {
    forall p {:trigger Placed(fs, p)} :: p in fs ==> Placed(fs, p)
  }

  // ---------- Paths ----------

  const CUSTOM := "custom"
  const KUSTOMIZATION := "kustomization.yaml"
  const MANIFEST := ".opencenter-generated.json"
  const SOPS := ".sops.yaml"

  predicate IsRoot(s: string) {
    s == "services" || s == "managed-services" || s == "customer-managed"
  }

  /** isMigrationOwnedPath. */
  predicate Owned(p: Path) {
    p != [] && (p == [KUSTOMIZATION] || p == [SOPS] || IsRoot(p[0]))
  }

  /** isMigrationCustomPath. */
  predicate IsCustom(p: Path) {
    |p| >= 2 && IsRoot(p[0]) && CUSTOM in p[1..]
  }

  /** customMigrationDestination. */
  function Destination(p: Path): Option<Path> {
    if |p| < 3 || !IsRoot(p[0]) then None else Some([p[0], p[1], CUSTOM, Last(p)])
  }

  // ---------- Looking at the disk ----------

  datatype Sight = Absent | Found(link: bool) | Broken

  /** os.Lstat for a path whose grandparents are directories. */
  function Lstat(fs: FS, p: Path): Sight {
    if p in fs then Found(fs[p].Link?)
    else if Parent(p) !in fs then Absent
    else match fs[Parent(p)]
      case Dir => Absent
      case File(_) => Broken
      case Link(Nowhere) => Absent
      case Link(ToFile(_)) => Broken
      case Link(ToDir(names)) => if Last(p) in names then Found(names[Last(p)]) else Absent
  }

  /** No directory down to this one is a link or cannot be looked at. */
  predicate ParentsClear(fs: FS, dir: Path)
    decreases |dir|
  {
    dir == [] || (Lstat(fs, dir) in {Absent, Found(false)} && ParentsClear(fs, Parent(dir)))
  }

  /** validateMigrationParents: from the directory up to the overlay. */
  method ValidateParents(fs: FS, dir: Path) returns (ok: bool)
    ensures ok <==> ParentsClear(fs, dir)
  {
    var current := dir;
    while current != []
      invariant ParentsClear(fs, dir) <==> ParentsClear(fs, current)
      decreases |current|
    {
      var sight := Lstat(fs, current);
      if sight == Found(true) || sight == Broken {
        return false;
      }
      current := Parent(current);
    }
    return true;
  }

  // ---------- What happens to one entry ----------

  datatype Verdict = Ignored | Symlinked | AlreadyCustom | Tracked | TrackedModified | Unknown | Reserved | Taken
                   | DestinationLink | DestinationExists | ParentLink | Moves | Fails

  /** The generated-files manifest, and the hash its values were made with. */
  datatype Ledger = Ledger(files: map<string, string>, hash: string -> string)

  function Slashed(p: Path): string {
    Join(p, '/')
  }

  /** What becomes of an entry when some destinations are taken. */
  function Decide(fs: FS, m: Ledger, taken: set<Path>, p: Path): Verdict
    requires p in fs
  {
    match fs[p]
    case Link(_) => Symlinked
    case Dir => Ignored
    case File(data) =>
      if p == [MANIFEST] || !Owned(p) then Ignored
      else if IsCustom(p) then AlreadyCustom
      else if Slashed(p) in m.files then
        if m.hash(data) == m.files[Slashed(p)] then Tracked else TrackedModified
      else DecideOwn(fs, taken, p)
  }

  /** A file nobody else accounts for. */
  function DecideOwn(fs: FS, taken: set<Path>, p: Path): Verdict {
    if Destination(p).None? then Unknown
    else if Last(p) == KUSTOMIZATION then Reserved
    else if Destination(p).value in taken then Taken
    else AtDestination(fs, Destination(p).value)
  }

  function AtDestination(fs: FS, to: Path): Verdict {
    match Lstat(fs, to)
    case Broken => Fails
    case Found(link) => if link then DestinationLink else DestinationExists
    case Absent => if ParentsClear(fs, Parent(to)) then Moves else ParentLink
  }

  // ---------- The walk ----------

  datatype Move = Move(from: Path, to: Path)

  function NewPath(p: Path): Path {
    match Destination(p) case Some(to) => to case None => []
  }

  function Tos(moves: seq<Move>): set<Path> {
    set c | c in moves :: c.to
  }

  ghost predicate Covers(fs: FS, walk: seq<Path>) {
    forall i :: 0 <= i < |walk| ==> walk[i] in fs
  }

  /** The moves planned, in the order of the walk. */
  ghost function Plan(fs: FS, m: Ledger, walk: seq<Path>): seq<Move>
    requires Covers(fs, walk)
    decreases |walk|, 0
  {
    if walk == [] then []
    else
      var n := |walk| - 1;
      Plan(fs, m, walk[..n]) + Planned(DecisionAt(fs, m, walk, n), walk[n])
  }

  /** What becomes of the i-th entry visited. */
  ghost function DecisionAt(fs: FS, m: Ledger, walk: seq<Path>, i: nat): Verdict
    requires Covers(fs, walk) && i < |walk|
    decreases i, 1
  {
    Decide(fs, m, Tos(Plan(fs, m, walk[..i])), walk[i])
  }

  /** The lists of the report, and the list of moves. */
  datatype Bucket = NoBucket | CustomBucket | TrackedBucket | ModifiedBucket | RefusedBucket | UnknownBucket | SymlinkBucket | MoveBucket

  function BucketOf(v: Verdict): Bucket {
    match v
    case Ignored => NoBucket
    case Fails => NoBucket
    case AlreadyCustom => CustomBucket
    case Tracked => TrackedBucket
    case TrackedModified => ModifiedBucket
    case Unknown => UnknownBucket
    case Moves => MoveBucket
    case Symlinked => SymlinkBucket
    case DestinationLink => SymlinkBucket
    case ParentLink => SymlinkBucket
    case Reserved => RefusedBucket
    case Taken => RefusedBucket
    case DestinationExists => RefusedBucket
  }

  datatype Finding = Finding(path: Path, why: Verdict)

  /** The entries that belong in a bucket, in the order of the walk. */
  ghost function Listed(fs: FS, m: Ledger, walk: seq<Path>, b: Bucket): seq<Finding>
    requires Covers(fs, walk)
  {
    if walk == [] then []
    else
      var n := |walk| - 1;
      var d := DecisionAt(fs, m, walk, n);
      Listed(fs, m, walk[..n], b) + if BucketOf(d) == b then [Finding(walk[n], d)] else []
  }

  datatype Report = Report(alreadyCustom: seq<Finding>, tracked: seq<Finding>, trackedModified: seq<Finding>,
                           refused: seq<Finding>, unknown: seq<Finding>, symlinks: seq<Finding>)

  const NO_FINDINGS := Report([], [], [], [], [], [])

  function Noted(r: Report, p: Path, d: Verdict): Report {
    match BucketOf(d)
    case CustomBucket => r.(alreadyCustom := r.alreadyCustom + [Finding(p, d)])
    case TrackedBucket => r.(tracked := r.tracked + [Finding(p, d)])
    case ModifiedBucket => r.(trackedModified := r.trackedModified + [Finding(p, d)])
    case RefusedBucket => r.(refused := r.refused + [Finding(p, d)])
    case UnknownBucket => r.(unknown := r.unknown + [Finding(p, d)])
    case SymlinkBucket => r.(symlinks := r.symlinks + [Finding(p, d)])
    case _ => r
  }

  ghost function ReportOf(fs: FS, m: Ledger, walk: seq<Path>): Report
    requires Covers(fs, walk)
  {
    Report(Listed(fs, m, walk, CustomBucket), Listed(fs, m, walk, TrackedBucket), Listed(fs, m, walk, ModifiedBucket),
           Listed(fs, m, walk, RefusedBucket), Listed(fs, m, walk, UnknownBucket), Listed(fs, m, walk, SymlinkBucket))
  }

  /** The variables the walk's callback writes to. */
  class Scan {
    const fs: FS
    const ledger: Ledger
    var report: Report
    var candidates: seq<Move>
    var destinations: set<Path>

    constructor (fs: FS, ledger: Ledger)
      ensures this.fs == fs && this.ledger == ledger
      ensures report == NO_FINDINGS && candidates == [] && destinations == {}
    {
      this.fs, this.ledger := fs, ledger;
      report, candidates, destinations := NO_FINDINGS, [], {};
    }

    /** The callback: one entry. */
    method Visit(p: Path) returns (ok: bool)
      requires p in fs
      modifies `report, `candidates, `destinations
      ensures var d := Decide(fs, ledger, old(destinations), p);
        && (ok <==> d != Fails)
        && report == Noted(old(report), p, d)
        && candidates == old(candidates) + Planned(d, p)
        && destinations == old(destinations) + Tos(Planned(d, p))
    {
      if fs[p].Link? {
        report := report.(symlinks := report.symlinks + [Finding(p, Symlinked)]);
        return true;
      }
      if fs[p].Dir? || p == [MANIFEST] || !Owned(p) {
        return true;
      }
      if IsCustom(p) {
        report := report.(alreadyCustom := report.alreadyCustom + [Finding(p, AlreadyCustom)]);
        return true;
      }
      if Slashed(p) in ledger.files {
        if ledger.hash(fs[p].data) == ledger.files[Slashed(p)] {
          report := report.(tracked := report.tracked + [Finding(p, Tracked)]);
        } else {
          report := report.(trackedModified := report.trackedModified + [Finding(p, TrackedModified)]);
        }
        return true;
      }
      ok := Place(p);
    }

    /** The rest of the callback: a file of the user's own. */
    method Place(p: Path) returns (ok: bool)
      modifies `report, `candidates, `destinations
      ensures var d := DecideOwn(fs, old(destinations), p);
        && (ok <==> d != Fails)
        && report == Noted(old(report), p, d)
        && candidates == old(candidates) + Planned(d, p)
        && destinations == old(destinations) + Tos(Planned(d, p))
    {
      var destination := Destination(p);
      if destination.None? {
        report := report.(unknown := report.unknown + [Finding(p, Unknown)]);
        return true;
      }
      var to := destination.value;
      if Last(p) == KUSTOMIZATION {
        report := report.(refused := report.refused + [Finding(p, Reserved)]);
        return true;
      }
      if to in destinations {
        report := report.(refused := report.refused + [Finding(p, Taken)]);
        return true;
      }
      match Lstat(fs, to) {
        case Found(link) =>
          if link {
            report := report.(symlinks := report.symlinks + [Finding(p, DestinationLink)]);
          } else {
            report := report.(refused := report.refused + [Finding(p, DestinationExists)]);
          }
          return true;
        case Broken =>
          return false;
        case Absent =>
      }
      var clear := ValidateParents(fs, Parent(to));
      if !clear {
        report := report.(symlinks := report.symlinks + [Finding(p, ParentLink)]);
        return true;
      }
      destinations := destinations + {to};
      candidates := candidates + [Move(p, to)];
      return true;
    }

    /** The lists hold what belongs in them for the entries visited. */
    ghost predicate Records(walk: seq<Path>)
      reads this
    {
      && Covers(fs, walk)
      && report == ReportOf(fs, ledger, walk)
      && candidates == Plan(fs, ledger, walk) && destinations == Tos(candidates)
    }

    /** The walk, stopped by the first entry that cannot be looked at. */
    method Walk(walk: seq<Path>) returns (ok: bool)
      requires Covers(fs, walk) && report == NO_FINDINGS && candidates == [] && destinations == {}
      modifies this
      ensures ok ==> Records(walk)
      ensures ok <==> AllPass(fs, ledger, walk, |walk|)
    {
      for i := 0 to |walk|
        invariant Covers(fs, walk[..i]) && Records(walk[..i])
        invariant AllPass(fs, ledger, walk, i)
      {
        Advance(fs, ledger, walk, i);
        ok := Visit(walk[i]);
        if !ok {
          return false;
        }
      }
      assert walk[..|walk|] == walk;
      return true;
    }
  }

  ghost predicate AllPass(fs: FS, m: Ledger, walk: seq<Path>, n: nat)
    requires Covers(fs, walk) && n <= |walk|
  {
    forall i :: 0 <= i < n ==> DecisionAt(fs, m, walk, i) != Fails
  }

  function Planned(d: Verdict, p: Path): seq<Move> {
    if d == Moves then [Move(p, NewPath(p))] else []
  }

  lemma TosNext(moves: seq<Move>, more: seq<Move>)
    ensures Tos(moves + more) == Tos(moves) + Tos(more)
  {
  }

  lemma {:induction false} Advance(fs: FS, m: Ledger, walk: seq<Path>, i: nat)
    requires Covers(fs, walk) && i < |walk|
    ensures Covers(fs, walk[..i]) && Covers(fs, walk[..i + 1])
    ensures var d := DecisionAt(fs, m, walk, i);
      && Plan(fs, m, walk[..i + 1]) == Plan(fs, m, walk[..i]) + Planned(d, walk[i])
      && Tos(Plan(fs, m, walk[..i + 1])) == Tos(Plan(fs, m, walk[..i])) + Tos(Planned(d, walk[i]))
      && ReportOf(fs, m, walk[..i + 1]) == Noted(ReportOf(fs, m, walk[..i]), walk[i], d)
  {
    var upTo := walk[..i + 1];
    assert upTo[..i] == walk[..i] && upTo[i] == walk[i];
    var d := DecisionAt(fs, m, walk, i);
    assert DecisionAt(fs, m, upTo, i) == d;
    TosNext(Plan(fs, m, walk[..i]), Planned(d, walk[i]));
    forall b ensures Listed(fs, m, upTo, b) == Listed(fs, m, walk[..i], b) + if BucketOf(d) == b then [Finding(walk[i], d)] else [] {
    }
  }
}
