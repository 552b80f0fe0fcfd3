/** What runs of the multi-cluster sync guarantee: bounds, the stop flag, what becomes of each cluster,
    and that runs go on and end. */
module SecretsLaws {
  import opened Text
  import opened SecretsSync

  // ---------- Safety ----------

  /** Never more syncs in flight than the concurrency, in any state of any run; and with
      stop-on-error never more failures than that either. */
  lemma {:induction false} Bounded(p: Params, run: seq<State>, i: nat)
    requires Run(p, run) && i < |run|
    ensures |Flying(run[i])| <= p.concurrency
    ensures p.stopOnError ==> |run[i].failures| <= p.concurrency
  {
    RunKeepsInv(p, run, i);
    FlyingHoldsSlot(run[i]);
  }

  lemma {:induction false} StepAfterStop(p: Params, s: State, s': State)
    requires Step(p, s, s') && s.stopFlag
    ensures s'.stopFlag && Flying(s') <= Flying(s)
  {
    if MainStep(p, s, s') {
      if s.main.ToSpawn? {
        WhereUpdate(s.gs, s.main.i, ToAcquire, InFlight);
      }
    } else {
      var g: nat :| g < |s.gs| && WorkerStep(p, s, s', g);
      WorkerMoves(p, s, s', g);
      MoveAfterStop(s, s', g);
    }
  }

  lemma {:induction false} MoveAfterStop(s: State, s': State, g: nat)
    requires g < |s.gs| && Moved(s, s', g) && s.stopFlag
    ensures s'.stopFlag && Flying(s') <= Flying(s)
  {
    WhereUpdate(s.gs, g, s'.gs[g], InFlight);
    if InFlight(s'.gs[g]) {
      assert g in Flying(s);
    }
  }

  lemma {:induction false} AfterStopAt(p: Params, run: seq<State>, i: nat)
    requires Run(p, run) && i + 1 < |run| && run[i].stopFlag
    ensures run[i + 1].stopFlag && Flying(run[i + 1]) <= Flying(run[i])
  {
    RunSteps(p, run, i);
    StepAfterStop(p, run[i], run[i + 1]);
  }

  /** Once the flag is up it stays up, and no further cluster gets past the gate. */
  lemma {:induction false} NothingPassesAfterStop(p: Params, run: seq<State>, i: nat, j: nat)
    requires Run(p, run) && i <= j < |run| && run[i].stopFlag
    ensures run[j].stopFlag && Flying(run[j]) <= Flying(run[i])
    decreases j
  {
    if i < j {
      NothingPassesAfterStop(p, run, i, j - 1);
      AfterStopAt(p, run, j - 1);
    }
  }

  // ---------- Outcomes ----------

  predicate Distinct(names: seq<string>) {
    forall i, j :: 0 <= i < j < |names| ==> names[i] != names[j]
  }

  /** A cluster's name is in no map before its outcome is recorded, in at most one after, and in
      none after only if the flag is up. */
  ghost predicate OutcomeInv(p: Params, s: State) {
    && |s.gs| == |p.clusters|
    && (forall g :: 0 <= g < |s.gs| ==>
          var name := p.clusters[g];
          if Past(s.gs[g]) then !(name in s.results && name in s.failures) && (name in s.results || name in s.failures || s.stopFlag)
          else name !in s.results && name !in s.failures)
    && (forall name :: name in s.results || name in s.failures ==> name in p.clusters)
  }

  lemma {:induction false} StepKeepsOutcome(p: Params, s: State, s': State)
    requires Distinct(p.clusters) && Inv(p, s) && OutcomeInv(p, s) && Step(p, s, s')
    ensures OutcomeInv(p, s')
  {
    if MainStep(p, s, s') {
      MainKeepsOutcome(p, s, s');
    } else {
      var g: nat :| g < |s.gs| && WorkerStep(p, s, s', g);
      if s.gs[g].InStore? {
        RecordKeepsOutcome(p, s, s', g);
      } else {
        WorkerMoves(p, s, s', g);
        MoveKeepsOutcome(p, s, s', g);
      }
    }
  }

  lemma {:induction false} MainKeepsOutcome(p: Params, s: State, s': State)
    requires SpawnInv(p, s) && OutcomeInv(p, s) && MainStep(p, s, s')
    ensures OutcomeInv(p, s')
  {
  }

  lemma {:induction false} MoveKeepsOutcome(p: Params, s: State, s': State, g: nat)
    requires OutcomeInv(p, s) && g < |s.gs| && !s.gs[g].InStore? && Moved(s, s', g)
    ensures OutcomeInv(p, s')
  {
  }

  lemma {:induction false} RecordKeepsOutcome(p: Params, s: State, s': State, g: nat)
    requires Distinct(p.clusters) && OutcomeInv(p, s)
    requires g < |s.gs| && s.gs[g].InStore? && WorkerStep(p, s, s', g)
    ensures OutcomeInv(p, s')
  {
    forall k | 0 <= k < |s.gs| && k != g ensures p.clusters[k] != p.clusters[g] && s'.gs[k] == s.gs[k] {
    }
    assert s'.gs[g] == ToRelease && p.clusters[g] !in s.results && p.clusters[g] !in s.failures;
  }

  ghost predicate Preserved(p: Params, inv: State -> bool, s: State, s': State) {
    inv(s) && Step(p, s, s') ==> inv(s')
  }

  /** What steps preserve holds all along a run. */
  lemma {:induction false} Always(p: Params, run: seq<State>, i: nat, inv: State -> bool)
    requires Run(p, run) && i < |run| && inv(run[0])
    requires forall s, s' :: Preserved(p, inv, s, s')
    ensures inv(run[i])
    decreases i
  {
    if i > 0 {
      Always(p, run, i - 1, inv);
      assert StepAt(p, run, i - 1) && Preserved(p, inv, run[i - 1], run[i]);
    }
  }

  ghost predicate GoodAt(p: Params, s: State) {
    Inv(p, s) && OutcomeInv(p, s)
  }

  ghost function Good(p: Params): State -> bool {
    s => GoodAt(p, s)
  }

  lemma {:induction false} RunKeepsOutcome(p: Params, run: seq<State>, i: nat)
    requires Distinct(p.clusters) && Run(p, run) && i < |run|
    ensures GoodAt(p, run[i])
  {
    var inv := Good(p);
    forall s, s' ensures Preserved(p, inv, s, s') {
      if GoodAt(p, s) && Step(p, s, s') {
        StepKeepsInv(p, s, s');
        StepKeepsOutcome(p, s, s');
      }
    }
    InitInv(p, run[0]);
    InitOutcome(p, run[0]);
    Always(p, run, i, inv);
    assert inv(run[i]) == GoodAt(p, run[i]);
  }

  lemma InitOutcome(p: Params, s: State)
    requires Init(p, s)
    ensures OutcomeInv(p, s)
  {
  }

  /** Every cluster in exactly one of results, failures or skipped; skipped ones only if
      stop-on-error saw a failure. */
  ghost predicate Partitioned(p: Params, s: State) {
    && s.results.Keys !! s.failures.Keys
    && s.results.Keys + s.failures.Keys <= (set name | name in p.clusters)
    && (forall name :: name in p.clusters && name !in s.results && name !in s.failures ==> p.stopOnError && s.failures != map[])
  }

  lemma {:induction false} DistinctNamesArePartitioned(p: Params, run: seq<State>, i: nat)
    requires Distinct(p.clusters) && Run(p, run) && i < |run| && run[i].main.Finished?
    ensures Partitioned(p, run[i])
  {
    var s := run[i];
    RunKeepsInv(p, run, i);
    RunKeepsOutcome(p, run, i);
    forall g | 0 <= g < |s.gs| ensures s.gs[g].NotStarted? || s.gs[g].Gone? {
      assert g !in Living(s);
    }
    forall name | name in p.clusters && name !in s.results && name !in s.failures ensures s.stopFlag {
      var g :| 0 <= g < |p.clusters| && p.clusters[g] == name;
      assert s.gs[g].NotStarted? || s.gs[g].Gone?;
    }
  }

  // ---------- Progress ----------

  ghost predicate CanStep(p: Params, s: State) {
    exists s' :: Step(p, s, s')
  }

  lemma {:induction false} HolderCanStep(p: Params, s: State)
    requires Inv(p, s) && s.mu.Some?
    ensures CanStep(p, s)
  {
    match s.mu.value
    case Main =>
      var i := s.main.i;
      var s' := s.(main := if s.stopFlag then Waiting else ToSpawn(i), mu := None);
      assert MainStep(p, s, s') && Step(p, s, s');
    case Worker(g) =>
      var s' :=
        if s.gs[g].InGate? then s.(mu := None, gs := s.gs[g := if s.stopFlag then ToRelease else Syncing])
        else Record(p, s, p.clusters[g], s.gs[g].reply).(mu := None, gs := s.gs[g := ToRelease]);
      assert WorkerStep(p, s, s', g) && Step(p, s, s');
  }

  lemma {:induction false} WorkerCanStep(p: Params, s: State, g: nat)
    requires Inv(p, s) && s.mu.None? && g < |s.gs| && Alive(s.gs[g])
    requires s.gs[g].ToAcquire? ==> s.sem < p.concurrency
    ensures CanStep(p, s)
  {
    assert !Holds(s, Worker(g));
    assert s.gs[g].ToRelease? ==> g in Slots(s);
    var s' := match s.gs[g]
      case ToAcquire => s.(sem := s.sem + 1, gs := s.gs[g := ToGate])
      case ToGate => s.(mu := Some(Worker(g)), gs := s.gs[g := InGate])
      case Syncing => s.(gs := s.gs[g := ToStore(Synced(""))])
      case ToStore(reply) => s.(mu := Some(Worker(g)), gs := s.gs[g := InStore(reply)])
      case ToRelease => s.(sem := s.sem - 1, gs := s.gs[g := ToDone])
      case ToDone => s.(wg := s.wg - 1, gs := s.gs[g := Gone])
      case _ => s;
    if s.gs[g].Syncing? {
      assert s' == s.(gs := s.gs[g := ToStore(Synced(""))]);
    }
    assert WorkerStep(p, s, s', g) && Step(p, s, s');
  }

  /** No deadlock: with at least one slot, every reachable state that is not past wg.Wait can
      move on. */
  lemma {:induction false} NoDeadlock(p: Params, run: seq<State>, i: nat)
    requires Run(p, run) && i < |run| && p.concurrency >= 1 && !run[i].main.Finished?
    ensures CanStep(p, run[i])
  {
    var s := run[i];
    RunKeepsInv(p, run, i);
    assert s.mu.None? ==> !Holds(s, Main);
    if s.mu.Some? {
      HolderCanStep(p, s);
    } else if s.main.ToLock? {
      assert Step(p, s, s.(main := InLock(s.main.i), mu := Some(Main)));
    } else if s.main.ToSpawn? {
      var k := s.main.i;
      assert Step(p, s, s.(main := if k + 1 < |s.gs| then ToLock(k + 1) else Waiting, wg := s.wg + 1, gs := s.gs[k := ToAcquire]));
    } else if s.wg == 0 {
      assert Step(p, s, s.(main := Finished));
    } else {
      var g :| g in Living(s);
      if s.gs[g].ToAcquire? && s.sem >= p.concurrency {
        var h :| h in Slots(s);
        WorkerCanStep(p, s, h);
      } else {
        WorkerCanStep(p, s, g);
      }
    }
  }

  function LeftOf(gs: seq<Goroutine>): nat {
    if gs == [] then 0 else Left(gs[0]) + LeftOf(gs[1..])
  }

  lemma {:induction false} LeftUpdate(gs: seq<Goroutine>, g: nat, c: Goroutine)
    requires g < |gs|
    ensures LeftOf(gs[g := c]) == LeftOf(gs) + Left(c) - Left(gs[g])
  {
    if g > 0 {
      assert gs[g := c][1..] == gs[1..][g - 1 := c];
      LeftUpdate(gs[1..], g - 1, c);
    } else {
      assert gs[g := c][1..] == gs[1..];
    }
  }

  /** Steps still to come, at most. */
  function Rank(s: State): int {
    LeftOf(s.gs) + match s.main
      case ToLock(i) => 3 * (|s.gs| - i) + 2
      case InLock(i) => 3 * (|s.gs| - i) + 1
      case ToSpawn(i) => 3 * (|s.gs| - i)
      case Waiting => 1
      case Finished => 0
  }

  lemma {:induction false} RankFalls(p: Params, s: State, s': State)
    requires Inv(p, s) && Step(p, s, s')
    ensures 0 <= Rank(s') < Rank(s)
  {
    StepKeepsInv(p, s, s');
    if MainStep(p, s, s') {
      if s.main.ToSpawn? {
        LeftUpdate(s.gs, s.main.i, ToAcquire);
      }
    } else {
      var g: nat :| g < |s.gs| && WorkerStep(p, s, s', g);
      WorkerMoves(p, s, s', g);
      LeftUpdate(s.gs, g, s'.gs[g]);
    }
  }

  lemma {:induction false} RankFallsAt(p: Params, run: seq<State>, i: nat)
    requires Run(p, run) && i + 1 < |run|
    ensures Rank(run[i + 1]) < Rank(run[i])
  {
    RunKeepsInv(p, run, i);
    RunSteps(p, run, i);
    RankFalls(p, run[i], run[i + 1]);
  }

  lemma {:induction false} RankFallsAlong(p: Params, run: seq<State>, i: nat)
    requires Run(p, run) && i < |run|
    ensures Rank(run[i]) <= Rank(run[0]) - i
    decreases i
  {
    if i > 0 {
      RankFallsAlong(p, run, i - 1);
      RankFallsAt(p, run, i - 1);
    }
  }

  lemma {:induction false} LeftAtStart(gs: seq<Goroutine>)
    requires forall g :: 0 <= g < |gs| ==> gs[g] == NotStarted
    ensures LeftOf(gs) == 9 * |gs|
  {
    if gs != [] {
      LeftAtStart(gs[1..]);
    }
  }

  /** Whatever the schedule and the replies, a run ends: it has at most twelve steps a cluster and
      two more, and with at least one slot it cannot end anywhere but past wg.Wait. */
  lemma {:induction false} RunsTerminate(p: Params, run: seq<State>)
    requires Run(p, run)
    ensures |run| <= 12 * |p.clusters| + 3
    ensures p.concurrency >= 1 && !CanStep(p, run[|run| - 1]) ==> run[|run| - 1].main.Finished?
  {
    var last := |run| - 1;
    RankFallsAlong(p, run, last);
    RunKeepsInv(p, run, last);
    LeftAtStart(run[0].gs);
    if p.concurrency >= 1 && !run[last].main.Finished? {
      NoDeadlock(p, run, last);
    }
  }

  // ---------- Without a slot ----------

  lemma {:induction false} NobodyAcquires(p: Params, run: seq<State>, i: nat)
    requires Run(p, run) && i < |run| && p.concurrency == 0
    ensures forall g :: 0 <= g < |run[i].gs| ==> run[i].gs[g].NotStarted? || run[i].gs[g].ToAcquire?
    ensures run[i].failures == map[]
    decreases i
  {
    if i > 0 {
      NobodyAcquires(p, run, i - 1);
      RunSteps(p, run, i - 1);
    }
  }

  /** With a zero-capacity semaphore no run over a non-empty list gets past wg.Wait. */
  lemma {:induction false} ZeroConcurrencyHangs(p: Params, run: seq<State>, i: nat)
    requires Run(p, run) && i < |run| && p.concurrency == 0 && p.clusters != []
    ensures !run[i].main.Finished?
  {
    RunKeepsInv(p, run, i);
    NobodyAcquires(p, run, i);
    if run[i].gs[0].ToAcquire? {
      assert 0 in Living(run[i]);
    }
  }

  // ---------- Names that are not distinct ----------

  ghost predicate Reachable(p: Params, s: State) {
    exists run :: Run(p, run) && run[|run| - 1] == s
  }

  lemma {:induction false} Extend(p: Params, s: State, s': State)
    requires Reachable(p, s) && Step(p, s, s')
    ensures Reachable(p, s')
  {
    var run :| Run(p, run) && run[|run| - 1] == s;
    var longer := run + [s'];
    forall i | 0 <= i < |longer| - 1 ensures StepAt(p, longer, i) {
      if i < |run| - 1 {
        SameStep(p, run, longer, i);
      } else {
        LastStep(p, longer, i, s, s');
      }
    }
    assert longer[0] == run[0] && longer[|longer| - 1] == s';
  }

  lemma LastStep(p: Params, run: seq<State>, i: nat, s: State, s': State)
    requires i == |run| - 2 && run[i] == s && run[i + 1] == s' && Step(p, s, s')
    ensures StepAt(p, run, i)
  {
  }

  lemma SameStep(p: Params, run: seq<State>, longer: seq<State>, i: nat)
    requires i < |run| - 1 && |run| <= |longer| && longer[i] == run[i] && longer[i + 1] == run[i + 1]
    requires StepAt(p, run, i)
    ensures StepAt(p, longer, i)
  {
  }

  lemma {:induction false} ExtendBy(p: Params, s: State, s': State, g: nat)
    requires Reachable(p, s) && |s.gs| == |p.clusters| && g < |s.gs| && WorkerStep(p, s, s', g)
    ensures Reachable(p, s')
  {
    assert Step(p, s, s');
    Extend(p, s, s');
  }

  /** The first k goroutines started, none of them any further. */
  function Started(p: Params, k: nat): State
    requires k <= |p.clusters|
  {
    State(if k < |p.clusters| then ToLock(k) else if k == 0 then Finished else Waiting,
          seq(|p.clusters|, g => if g < k then ToAcquire else NotStarted), None, 0, k, false, map[], map[])
  }

  lemma {:induction false} CanStart(p: Params, k: nat)
    requires k <= |p.clusters|
    ensures Reachable(p, Started(p, k))
  {
    if k == 0 {
      assert Run(p, [Started(p, 0)]);
      assert [Started(p, 0)][0] == Started(p, 0);
    } else {
      CanStart(p, k - 1);
      StartsNext(p, k - 1);
    }
  }

  lemma {:induction false} StartsNext(p: Params, k: nat)
    requires k < |p.clusters| && Reachable(p, Started(p, k))
    ensures Reachable(p, Started(p, k + 1))
  {
    var s0 := Started(p, k);
    var s1 := s0.(main := InLock(k), mu := Some(Main));
    ExtendMain(p, s0, s1);
    var s2 := s1.(main := ToSpawn(k), mu := None);
    ExtendMain(p, s1, s2);
    var s3 := Started(p, k + 1);
    assert s3.gs == s2.gs[k := ToAcquire];
    ExtendMain(p, s2, s3);
  }

  lemma {:induction false} ExtendMain(p: Params, s: State, s': State)
    requires Reachable(p, s) && |s.gs| == |p.clusters| && MainStep(p, s, s')
    ensures Reachable(p, s')
  {
    assert Step(p, s, s');
    Extend(p, s, s');
  }

  /** What one goroutine, undisturbed, makes of a state. */
  function Alone(p: Params, s: State, g: nat, reply: Reply): State
    requires |s.gs| == |p.clusters| && g < |s.gs|
  {
    (if s.stopFlag then s else Record(p, s, p.clusters[g], reply)).(gs := s.gs[g := Gone], wg := s.wg - 1)
  }

  lemma {:induction false} CanPass(p: Params, s: State, g: nat, reply: Reply)
    requires Reachable(p, s) && |s.gs| == |p.clusters| && g < |s.gs|
    requires p.concurrency >= 1 && s.sem == 0 && s.mu.None? && s.gs[g].ToAcquire?
    ensures Reachable(p, Alone(p, s, g, reply))
  {
    var s1 := s.(sem := 1, gs := s.gs[g := ToGate]);
    ExtendBy(p, s, s1, g);
    var s2 := s1.(mu := Some(Worker(g)), gs := s1.gs[g := InGate]);
    ExtendBy(p, s1, s2, g);
    var s3 := s2.(mu := None, gs := s2.gs[g := if s.stopFlag then ToRelease else Syncing]);
    ExtendBy(p, s2, s3, g);
    var s6 := s3;
    if !s.stopFlag {
      s6 := CanRecord(p, s3, g, reply);
    }
    var s7 := s6.(sem := 0, gs := s6.gs[g := ToDone]);
    ExtendBy(p, s6, s7, g);
    var s8 := s7.(wg := s7.wg - 1, gs := s7.gs[g := Gone]);
    ExtendBy(p, s7, s8, g);
    assert s8.gs == s.gs[g := Gone];
    assert s8 == Alone(p, s, g, reply);
  }

  lemma {:induction false} CanRecord(p: Params, s: State, g: nat, reply: Reply) returns (s': State)
    requires Reachable(p, s) && |s.gs| == |p.clusters| && g < |s.gs| && s.mu.None? && s.gs[g].Syncing?
    ensures Reachable(p, s') && s' == Record(p, s, p.clusters[g], reply).(gs := s.gs[g := ToRelease])
  {
    var s1 := s.(gs := s.gs[g := ToStore(reply)]);
    ExtendBy(p, s, s1, g);
    var s2 := s1.(mu := Some(Worker(g)), gs := s1.gs[g := InStore(reply)]);
    ExtendBy(p, s1, s2, g);
    s' := Record(p, s2, p.clusters[g], reply).(mu := None, gs := s2.gs[g := ToRelease]);
    ExtendBy(p, s2, s', g);
    assert s'.gs == s.gs[g := ToRelease];
  }

  /** k goroutines have run one after the other, all successfully but number j. */
  ghost predicate OneAfterOther(p: Params, s: State, i: nat, j: nat, k: nat) {
    && |s.gs| == |p.clusters| && i < j < |s.gs| && k <= |s.gs|
    && s.main == Waiting && s.mu.None? && s.sem == 0 && s.wg == |s.gs| - k
    && (forall g :: 0 <= g < |s.gs| ==> s.gs[g] == if g < k then Gone else ToAcquire)
    && (k <= j ==> !s.stopFlag)
    && (k > i ==> p.clusters[i] in s.results)
    && (k > j ==> p.clusters[j] in s.failures)
  }

  lemma {:induction false} RunInTurn(p: Params, i: nat, j: nat, k: nat) returns (s: State)
    requires p.concurrency >= 1 && i < j < |p.clusters| && k <= |p.clusters|
    ensures Reachable(p, s) && OneAfterOther(p, s, i, j, k)
    decreases k
  {
    if k == 0 {
      s := Started(p, |p.clusters|);
      CanStart(p, |p.clusters|);
    } else {
      s := RunInTurn(p, i, j, k - 1);
      s := TakeTurn(p, s, i, j, k - 1);
    }
  }

  lemma {:induction false} TakeTurn(p: Params, s: State, i: nat, j: nat, k: nat) returns (s': State)
    requires Reachable(p, s) && OneAfterOther(p, s, i, j, k) && k < |s.gs| && p.concurrency >= 1
    ensures Reachable(p, s') && OneAfterOther(p, s', i, j, k + 1)
  {
    var reply := if k == j then Failed("") else Synced("");
    CanPass(p, s, k, reply);
    s' := Alone(p, s, k, reply);
    TurnTaken(p, s, i, j, k, reply);
  }

  lemma {:induction false} TurnTaken(p: Params, s: State, i: nat, j: nat, k: nat, reply: Reply)
    requires OneAfterOther(p, s, i, j, k) && k < |s.gs|
    requires reply.Failed? <==> k == j
    ensures OneAfterOther(p, Alone(p, s, k, reply), i, j, k + 1)
  {
    var s' := Alone(p, s, k, reply);
    assert s'.gs == s.gs[k := Gone] && s'.main == s.main;
    assert s.results.Keys <= s'.results.Keys && s.failures.Keys <= s'.failures.Keys;
    assert !s.stopFlag ==> p.clusters[k] in (if k == j then s'.failures.Keys else s'.results.Keys);
  }

  /** Of two clusters of one name one can succeed and the other fail. */
  lemma {:induction false} SharedNameBreaks(p: Params) returns (end: State)
    requires p.concurrency >= 1 && !Distinct(p.clusters)
    ensures Reachable(p, end) && end.main.Finished? && !Partitioned(p, end)
  {
    var i, j :| 0 <= i < j < |p.clusters| && p.clusters[i] == p.clusters[j];
    var s := RunInTurn(p, i, j, |p.clusters|);
    end := s.(main := Finished);
    Extend(p, s, end);
    assert p.clusters[i] in end.results.Keys && p.clusters[i] in end.failures.Keys;
  }

  /** Names are partitioned in every finished state of every run exactly when they are distinct. */
  lemma {:induction false} PartitionedIffDistinct(p: Params)
    requires p.concurrency >= 1
    ensures Distinct(p.clusters) <==> (forall s :: Reachable(p, s) && s.main.Finished? ==> Partitioned(p, s))
  {
    if Distinct(p.clusters) {
      forall s | Reachable(p, s) && s.main.Finished? ensures Partitioned(p, s) {
        var run :| Run(p, run) && run[|run| - 1] == s;
        DistinctNamesArePartitioned(p, run, |run| - 1);
      }
    } else {
      var end := SharedNameBreaks(p);
    }
  }
}
