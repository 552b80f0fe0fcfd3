/** runMultiClusterSync of cmd/secrets_sync.go: one spawner and a goroutine per cluster, under a
    counting semaphore, a mutex and a stop flag, as an interleaving of atomic steps. A critical
    section is two steps: taking the mutex, and doing its work while giving the mutex back. */
module SecretsSync {
  import opened Text

  datatype Params = Params(clusters: seq<string>, concurrency: nat, stopOnError: bool)

  /** The loop over clusters: about to lock for cluster i, holding the lock, about to start the
      goroutine; then waiting, then past wg.Wait. */
  datatype Spawner = ToLock(i: nat) | InLock(i: nat) | ToSpawn(i: nat) | Waiting | Finished

  /** What SyncSecrets returned. */
  datatype Reply = Synced(result: string) | Failed(error: string)

  datatype Goroutine =
    | NotStarted
    | ToAcquire               // sem <- struct{}{}
    | ToGate                  // holds a slot, wants the mutex for the second check
    | InGate                  // holds the mutex
    | Syncing                 // past the gate, in SyncSecrets
    | ToStore(reply: Reply)   // wants the mutex to record the reply
    | InStore(reply: Reply)   // holds the mutex
    | ToRelease               // deferred <-sem
    | ToDone                  // deferred wg.Done
    | Gone

  datatype Holder = Main | Worker(g: nat)

  datatype State = State(
    main: Spawner,
    gs: seq<Goroutine>,
    mu: Option<Holder>,
    sem: nat,
    wg: int,
    stopFlag: bool,
    results: map<string, string>,
    failures: map<string, string>)

  ghost predicate Init(p: Params, s: State) {
    && |s.gs| == |p.clusters|
    && (forall g :: 0 <= g < |s.gs| ==> s.gs[g] == NotStarted)
    && s.main == (if p.clusters == [] then Finished else ToLock(0))
    && s.mu == None && s.sem == 0 && s.wg == 0 && !s.stopFlag && s.results == map[] && s.failures == map[]
  }

  // ---------- Steps ----------

  ghost predicate MainStep(p: Params, s: State, s': State) {
    match s.main
    case ToLock(i) => s.mu == None && s' == s.(main := InLock(i), mu := Some(Main))
    case InLock(i) => s' == s.(main := if s.stopFlag then Waiting else ToSpawn(i), mu := None)
    case ToSpawn(i) =>
      && i < |s.gs|
      && s' == s.(main := if i + 1 < |s.gs| then ToLock(i + 1) else Waiting, wg := s.wg + 1, gs := s.gs[i := ToAcquire])
    case Waiting => s.wg == 0 && s' == s.(main := Finished)
    case Finished => false
  }

  function Record(p: Params, s: State, name: string, reply: Reply): State {
    match reply
    case Synced(r) => s.(results := s.results[name := r])
    case Failed(e) => s.(failures := s.failures[name := e], stopFlag := s.stopFlag || p.stopOnError)
  }

  ghost predicate WorkerStep(p: Params, s: State, s': State, g: nat)
    requires |s.gs| == |p.clusters| && g < |s.gs|
  {
    match s.gs[g]
    case NotStarted => false
    case ToAcquire => s.sem < p.concurrency && s' == s.(sem := s.sem + 1, gs := s.gs[g := ToGate])
    case ToGate => s.mu == None && s' == s.(mu := Some(Worker(g)), gs := s.gs[g := InGate])
    case InGate => s' == s.(mu := None, gs := s.gs[g := if s.stopFlag then ToRelease else Syncing])
    case Syncing => exists reply :: s' == s.(gs := s.gs[g := ToStore(reply)])
    case ToStore(reply) => s.mu == None && s' == s.(mu := Some(Worker(g)), gs := s.gs[g := InStore(reply)])
    case InStore(reply) => s' == Record(p, s, p.clusters[g], reply).(mu := None, gs := s.gs[g := ToRelease])
    case ToRelease => s.sem > 0 && s' == s.(sem := s.sem - 1, gs := s.gs[g := ToDone])
    case ToDone => s' == s.(wg := s.wg - 1, gs := s.gs[g := Gone])
    case Gone => false
  }

  ghost predicate Step(p: Params, s: State, s': State) {
    && |s.gs| == |p.clusters|
    && (MainStep(p, s, s') || exists g: nat :: g < |s.gs| && WorkerStep(p, s, s', g))
  }

  /** A run: states one step apart, from an initial one. */
  ghost predicate Run(p: Params, run: seq<State>) {
    && run != [] && Init(p, run[0])
    && forall i :: 0 <= i < |run| - 1 ==> StepAt(p, run, i)
  }

  ghost predicate StepAt(p: Params, run: seq<State>, i: nat)
    requires i < |run| - 1
  {
    Step(p, run[i], run[i + 1])
  }

  // ---------- What holds in every state ----------

  predicate HoldsSlot(c: Goroutine) {
    c.ToGate? || c.InGate? || c.Syncing? || c.ToStore? || c.InStore? || c.ToRelease?
  }

  /** Past the gate, outcome not yet recorded. */
  predicate InFlight(c: Goroutine) {
    c.Syncing? || c.ToStore? || c.InStore?
  }

  predicate Alive(c: Goroutine) {
    !c.NotStarted? && !c.Gone?
  }

  predicate Past(c: Goroutine) {
    c.ToRelease? || c.ToDone? || c.Gone?
  }

  ghost function Where(gs: seq<Goroutine>, f: Goroutine -> bool): set<nat> {
    set g | 0 <= g < |gs| && f(gs[g])
  }

  ghost function Slots(s: State): set<nat> {
    Where(s.gs, HoldsSlot)
  }

  ghost function Flying(s: State): set<nat> {
    Where(s.gs, InFlight)
  }

  ghost function Living(s: State): set<nat> {
    Where(s.gs, Alive)
  }

  predicate Holds(s: State, h: Holder) {
    match h
    case Main => s.main.InLock?
    case Worker(g) => g < |s.gs| && (s.gs[g].InGate? || s.gs[g].InStore?)
  }

  /** Clusters whose goroutine the spawner has started. */
  function Spawned(s: State): nat {
    match s.main
    case ToLock(i) => i
    case InLock(i) => i
    case ToSpawn(i) => i
    case _ => |s.gs|
  }

  /** Where the spawner is, and which goroutines it has started. */
  ghost predicate SpawnInv(p: Params, s: State) {
    && |s.gs| == |p.clusters|
    && (s.main.ToLock? || s.main.InLock? || s.main.ToSpawn? ==>
          s.main.i < |s.gs| && forall g :: 0 <= g < s.main.i ==> !s.gs[g].NotStarted?)
    && (forall g :: Spawned(s) <= g < |s.gs| ==> s.gs[g].NotStarted?)
    && (s.main.Waiting? || s.main.Finished? ==> forall g :: 0 <= g < |s.gs| && s.gs[g].NotStarted? ==> s.stopFlag)
    && (s.main.Finished? ==> s.wg == 0)
  }

  /** The mutex is held exactly by whoever is in a critical section. */
  ghost predicate MutexInv(s: State) {
    && (forall h :: Holds(s, h) ==> s.mu == Some(h))
    && (s.mu.Some? ==> Holds(s, s.mu.value))
  }

  /** Semaphore and wait group count what they are meant to count. */
  ghost predicate CountInv(p: Params, s: State) {
    s.sem == |Slots(s)| <= p.concurrency && s.wg == |Living(s)|
  }

  /** The flag is up exactly when stop-on-error has seen a failure; failures and clusters that
      may still fail together fit the semaphore. */
  ghost predicate FlagInv(p: Params, s: State) {
    && (s.stopFlag <==> p.stopOnError && s.failures != map[])
    && (p.stopOnError ==> |s.failures| + |Flying(s)| <= p.concurrency)
  }

  ghost predicate Inv(p: Params, s: State) {
    SpawnInv(p, s) && MutexInv(s) && CountInv(p, s) && FlagInv(p, s)
  }

  lemma {:induction false} WhereUpdate(gs: seq<Goroutine>, g: nat, c: Goroutine, f: Goroutine -> bool)
    requires g < |gs|
    ensures Where(gs[g := c], f) == if f(c) then Where(gs, f) + {g} else Where(gs, f) - {g}
    ensures |Where(gs[g := c], f)| == |Where(gs, f)| + (if f(c) then 1 else 0) - (if f(gs[g]) then 1 else 0)
  {
    var all := Where(gs, f);
    assert Where(gs[g := c], f) == if f(c) then all + {g} else all - {g};
    if f(gs[g]) && !f(c) {
      assert |all| == |all - {g}| + 1;
    } else if f(gs[g]) {
      assert all + {g} == all;
    } else {
      assert all - {g} == all;
    }
  }

  lemma {:induction false} FlyingHoldsSlot(s: State)
    ensures Flying(s) <= Slots(s) && |Flying(s)| <= |Slots(s)|
  {
    SubsetSize(Flying(s), Slots(s));
  }

  lemma {:induction false} SubsetSize(a: set<nat>, b: set<nat>)
    requires a <= b
    ensures |a| <= |b|
  {
    assert b == a + (b - a);
  }

  lemma {:induction false} InitInv(p: Params, s: State)
    requires Init(p, s)
    ensures Inv(p, s)
  {
    assert Slots(s) == {} && Living(s) == {} && Flying(s) == {};
  }

  lemma {:induction false} MainKeepsInv(p: Params, s: State, s': State)
    requires Inv(p, s) && MainStep(p, s, s')
    ensures Inv(p, s')
  {
    MainKeepsSpawn(p, s, s');
    MainKeepsMutex(p, s, s');
    MainKeepsCounts(p, s, s');
    MainKeepsFlag(p, s, s');
  }

  lemma {:induction false} MainKeepsSpawn(p: Params, s: State, s': State)
    requires SpawnInv(p, s) && MainStep(p, s, s')
    ensures SpawnInv(p, s')
  {
  }

  lemma {:induction false} MainKeepsCounts(p: Params, s: State, s': State)
    requires SpawnInv(p, s) && CountInv(p, s) && MainStep(p, s, s')
    ensures CountInv(p, s')
  {
    if s.main.ToSpawn? {
      WhereUpdate(s.gs, s.main.i, ToAcquire, HoldsSlot);
      WhereUpdate(s.gs, s.main.i, ToAcquire, Alive);
    }
  }

  lemma {:induction false} MainKeepsFlag(p: Params, s: State, s': State)
    requires SpawnInv(p, s) && FlagInv(p, s) && MainStep(p, s, s')
    ensures FlagInv(p, s')
  {
    if s.main.ToSpawn? {
      WhereUpdate(s.gs, s.main.i, ToAcquire, InFlight);
    }
  }

  lemma {:induction false} MainKeepsMutex(p: Params, s: State, s': State)
    requires Inv(p, s) && MainStep(p, s, s')
    ensures MutexInv(s')
  {
    assert Holds(s, Main) ==> s.mu == Some(Main);
    forall h | Holds(s', h) ensures s'.mu == Some(h) {
      assert h.Worker? ==> Holds(s, h);
    }
  }

  function Bit(b: bool): int {
    if b then 1 else 0
  }

  /** Steps a goroutine has left, counted by where it stands. */
  function Left(c: Goroutine): nat {
    match c
    case NotStarted => 9
    case ToAcquire => 8
    case ToGate => 7
    case InGate => 6
    case Syncing => 5
    case ToStore(_) => 4
    case InStore(_) => 3
    case ToRelease => 2
    case ToDone => 1
    case Gone => 0
  }

  /** What every step of a goroutine has in common. */
  ghost predicate Moved(s: State, s': State, g: nat)
    requires g < |s.gs|
  {
    |s'.gs| == |s.gs| && MovedOn(s, s', g) && KeptRest(s, s', g)
  }

  /** It moves on, and takes its slot and its place in the wait group with it. */
  ghost predicate MovedOn(s: State, s': State, g: nat)
    requires g < |s.gs| == |s'.gs|
  {
    var old_, new_ := s.gs[g], s'.gs[g];
    && s'.main == s.main && s'.gs == s.gs[g := new_]
    && !old_.NotStarted? && !new_.NotStarted? && Left(new_) < Left(old_)
    && s'.sem == s.sem + Bit(HoldsSlot(new_)) - Bit(HoldsSlot(old_))
    && s'.wg == s.wg + Bit(Alive(new_)) - Bit(Alive(old_))
  }

  /** It never clears the flag or passes the gate against it, and only storing changes the outcome. */
  ghost predicate KeptRest(s: State, s': State, g: nat)
    requires g < |s.gs| == |s'.gs|
  {
    var old_, new_ := s.gs[g], s'.gs[g];
    && (s.stopFlag ==> s'.stopFlag && (InFlight(new_) ==> InFlight(old_)))
    && (!old_.InStore? ==>
          && s'.results == s.results && s'.failures == s.failures && s'.stopFlag == s.stopFlag
          && (Past(new_) ==> Past(old_) || s.stopFlag))
  }

  lemma {:induction false} WorkerMoves(p: Params, s: State, s': State, g: nat)
    requires |s.gs| == |p.clusters| && g < |s.gs| && WorkerStep(p, s, s', g)
    ensures Moved(s, s', g)
    ensures s.sem <= p.concurrency ==> s'.sem <= p.concurrency
  {
    WorkerMovesOn(p, s, s', g);
    WorkerKeepsRest(p, s, s', g);
    SlotTaken(p, s, s', g);
  }

  lemma {:induction false} WorkerMovesOn(p: Params, s: State, s': State, g: nat)
    requires |s.gs| == |p.clusters| && g < |s.gs| && WorkerStep(p, s, s', g)
    ensures |s'.gs| == |s.gs| && MovedOn(s, s', g)
  {
  }

  lemma {:induction false} SlotTaken(p: Params, s: State, s': State, g: nat)
    requires |s.gs| == |p.clusters| && g < |s.gs| && WorkerStep(p, s, s', g)
    ensures s.sem <= p.concurrency ==> s'.sem <= p.concurrency
  {
  }

  lemma {:induction false} WorkerKeepsRest(p: Params, s: State, s': State, g: nat)
    requires |s.gs| == |p.clusters| == |s'.gs| && g < |s.gs| && WorkerStep(p, s, s', g)
    ensures KeptRest(s, s', g)
  {
  }

  lemma {:induction false} WorkerKeepsInv(p: Params, s: State, s': State, g: nat)
    requires Inv(p, s) && g < |s.gs| && WorkerStep(p, s, s', g)
    ensures Inv(p, s')
  {
    WorkerMoves(p, s, s', g);
    WorkerKeepsSpawn(p, s, s', g);
    WorkerKeepsMutex(p, s, s', g);
    WorkerKeepsCounts(p, s, s', g);
    WorkerKeepsFlag(p, s, s', g);
  }

  lemma {:induction false} WorkerKeepsSpawn(p: Params, s: State, s': State, g: nat)
    requires SpawnInv(p, s) && s.wg == |Living(s)|
    requires g < |s.gs| && Moved(s, s', g)
    ensures SpawnInv(p, s')
  {
    assert g in Living(s);
  }

  lemma {:induction false} WorkerKeepsMutex(p: Params, s: State, s': State, g: nat)
    requires Inv(p, s) && g < |s.gs| && WorkerStep(p, s, s', g)
    ensures MutexInv(s')
  {
    WorkerMovesOn(p, s, s', g);
    forall h | Holds(s', h) ensures s'.mu == Some(h) {
      if h != Worker(g) {
        OthersHold(s, s', g, h);
      }
      StillHolds(p, s, s', g, h);
    }
  }

  lemma OthersHold(s: State, s': State, g: nat, h: Holder)
    requires g < |s.gs| == |s'.gs| && MovedOn(s, s', g) && h != Worker(g) && Holds(s', h)
    ensures Holds(s, h)
  {
  }

  lemma StillHolds(p: Params, s: State, s': State, g: nat, h: Holder)
    requires |s.gs| == |p.clusters| == |s'.gs| && g < |s.gs| && WorkerStep(p, s, s', g) && Holds(s', h)
    requires Holds(s, Worker(g)) ==> s.mu == Some(Worker(g))
    requires h != Worker(g) ==> s.mu == Some(h)
    ensures s'.mu == Some(h)
  {
  }

  lemma {:induction false} WorkerKeepsCounts(p: Params, s: State, s': State, g: nat)
    requires CountInv(p, s) && g < |s.gs| && Moved(s, s', g) && s'.sem <= p.concurrency
    ensures CountInv(p, s')
  {
    WhereUpdate(s.gs, g, s'.gs[g], HoldsSlot);
    WhereUpdate(s.gs, g, s'.gs[g], Alive);
  }

  lemma {:induction false} WorkerKeepsFlag(p: Params, s: State, s': State, g: nat)
    requires Inv(p, s) && g < |s.gs| && WorkerStep(p, s, s', g)
    ensures FlagInv(p, s')
  {
    var c := s'.gs[g];
    assert s'.gs == s.gs[g := c];
    WhereUpdate(s.gs, g, c, InFlight);
    if s.gs[g].InGate? {
      WorkerMoves(p, s, s', g);
      WorkerKeepsCounts(p, s, s', g);
      FlyingHoldsSlot(s');
    } else if s.gs[g].InStore? && s.gs[g].reply.Failed? {
      RecordCounts(s.failures, p.clusters[g], s.gs[g].reply.error);
    }
  }

  lemma {:induction false} RecordCounts(m: map<string, string>, k: string, v: string)
    ensures |m[k := v]| <= |m| + 1 && m[k := v] != map[]
  {
    assert m[k := v].Keys == m.Keys + {k};
    assert |m[k := v]| == |m[k := v].Keys| && |m| == |m.Keys|;
  }

  lemma {:induction false} StepKeepsInv(p: Params, s: State, s': State)
    requires Inv(p, s) && Step(p, s, s')
    ensures Inv(p, s')
  {
    if MainStep(p, s, s') {
      MainKeepsInv(p, s, s');
    } else {
      var g: nat :| g < |s.gs| && WorkerStep(p, s, s', g);
      WorkerKeepsInv(p, s, s', g);
    }
  }

  lemma {:induction false} RunSteps(p: Params, run: seq<State>, i: nat)
    requires Run(p, run) && i + 1 < |run|
    ensures Step(p, run[i], run[i + 1])
  {
    assert StepAt(p, run, i);
  }

  lemma {:induction false} RunKeepsInv(p: Params, run: seq<State>, i: nat)
    requires Run(p, run) && i < |run|
    ensures Inv(p, run[i])
    decreases i
  {
    if i == 0 {
      InitInv(p, run[0]);
    } else {
      RunKeepsInv(p, run, i - 1);
      RunSteps(p, run, i - 1);
      StepKeepsInv(p, run[i - 1], run[i]);
    }
  }
}
