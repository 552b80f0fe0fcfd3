/** What a multi-cluster sync records: what SyncSecrets returned for the cluster, and nothing else. */
module SecretsReplies {
  import opened Text
  import opened SecretsSync
  import opened SecretsLaws

  /** The goroutine has this reply, and has not recorded it yet. */
  predicate Has(c: Goroutine, reply: Reply) {
    c == ToStore(reply) || c == InStore(reply)
  }

  predicate Recorded(s: State, name: string, reply: Reply) {
    match reply
    case Synced(r) => name in s.results && s.results[name] == r
    case Failed(e) => name in s.failures && s.failures[name] == e
  }

  // ---------- Nothing else ----------

  lemma MainRecordsNothing(p: Params, s: State, s': State)
    requires MainStep(p, s, s')
    ensures s'.results == s.results && s'.failures == s.failures
  {
  }

  lemma OthersRecordNothing(p: Params, s: State, s': State, g: nat)
    requires |s.gs| == |p.clusters| && g < |s.gs| && WorkerStep(p, s, s', g) && !s.gs[g].InStore?
    ensures s'.results == s.results && s'.failures == s.failures
  {
  }

  /** A step records only the reply of the goroutine that takes it, under its cluster's name. */
  lemma {:induction false} StepRecords(p: Params, s: State, s': State, name: string, reply: Reply) returns (g: nat)
    requires Step(p, s, s') && Recorded(s', name, reply) && !Recorded(s, name, reply)
    ensures g < |s.gs| == |p.clusters| && s.gs[g] == InStore(reply) && p.clusters[g] == name
  {
    if MainStep(p, s, s') {
      MainRecordsNothing(p, s, s');
    }
    g :| g < |s.gs| && WorkerStep(p, s, s', g);
    if !s.gs[g].InStore? {
      OthersRecordNothing(p, s, s', g);
    }
  }

  /** Whatever is recorded under a name was the reply to a cluster of that name. */
  lemma {:induction false} RecordedIsReply(p: Params, run: seq<State>, j: nat, name: string, reply: Reply) returns (i: nat, g: nat)
    requires Run(p, run) && j < |run| && Recorded(run[j], name, reply)
    ensures i < j && g < |run[i].gs| == |p.clusters| && run[i].gs[g] == InStore(reply) && p.clusters[g] == name
    decreases j
  {
    RunSteps(p, run, j - 1);
    if Recorded(run[j - 1], name, reply) {
      i, g := RecordedIsReply(p, run, j - 1, name, reply);
    } else {
      i := j - 1;
      g := StepRecords(p, run[i], run[j], name, reply);
    }
  }

  // ---------- Nothing is lost ----------

  /** The goroutine still has its reply, or has recorded it. */
  predicate Kept(p: Params, s: State, g: nat, reply: Reply) {
    && |s.gs| == |p.clusters| && g < |s.gs|
    && (Has(s.gs[g], reply) || (Past(s.gs[g]) && Recorded(s, p.clusters[g], reply)))
  }

  lemma MainKeepsReply(p: Params, s: State, s': State, g: nat, reply: Reply)
    requires Inv(p, s) && MainStep(p, s, s') && Kept(p, s, g, reply)
    ensures Kept(p, s', g, reply)
  {
    MainRecordsNothing(p, s, s');
    assert s'.gs == s.gs || (s.main.ToSpawn? && s'.gs == s.gs[s.main.i := ToAcquire]);
  }

  /** A step of the goroutine itself. */
  lemma OwnKeepsReply(p: Params, s: State, s': State, g: nat, reply: Reply)
    requires |s.gs| == |p.clusters| && g < |s.gs| && WorkerStep(p, s, s', g) && Kept(p, s, g, reply)
    ensures Kept(p, s', g, reply)
  {
    if !s.gs[g].InStore? {
      OthersRecordNothing(p, s, s', g);
    }
  }

  /** A step of another one, whose cluster has another name. */
  lemma OtherKeepsReply(p: Params, s: State, s': State, g: nat, h: nat, reply: Reply)
    requires |s.gs| == |p.clusters| && h < |s.gs| && WorkerStep(p, s, s', h) && Kept(p, s, g, reply)
    requires g != h && p.clusters[g] != p.clusters[h]
    ensures Kept(p, s', g, reply)
  {
    if !s.gs[h].InStore? {
      OthersRecordNothing(p, s, s', h);
    }
    assert s'.gs[g] == s.gs[g] && |s'.gs| == |s.gs|;
  }

  lemma {:induction false} StepKeepsReply(p: Params, s: State, s': State, g: nat, reply: Reply)
    requires Distinct(p.clusters) && Inv(p, s) && Step(p, s, s') && Kept(p, s, g, reply)
    ensures Kept(p, s', g, reply)
  {
    if MainStep(p, s, s') {
      MainKeepsReply(p, s, s', g, reply);
    } else {
      var h: nat :| h < |s.gs| && WorkerStep(p, s, s', h);
      if h == g {
        OwnKeepsReply(p, s, s', g, reply);
      } else {
        OtherKeepsReply(p, s, s', g, h, reply);
      }
    }
  }

  /** With distinct names, what SyncSecrets returned for a cluster is recorded for it, and stays. */
  lemma {:induction false} ReplyIsRecorded(p: Params, run: seq<State>, i: nat, j: nat, g: nat, reply: Reply)
    requires Distinct(p.clusters) && Run(p, run) && i <= j < |run| && |run[i].gs| == |p.clusters| && g < |run[i].gs|
    requires Has(run[i].gs[g], reply)
    ensures Kept(p, run[j], g, reply)
    decreases j
  {
    if i < j {
      ReplyIsRecorded(p, run, i, j - 1, g, reply);
      RunSteps(p, run, j - 1);
      RunKeepsInv(p, run, j - 1);
      StepKeepsReply(p, run[j - 1], run[j], g, reply);
    }
  }
}
