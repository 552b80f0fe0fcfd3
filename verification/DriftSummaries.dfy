/** What the summary of a drift report means, and what filtering a report by severity keeps. */
module DriftSummaries {
  import opened Text
  import opened StringOrder
  import opened Drift
  import opened DriftDetect

  datatype Verdict = Verdict(summary: Summary, overall: Severity, reconcilable: bool)

  function VerdictOf(drifts: seq<DriftItem>): Verdict {
    Verdict(Tally(drifts), Highest(drifts), AllReconcilable(drifts))
  }

  function Worst(s: Severity, t: Severity): Severity {
    if Rank(s) > Rank(t) then s else t
  }

  function Next(v: Verdict, item: DriftItem): Verdict {
    Verdict(Counted(v.summary, item), Worst(item.severity, v.overall), v.reconcilable && item.reconcilable)
  }

  lemma {:induction false} VerdictWithout(drifts: seq<DriftItem>, i: nat)
    requires i < |drifts|
    ensures VerdictOf(drifts) == Next(VerdictOf(drifts[..i] + drifts[i + 1..]), drifts[i])
    decreases |drifts|
  {
    var n := |drifts| - 1;
    var rest := drifts[..i] + drifts[i + 1..];
    if i == n {
      assert rest == drifts[..n];
    } else {
      var shorter := drifts[..n];
      VerdictWithout(shorter, i);
      assert rest[..|rest| - 1] == shorter[..i] + shorter[i + 1..];
      assert rest[|rest| - 1] == drifts[n];
    }
  }

  /** The summary of a report does not depend on the order of its items. */
  lemma {:induction false} SummaryOrderFree(a: seq<DriftItem>, b: seq<DriftItem>)
    requires multiset(a) == multiset(b)
    ensures VerdictOf(a) == VerdictOf(b)
    decreases |a|
  {
    SameSize(a, b);
    if a != [] {
      assert a[0] in multiset(b);
      var i :| 0 <= i < |b| && b[i] == a[0];
      MultisetWithout(a, 0);
      MultisetWithout(b, i);
      var ra, rb := a[..0] + a[1..], b[..i] + b[i + 1..];
      assert multiset(ra) == multiset(a) - multiset{a[0]} == multiset(rb);
      SummaryOrderFree(ra, rb);
      VerdictWithout(a, 0);
      VerdictWithout(b, i);
    }
  }

  lemma {:induction false} MultisetWithout(s: seq<DriftItem>, i: nat)
    requires i < |s|
    ensures multiset(s) == multiset{s[i]} + multiset(s[..i] + s[i + 1..])
  {
    assert s == s[..i] + [s[i]] + s[i + 1..];
  }

  function Classes(s: Summary): int {
    s.critical + s.warning + s.info
  }

  /** From zeroed counters the classes add up to the total, and each is the size of its filter. */
  lemma {:induction false} SummaryAddsUp(drifts: seq<DriftItem>)
    ensures var t := Tally(drifts);
      && Classes(t) == t.total == |drifts|
      && t.critical == |Only(drifts, Critical)| && t.warning == |Only(drifts, Warning)| && t.info == |Only(drifts, Info)|
    decreases |drifts|
  {
    if drifts != [] {
      SummaryAddsUp(drifts[..|drifts| - 1]);
      OnlyLast(drifts, Critical);
      OnlyLast(drifts, Warning);
      OnlyLast(drifts, Info);
    }
  }

  /** A report is reconcilable when all its items are counted so. */
  lemma {:induction false} ReconcilableWhenAllAre(drifts: seq<DriftItem>)
    ensures 0 <= Tally(drifts).reconcilable <= |drifts|
    ensures AllReconcilable(drifts) <==> Tally(drifts).reconcilable == |drifts|
    ensures AllReconcilable(drifts) <==> forall item :: item in drifts ==> item.reconcilable
    decreases |drifts|
  {
    if drifts != [] {
      var n := |drifts| - 1;
      assert drifts == drifts[..n] + [drifts[n]];
      ReconcilableWhenAllAre(drifts[..n]);
    }
  }

  lemma {:induction false} OnlyLast(drifts: seq<DriftItem>, s: Severity)
    requires drifts != []
    ensures |Only(drifts, s)| == |Only(drifts[..|drifts| - 1], s)| + if drifts[|drifts| - 1].severity == s then 1 else 0
  {
  }

  lemma {:induction false} HighestIsMaximum(drifts: seq<DriftItem>)
    ensures forall item :: item in drifts ==> Rank(item.severity) <= Rank(Highest(drifts))
    ensures drifts != [] ==> exists item :: item in drifts && item.severity == Highest(drifts)
    decreases |drifts|
  {
    if drifts != [] {
      var n := |drifts| - 1;
      assert drifts == drifts[..n] + [drifts[n]];
      HighestIsMaximum(drifts[..n]);
      if n == 0 {
        assert drifts[0] in drifts && Highest(drifts) == drifts[0].severity;
      }
    }
  }

  /** The counters are not reset: counting onto old ones, the classes add up to the total exactly
      if the old ones were zero in sum. */
  lemma {:induction false} CountersMustStartAtZero(before: Summary, drifts: seq<DriftItem>)
    ensures var s := Added(before, Tally(drifts));
      Classes(s) == s.total <==> Classes(before) == 0
  {
    SummaryAddsUp(drifts);
  }

  /** The three filters partition a report. */
  lemma {:induction false} FiltersPartition(drifts: seq<DriftItem>)
    ensures multiset(Only(drifts, Critical)) + multiset(Only(drifts, Warning)) + multiset(Only(drifts, Info)) == multiset(drifts)
    decreases |drifts|
  {
    if drifts != [] {
      var n := |drifts| - 1;
      assert drifts == drifts[..n] + [drifts[n]];
      FiltersPartition(drifts[..n]);
    }
  }

  /** A filtered report has only the class asked for, and filtering it again changes nothing. */
  lemma {:induction false} FilterIsPure(drifts: seq<DriftItem>, s: Severity)
    ensures var only := Only(drifts, s);
      && (forall item :: item in only ==> item.severity == s)
      && Only(only, s) == only
    decreases |drifts|
  {
    if drifts != [] {
      var n := |drifts| - 1;
      FilterIsPure(drifts[..n], s);
      var only := Only(drifts[..n], s);
      if drifts[n].severity == s {
        assert (only + [drifts[n]])[..|only|] == only;
      } else {
        assert Only(drifts, s) == only;
      }
    }
  }

  /** A severity as it is printed. */
  function SeverityName(s: Severity): string {
    match s case Info => "info" case Warning => "warning" case Critical => "critical"
  }

  /** A filter knows exactly the names severities are printed by. */
  lemma {:induction false} SeverityNamed(name: string, s: Severity)
    ensures ParseSeverity(name) == Some(s) <==> name == SeverityName(s)
  {
    assert "info"[0] == 'i' && "warning"[0] == 'w' && "critical"[0] == 'c';
  }
}
