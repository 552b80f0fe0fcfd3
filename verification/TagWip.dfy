/** Tagging failing scenarios in a feature file (tag_feature_file of hack/tag_wip_failures.py). */
module TagWip {
  import opened Text

  // ---------- Lines ----------

  /** What Lstrip takes away. */
  function Indent(s: string): string {
    if s == [] || !IsBlankChar(s[0]) then [] else [s[0]] + Indent(s[1..])
  }

  lemma {:induction false} LstripAfterIndent(s: string, rest: string)
    requires rest != [] && !IsBlankChar(rest[0])
    ensures Lstrip(Indent(s) + rest) == rest
  {
    if s != [] && IsBlankChar(s[0]) {
      assert (Indent(s) + rest)[1..] == Indent(s[1..]) + rest;
      LstripAfterIndent(s[1..], rest);
    } else {
      assert Indent(s) + rest == rest;
    }
  }

  function Chomp(s: string): (r: string)
    ensures r <= s
  {
    if s == [] || s[|s| - 1] != '\n' then s else Chomp(s[..|s| - 1])
  }

  predicate Blank(line: string) {
    Lstrip(line) == ""
  }

  predicate IsTag(line: string) {
    Lstrip(line) != "" && Lstrip(line)[0] == '@'
  }

  const WIP := "@wip"

  predicate HasWip(line: string) {
    exists i :: 0 <= i <= |line| && WipAt(line, i)
  }

  predicate WipAt(line: string, i: int) {
    0 <= i <= |line| - |WIP| && line[i..i + |WIP|] == WIP
  }

  /** What follows the keyword of a scenario line. */
  function ScenarioTitle(line: string): Option<string> {
    var s := Lstrip(line);
    if HasPrefix(s, "Scenario:") then Some(s[|"Scenario:"|..])
    else if HasPrefix(s, "Scenario Outline:") then Some(s[|"Scenario Outline:"|..])
    else None
  }

  /** A scenario line with one of the names. */
  predicate Failing(line: string, names: set<string>) {
    match ScenarioTitle(line) case None => false case Some(title) => Lstrip(Rstrip(title)) in names
  }

  /** A tag line with the tag appended. */
  function Marked(line: string): string {
    var body := Chomp(line);
    var s := Lstrip(Rstrip(body));
    if s != [] && s[|s| - 1] == ' ' then body + WIP + "\n" else body + [' '] + WIP + "\n"
  }

  /** The tag line put above a scenario. */
  function NewTag(line: string): string {
    Indent(line) + WIP + "\n"
  }

  lemma WipInside(a: string, b: string)
    ensures HasWip(a + WIP + b)
  {
    var s := a + WIP + b;
    assert s[|a|..|a| + |WIP|] == WIP;
    assert WipAt(s, |a|);
  }

  /** A new tag line is a tag line that holds the tag. */
  lemma NewTagIsTag(line: string)
    ensures IsTag(NewTag(line)) && HasWip(NewTag(line))
  {
    WipInside(Indent(line), "\n");
    var rest := WIP + "\n";
    assert NewTag(line) == Indent(line) + rest;
    LstripAfterIndent(line, rest);
  }

  lemma {:induction false} LstripOfMore(s: string, more: string)
    requires Lstrip(s) != []
    ensures Lstrip(s + more) == Lstrip(s) + more
  {
    if IsBlankChar(s[0]) {
      assert (s + more)[1..] == s[1..] + more;
      LstripOfMore(s[1..], more);
    }
  }

  lemma {:induction false} ChompKeepsTag(s: string)
    requires IsTag(s)
    ensures IsTag(Chomp(s))
    decreases |s|
  {
    if s[|s| - 1] == '\n' {
      var t := s[..|s| - 1];
      assert s == t + "\n";
      if Lstrip(t) == [] {
        AllBlank(t, "\n");
      } else {
        LstripOfMore(t, "\n");
        ChompKeepsTag(t);
      }
    }
  }

  lemma {:induction false} AllBlank(s: string, more: string)
    requires Lstrip(s) == []
    ensures Lstrip(s + more) == Lstrip(more)
  {
    if s == [] {
      assert s + more == more;
    } else {
      assert (s + more)[1..] == s[1..] + more;
      AllBlank(s[1..], more);
    }
  }

  /** A marked tag line is a tag line that holds the tag. */
  lemma MarkedIsTag(line: string)
    requires IsTag(line)
    ensures IsTag(Marked(line)) && HasWip(Marked(line))
  {
    var body := Chomp(line);
    ChompKeepsTag(line);
    if Marked(line) == body + WIP + "\n" {
      WipInside(body, "\n");
      assert Marked(line) == body + (WIP + "\n");
      LstripOfMore(body, WIP + "\n");
    } else {
      WipInside(body + [' '], "\n");
      assert Marked(line) == body + ([' '] + WIP + "\n");
      LstripOfMore(body, [' '] + WIP + "\n");
    }
  }

  lemma {:induction false} LstripLast(s: string)
    requires Lstrip(s) != []
    ensures s != [] && Lstrip(s)[|Lstrip(s)| - 1] == s[|s| - 1]
  {
    if IsBlankChar(s[0]) {
      LstripLast(s[1..]);
    }
  }

  /** Stripped text never ends in a space, so the tag is always set off by one. */
  lemma MarkedHasSpace(line: string)
    ensures Marked(line) == Chomp(line) + [' '] + WIP + "\n"
  {
    var body := Rstrip(Chomp(line));
    if Lstrip(body) != [] {
      LstripLast(body);
    }
  }

  /** Tag lines are neither blank nor scenarios. */
  lemma TagIsNoScenario(line: string, names: set<string>)
    requires IsTag(line)
    ensures !Failing(line, names) && !Blank(line)
  {
    assert "Scenario:"[0] == 'S' && "Scenario Outline:"[0] == 'S';
  }

  lemma ScenarioIsText(line: string, names: set<string>)
    requires Failing(line, names)
    ensures !Blank(line) && !IsTag(line)
  {
    assert "Scenario:"[0] == 'S' && "Scenario Outline:"[0] == 'S';
  }

  // ---------- One line at a time ----------

  /** The nearest line above that is not blank, or -1. */
  function LookBack(lines: seq<string>, i: nat): (j: int)
    requires i <= |lines|
    ensures -1 <= j < i
    ensures j >= 0 ==> !Blank(lines[j])
    ensures forall k :: j < k < i ==> Blank(lines[k])
  {
    if i == 0 then -1 else if Blank(lines[i - 1]) then LookBack(lines, i - 1) else i - 1
  }

  lemma {:induction false} LookBackIs(lines: seq<string>, i: nat, j: int)
    requires i <= |lines| && -1 <= j < i && (j >= 0 ==> !Blank(lines[j]))
    requires forall k :: j < k < i ==> Blank(lines[k])
    ensures LookBack(lines, i) == j
  {
    var l := LookBack(lines, i);
    assert !(l < j) && !(j < l);
  }

  /** The lines so far, and how many scenarios were tagged. */
  datatype Tagging = Tagging(lines: seq<string>, count: nat)

  /** The next line of the file. */
  function Process(t: Tagging, line: string, names: set<string>): Tagging {
    var j := LookBack(t.lines, |t.lines|);
    if !Failing(line, names) then Tagging(t.lines + [line], t.count)
    else if j < 0 || !IsTag(t.lines[j]) then Tagging(t.lines + [NewTag(line), line], t.count + 1)
    else if HasWip(t.lines[j]) then Tagging(t.lines + [line], t.count)
    else Tagging(t.lines[j := Marked(t.lines[j])] + [line], t.count + 1)
  }

  function TagAll(lines: seq<string>, names: set<string>): Tagging {
    if lines == [] then Tagging([], 0) else Process(TagAll(lines[..|lines| - 1], names), lines[|lines| - 1], names)
  }

  lemma TagNext(lines: seq<string>, names: set<string>, k: nat)
    requires k < |lines|
    ensures TagAll(lines[..k + 1], names) == Process(TagAll(lines[..k], names), lines[k], names)
  {
    assert lines[..k + 1][..k] == lines[..k];
  }

  /** tag_feature_file, on the lines of a file that exists; written is whether it is written back. */
  method TagFeatureFile(file: Option<seq<string>>, names: set<string>) returns (lines: seq<string>, count: nat, written: bool)
    ensures file.None? ==> lines == [] && count == 0 && !written
    ensures file.Some? ==> Tagging(lines, count) == TagAll(file.value, names)
    ensures written <==> count > 0
  {
    if file.None? {
      return [], 0, false;
    }
    ghost var original := file.value;
    ghost var k := 0;
    lines, count, written := file.value, 0, false;
    var i := 0;
    while i < |lines|
      invariant k <= |original|
      invariant 0 <= i <= |lines| && lines[i..] == original[k..]
      invariant Tagging(lines[..i], count) == TagAll(original[..k], names)
      invariant written <==> count > 0
      decreases |original| - k
    {
      TagNext(original, names, k);
      assert lines[i] == original[k] && |lines| - i == |original| - k;
      lines, count, written, i := TagLine(lines, count, written, i, names);
      k := k + 1;
    }
    assert lines[..i] == lines && original[..k] == original;
  }

  /** One turn of the loop. */
  method TagLine(before: seq<string>, c: nat, w: bool, at: nat, names: set<string>)
    returns (lines: seq<string>, count: nat, written: bool, i: nat)
    requires at < |before| && (w <==> c > 0)
    ensures i <= |lines| && lines[i..] == before[at + 1..]
    ensures Tagging(lines[..i], count) == Process(Tagging(before[..at], c), before[at], names)
    ensures written <==> count > 0
  {
    lines, count, written, i := before, c, w, at;
    if !Failing(lines[i], names) {
      i := i + 1;
      return;
    }
    var j: int := i - 1;
    while j >= 0 && Blank(lines[j])
      invariant -1 <= j < i
      invariant forall k :: j < k < i ==> Blank(lines[k])
    {
      j := j - 1;
    }
    LookBackIs(before[..at], at, j);
    if j >= 0 && IsTag(lines[j]) {
      if !HasWip(lines[j]) {
        lines := lines[j := Marked(lines[j])];
        count, written := count + 1, true;
      }
    } else {
      lines := lines[..i] + [NewTag(lines[i])] + lines[i..];
      count, written := count + 1, true;
      i := i + 1;
    }
    i := i + 1;
  }

  // ---------- What it achieves ----------

  /** The nearest line above that is not blank is a tag line holding the tag. */
  predicate Covered(lines: seq<string>, i: nat)
    requires i <= |lines|
  {
    var j := LookBack(lines, i);
    j >= 0 && IsTag(lines[j]) && HasWip(lines[j])
  }

  ghost predicate AllCovered(lines: seq<string>, names: set<string>) {
    forall i: nat {:trigger Covered(lines, i)} :: i < |lines| && Failing(lines[i], names) ==> Covered(lines, i)
  }

  lemma LookBackLocal(a: seq<string>, b: seq<string>, i: nat)
    requires i <= |a| && i <= |b| && a[..i] == b[..i]
    ensures LookBack(a, i) == LookBack(b, i)
  {
    var j := LookBack(a, i);
    forall k | 0 <= k < i ensures a[k] == b[k] {
      assert a[k] == a[..i][k] == b[..i][k] == b[k];
    }
    LookBackIs(b, i, j);
  }

  /** Adding lines at the end keeps what is covered, and covers a last line that is. */
  lemma CoveredAppend(lines: seq<string>, line: string, names: set<string>)
    requires AllCovered(lines, names)
    requires Failing(line, names) ==> Covered(lines, |lines|)
    ensures AllCovered(lines + [line], names)
  {
    var all := lines + [line];
    forall i: nat | i < |all| && Failing(all[i], names) ensures Covered(all, i) {
      assert all[..i] == lines[..i];
      LookBackLocal(all, lines, i);
      assert i < |lines| ==> Covered(lines, i);
    }
  }

  /** Marking a tag line keeps what is covered. */
  lemma CoveredMark(lines: seq<string>, j: nat, names: set<string>)
    requires AllCovered(lines, names) && j < |lines| && IsTag(lines[j])
    ensures AllCovered(lines[j := Marked(lines[j])], names)
  {
    var all := lines[j := Marked(lines[j])];
    MarkedIsTag(lines[j]);
    TagIsNoScenario(lines[j], names);
    TagIsNoScenario(all[j], names);
    forall i: nat | i < |all| && Failing(all[i], names) ensures Covered(all, i) {
      assert Covered(lines, i);
      LookBackIs(all, i, LookBack(lines, i));
    }
  }

  /** After the run every failing scenario stands under a tag line with the tag. */
  lemma {:induction false} EveryFailureIsTagged(lines: seq<string>, names: set<string>)
    ensures AllCovered(TagAll(lines, names).lines, names)
  {
    if lines != [] {
      var n := |lines| - 1;
      EveryFailureIsTagged(lines[..n], names);
      ProcessCovers(TagAll(lines[..n], names), lines[n], names);
    }
  }

  lemma ProcessCovers(t: Tagging, line: string, names: set<string>)
    requires AllCovered(t.lines, names)
    ensures AllCovered(Process(t, line, names).lines, names)
  {
    var j := LookBack(t.lines, |t.lines|);
    if !Failing(line, names) {
      CoveredAppend(t.lines, line, names);
    } else if j < 0 || !IsTag(t.lines[j]) {
      var tag := NewTag(line);
      NewTagIsTag(line);
      TagIsNoScenario(tag, names);
      CoveredAppend(t.lines, tag, names);
      LookBackIs(t.lines + [tag], |t.lines| + 1, |t.lines|);
      CoveredAppend(t.lines + [tag], line, names);
      assert t.lines + [tag] + [line] == t.lines + [tag, line];
    } else if HasWip(t.lines[j]) {
      CoveredAppend(t.lines, line, names);
    } else {
      var marked := t.lines[j := Marked(t.lines[j])];
      MarkedIsTag(t.lines[j]);
      TagIsNoScenario(marked[j], names);
      CoveredMark(t.lines, j, names);
      LookBackIs(marked, |marked|, j);
      CoveredAppend(marked, line, names);
    }
  }

  /** The run leaves a file alone, and counts nothing, when all its failing scenarios are covered. */
  lemma {:induction false} CoveredIsLeft(lines: seq<string>, names: set<string>)
    requires AllCovered(lines, names)
    ensures TagAll(lines, names) == Tagging(lines, 0)
  {
    if lines != [] {
      var before, line := lines[..|lines| - 1], lines[|lines| - 1];
      CoveredBefore(lines, names);
      CoveredIsLeft(before, names);
      ProcessLeaves(before, line, names);
      assert lines == before + [line];
    }
  }

  lemma CoveredBefore(lines: seq<string>, names: set<string>)
    requires AllCovered(lines, names) && lines != []
    ensures var n := |lines| - 1;
      AllCovered(lines[..n], names) && (Failing(lines[n], names) ==> Covered(lines[..n], n))
  {
    var n := |lines| - 1;
    forall i: nat | i <= n && Failing(lines[i], names) ensures Covered(lines[..n], i) {
      assert Covered(lines, i);
      LookBackLocal(lines, lines[..n], i);
    }
  }

  lemma ProcessLeaves(before: seq<string>, line: string, names: set<string>)
    requires Failing(line, names) ==> Covered(before, |before|)
    ensures Process(Tagging(before, 0), line, names) == Tagging(before + [line], 0)
  {
  }

  /** A second run changes nothing and returns 0; the first returned 0 only if it changed nothing. */
  lemma {:induction false} SecondRunChangesNothing(lines: seq<string>, names: set<string>)
    ensures var r := TagAll(lines, names).lines; TagAll(r, names) == Tagging(r, 0)
    ensures TagAll(lines, names).count == 0 <==> AllCovered(lines, names)
    ensures TagAll(lines, names).count == 0 ==> TagAll(lines, names).lines == lines
  {
    var t := TagAll(lines, names);
    EveryFailureIsTagged(lines, names);
    CoveredIsLeft(t.lines, names);
    if AllCovered(lines, names) {
      CoveredIsLeft(lines, names);
    }
    if t.count == 0 {
      NothingCounted(lines, names);
    }
  }

  lemma {:induction false} NothingCounted(lines: seq<string>, names: set<string>)
    requires TagAll(lines, names).count == 0
    ensures TagAll(lines, names).lines == lines
  {
    if lines != [] {
      var n := |lines| - 1;
      NothingCounted(lines[..n], names);
      assert lines == lines[..n] + [lines[n]];
    }
  }

  // ---------- What it leaves intact ----------

  /** A tag line with the tag now, over a failing scenario. */
  ghost predicate RightlyMarked(original: seq<string>, names: set<string>, k: nat, now: string)
    requires k < |original|
  {
    && IsTag(original[k]) && !HasWip(original[k]) && now == Marked(original[k])
    && exists s: nat :: k < s < |original| && Failing(original[s], names) && LookBack(original, s) == k
  }

  /** A new tag line, over a failing scenario that had none. */
  ghost predicate RightlyAdded(original: seq<string>, names: set<string>, result: seq<string>, pos: seq<nat>, q: nat)
    requires |pos| == |original| && q < |result|
  {
    exists k: nat :: k < |pos| && pos[k] == q + 1 && Failing(original[k], names) && result[q] == NewTag(original[k])
                     && Untagged(original, k)
  }

  predicate Untagged(lines: seq<string>, k: nat)
    requires k <= |lines|
  {
    LookBack(lines, k) < 0 || !IsTag(lines[LookBack(lines, k)])
  }

  /** The original lines are in the result, in order, at the positions given. */
  ghost predicate Kept(original: seq<string>, names: set<string>, result: seq<string>, pos: seq<nat>) {
    && |pos| == |original|
    && (forall i, j :: 0 <= i < j < |pos| ==> pos[i] < pos[j])
    && (forall k :: 0 <= k < |pos| ==> pos[k] < |result|)
    && (forall k :: 0 <= k < |pos| ==> result[pos[k]] == original[k] || RightlyMarked(original, names, k, result[pos[k]]))
    && (forall q: nat :: q < |result| ==> q in pos || RightlyAdded(original, names, result, pos, q))
  }

  /** The last line that is not blank, before and after. */
  lemma {:induction false} LastLine(original: seq<string>, names: set<string>, result: seq<string>, pos: seq<nat>)
    requires Kept(original, names, result, pos)
    ensures var k, j := LookBack(original, |original|), LookBack(result, |result|);
      && (k < 0 <==> j < 0)
      && (k >= 0 ==> pos[k] == j && (IsTag(result[j]) <==> IsTag(original[k])) && (result[j] == original[k] || HasWip(result[j])))
  {
    var k := LookBack(original, |original|);
    forall i | 0 <= i < |pos| ensures Blank(result[pos[i]]) <==> Blank(original[i]) {
      SameKind(original, names, i, result[pos[i]]);
    }
    if k >= 0 {
      SameKind(original, names, k, result[pos[k]]);
      forall q: nat | pos[k] < q < |result| ensures Blank(result[q]) {
        OnlyBlankAfter(original, names, result, pos, q, k);
      }
      LookBackIs(result, |result|, pos[k]);
    } else {
      forall q: nat | q < |result| ensures Blank(result[q]) {
        OnlyBlankAfter(original, names, result, pos, q, -1);
      }
      LookBackIs(result, |result|, -1);
    }
  }

  lemma OnlyBlankAfter(original: seq<string>, names: set<string>, result: seq<string>, pos: seq<nat>, q: nat, k: int)
    requires Kept(original, names, result, pos) && q < |result| && -1 <= k < |pos| && (k >= 0 ==> pos[k] < q)
    requires forall i :: 0 <= i < |pos| ==> (Blank(result[pos[i]]) <==> Blank(original[i]))
    requires forall i :: k < i < |original| ==> Blank(original[i])
    ensures Blank(result[q])
  {
    if q in pos {
      var i :| 0 <= i < |pos| && pos[i] == q;
      assert i > k;
    } else {
      var i: nat :| i < |pos| && pos[i] == q + 1 && Failing(original[i], names);
      ScenarioIsText(original[i], names);
    }
  }

  lemma SameKind(original: seq<string>, names: set<string>, k: nat, now: string)
    requires k < |original| && (now == original[k] || RightlyMarked(original, names, k, now))
    ensures (Blank(now) <==> Blank(original[k])) && (IsTag(now) <==> IsTag(original[k]))
    ensures now == original[k] || HasWip(now)
  {
    if now != original[k] {
      MarkedIsTag(original[k]);
      TagIsNoScenario(now, names);
      TagIsNoScenario(original[k], names);
    }
  }

  /** All lines stay, in order; only tag lines right above failing scenarios are changed, by adding
      the tag; only failing scenarios without a tag line get a new one, right above. */
  lemma {:induction false} OnlyTagsAdded(lines: seq<string>, names: set<string>) returns (pos: seq<nat>)
    ensures Kept(lines, names, TagAll(lines, names).lines, pos)
  {
    if lines == [] {
      return [];
    }
    var n := |lines| - 1;
    pos := OnlyTagsAdded(lines[..n], names);
    pos := KeptStep(lines[..n], names, TagAll(lines[..n], names), pos, lines[n]);
    assert lines == lines[..n] + [lines[n]];
  }

  lemma {:induction false} KeptStep(before: seq<string>, names: set<string>, t: Tagging, pos: seq<nat>, line: string) returns (more: seq<nat>)
    requires Kept(before, names, t.lines, pos)
    ensures Kept(before + [line], names, Process(t, line, names).lines, more)
  {
    LastLine(before, names, t.lines, pos);
    var k := LookBack(before, |before|);
    if !Failing(line, names) || (k >= 0 && IsTag(before[k]) && HasWip(t.lines[pos[k]])) {
      KeptAppend(before, names, t.lines, pos, line);
      return pos + [|t.lines|];
    } else if k < 0 || !IsTag(before[k]) {
      KeptInsert(before, names, t.lines, pos, line);
      return pos + [|t.lines| + 1];
    } else {
      KeptMark(before, names, t.lines, pos, line, k);
      return pos + [|t.lines|];
    }
  }

  lemma LongerMarked(original: seq<string>, names: set<string>, line: string, k: nat, now: string)
    requires k < |original| && RightlyMarked(original, names, k, now)
    ensures RightlyMarked(original + [line], names, k, now)
  {
    var s: nat :| k < s < |original| && Failing(original[s], names) && LookBack(original, s) == k;
    LookBackLocal(original, original + [line], s);
  }

  lemma LongerAdded(original: seq<string>, names: set<string>, result: seq<string>, more: seq<string>, pos: seq<nat>, line: string, p: nat, q: nat)
    requires |pos| == |original| && q < |result| && q < |more| && result[q] == more[q]
    requires RightlyAdded(original, names, result, pos, q)
    ensures RightlyAdded(original + [line], names, more, pos + [p], q)
  {
    var k: nat :| k < |pos| && pos[k] == q + 1 && Failing(original[k], names) && result[q] == NewTag(original[k]) && Untagged(original, k);
    LookBackLocal(original, original + [line], k);
    assert (pos + [p])[k] == q + 1;
  }

  lemma {:induction false} KeptAppend(original: seq<string>, names: set<string>, result: seq<string>, pos: seq<nat>, line: string)
    requires Kept(original, names, result, pos)
    ensures Kept(original + [line], names, result + [line], pos + [|result|])
  {
    var o, r, p := original + [line], result + [line], pos + [|result|];
    forall k | 0 <= k < |p| ensures r[p[k]] == o[k] || RightlyMarked(o, names, k, r[p[k]]) {
      if k < |pos| && result[pos[k]] != original[k] {
        LongerMarked(original, names, line, k, result[pos[k]]);
      }
    }
    forall q: nat | q < |r| ensures q in p || RightlyAdded(o, names, r, p, q) {
      if q < |result| && q !in pos {
        LongerAdded(original, names, result, r, pos, line, |result|, q);
      } else if q < |result| {
        assert q in p;
      } else {
        assert p[|pos|] == q;
      }
    }
  }

  lemma {:induction false} KeptInsert(original: seq<string>, names: set<string>, result: seq<string>, pos: seq<nat>, line: string)
    requires Kept(original, names, result, pos) && Failing(line, names) && Untagged(original, |original|)
    ensures Kept(original + [line], names, result + [NewTag(line), line], pos + [|result| + 1])
  {
    var o, r, p := original + [line], result + [NewTag(line), line], pos + [|result| + 1];
    LookBackLocal(original, o, |original|);
    forall k | 0 <= k < |p| ensures r[p[k]] == o[k] || RightlyMarked(o, names, k, r[p[k]]) {
      if k < |pos| && result[pos[k]] != original[k] {
        LongerMarked(original, names, line, k, result[pos[k]]);
      }
    }
    forall q: nat | q < |r| ensures q in p || RightlyAdded(o, names, r, p, q) {
      if q < |result| && q !in pos {
        LongerAdded(original, names, result, r, pos, line, |result| + 1, q);
      } else if q < |result| {
        assert q in p;
      } else {
        assert p[|pos|] == |result| + 1 && o[|pos|] == line;
        assert Untagged(o, |pos|);
      }
    }
  }

  lemma {:induction false} KeptMark(original: seq<string>, names: set<string>, result: seq<string>, pos: seq<nat>, line: string, k: nat)
    requires Kept(original, names, result, pos) && Failing(line, names)
    requires k < |original| && LookBack(original, |original|) == k && IsTag(original[k]) && !HasWip(result[pos[k]])
    ensures Kept(original + [line], names, result[pos[k] := Marked(result[pos[k]])] + [line], pos + [|result|])
  {
    var o, r, p := original + [line], result[pos[k] := Marked(result[pos[k]])] + [line], pos + [|result|];
    LookBackLocal(original, o, |original|);
    SameKind(original, names, k, result[pos[k]]);
    assert o[|original|] == line;
    forall i | 0 <= i < |p| ensures r[p[i]] == o[i] || RightlyMarked(o, names, i, r[p[i]]) {
      if i < |pos| && i != k {
        assert pos[i] != pos[k];
        if result[pos[i]] != original[i] {
          LongerMarked(original, names, line, i, result[pos[i]]);
        }
      }
    }
    forall q: nat | q < |r| ensures q in p || RightlyAdded(o, names, r, p, q) {
      if q < |result| && q !in pos {
        LongerAdded(original, names, result, r, pos, line, |result|, q);
      } else if q < |result| {
        assert q in p;
      } else {
        assert p[|pos|] == q;
      }
    }
  }
}
