/** Which scenarios are tagged, by the form of their lines (SCENARIO_RE and the names given to
    tag_feature_file of hack/tag_wip_failures.py). */
module TagForms {
  import opened Text
  import opened TagWip

  /** No white space at either end. */
  predicate Bare(s: string) {
    s == [] || (!IsBlankChar(s[0]) && !IsBlankChar(s[|s| - 1]))
  }

  function Keyword(outline: bool): string {
    if outline then "Scenario Outline:" else "Scenario:"
  }

  /** Indent, keyword, space, the name, and space again. */
  predicate Spelled(line: string, name: string, indent: string, outline: bool, gap: string, end: string) {
    && AllSpace(indent) && AllSpace(gap) && AllSpace(end) && Bare(name)
    && line == indent + (Keyword(outline) + (gap + (name + end)))
  }

  /** The line is that of a scenario with the name. */
  ghost predicate Titled(line: string, name: string) {
    exists indent, outline, gap, end :: Spelled(line, name, indent, outline, gap, end)
  }

  // ---------- Stripping ----------

  lemma {:induction false} StripOf(gap: string, name: string, end: string)
    requires AllSpace(gap) && AllSpace(end) && Bare(name)
    ensures Lstrip(Rstrip(gap + (name + end))) == name
  {
    if name == [] {
      assert gap + (name + end) == [] + (gap + end);
      RstripOf([], gap + end);
    } else {
      assert gap + (name + end) == (gap + name) + end;
      RstripOf(gap + name, end);
      LstripOf(gap, name);
    }
  }

  lemma {:induction false} StripSplits(s: string) returns (gap: string, end: string)
    ensures AllSpace(gap) && AllSpace(end) && Bare(Lstrip(Rstrip(s)))
    ensures s == gap + (Lstrip(Rstrip(s)) + end)
  {
    var r := Rstrip(s);
    end := RstripSplits(s);
    gap := LstripSplits(r);
    if Lstrip(r) != [] {
      LstripLast(r);
    }
    assert s == r + end;
  }

  // ---------- Titles ----------

  /** What follows the keyword of a line. */
  lemma {:induction false} TitleIff(line: string, title: string)
    ensures ScenarioTitle(line) == Some(title)
       <==> Lstrip(line) == Keyword(false) + title || Lstrip(line) == Keyword(true) + title
  {
    var s := Lstrip(line);
    assert Keyword(true)[8] == ' ' && Keyword(false)[8] == ':';
    if s == Keyword(true) + title {
      assert s[8] == ' ' && s[|Keyword(true)|..] == title;
    } else if s == Keyword(false) + title {
      assert s[|Keyword(false)|..] == title;
    }
  }

  lemma {:induction false} NamedIff(line: string, name: string)
    ensures Titled(line, name) <==> ScenarioTitle(line).Some? && Lstrip(Rstrip(ScenarioTitle(line).value)) == name
  {
    if Titled(line, name) {
      var indent, outline, gap, end :| Spelled(line, name, indent, outline, gap, end);
      var title := gap + (name + end);
      LstripOf(indent, Keyword(outline) + title);
      TitleIff(line, title);
      StripOf(gap, name, end);
    }
    if ScenarioTitle(line).Some? && Lstrip(Rstrip(ScenarioTitle(line).value)) == name {
      var title := ScenarioTitle(line).value;
      TitleIff(line, title);
      var outline := Lstrip(line) == Keyword(true) + title;
      var indent := LstripSplits(line);
      var gap, end := StripSplits(title);
      assert Spelled(line, name, indent, outline, gap, end);
    }
  }

  /** The failing lines are the lines of scenarios whose names are given. */
  lemma {:induction false} FailingIff(line: string, names: set<string>)
    ensures Failing(line, names) <==> exists name :: name in names && Titled(line, name)
  {
    if Failing(line, names) {
      NamedIff(line, Lstrip(Rstrip(ScenarioTitle(line).value)));
    }
    if name :| name in names && Titled(line, name) {
      NamedIff(line, name);
    }
  }

  /** A line has one name at most. */
  lemma {:induction false} OneName(line: string, m: string, n: string)
    requires Titled(line, m) && Titled(line, n)
    ensures m == n
  {
    NamedIff(line, m);
    NamedIff(line, n);
  }

  // ---------- What becomes of named scenarios ----------

  ghost predicate Given(line: string, names: set<string>) {
    exists name :: name in names && Titled(line, name)
  }

  /** A given scenario stays and ends under a tag line with the tag; above any other line nothing comes in;
      and a line changes only if it is a tag line without the tag right above a given scenario. */
  lemma {:induction false} GivenAreTagged(lines: seq<string>, names: set<string>) returns (pos: seq<nat>)
    ensures var r := TagAll(lines, names).lines;
      && |pos| == |lines| && (forall k :: 0 <= k < |pos| ==> pos[k] < |r|)
      && (forall k: nat :: k < |pos| && Given(lines[k], names) ==> r[pos[k]] == lines[k] && Covered(r, pos[k]))
      && (forall k: nat :: k < |pos| && !Given(lines[k], names) ==> pos[k] == if k == 0 then 0 else pos[k - 1] + 1)
      && (forall k: nat :: k < |pos| && r[pos[k]] != lines[k] ==> MarkedFor(lines, names, k))
  {
    var r := TagAll(lines, names).lines;
    pos := OnlyTagsAdded(lines, names);
    EveryFailureIsTagged(lines, names);
    forall k: nat | k < |pos| ensures Given(lines[k], names) <==> Failing(lines[k], names) {
      FailingIff(lines[k], names);
    }
    forall k: nat | k < |pos| && Given(lines[k], names) ensures r[pos[k]] == lines[k] && Covered(r, pos[k]) {
      StaysFailing(lines, names, r, pos, k);
    }
    forall k: nat | k < |pos| && !Given(lines[k], names) ensures pos[k] == if k == 0 then 0 else pos[k - 1] + 1 {
      NothingAbove(lines, names, r, pos, k);
    }
    forall k: nat | k < |pos| && r[pos[k]] != lines[k] ensures MarkedFor(lines, names, k) {
      WhyMarked(lines, names, k, r[pos[k]]);
    }
  }

  ghost predicate MarkedFor(lines: seq<string>, names: set<string>, k: nat)
    requires k < |lines|
  {
    && IsTag(lines[k]) && !HasWip(lines[k])
    && exists s: nat :: k < s < |lines| && Given(lines[s], names) && LookBack(lines, s) == k
  }

  lemma StaysFailing(lines: seq<string>, names: set<string>, r: seq<string>, pos: seq<nat>, k: nat)
    requires Kept(lines, names, r, pos) && k < |pos| && Failing(lines[k], names) && AllCovered(r, names)
    ensures r[pos[k]] == lines[k] && Covered(r, pos[k])
  {
    ScenarioIsText(lines[k], names);
    assert r[pos[k]] == lines[k];
  }

  lemma NothingAbove(lines: seq<string>, names: set<string>, r: seq<string>, pos: seq<nat>, k: nat)
    requires Kept(lines, names, r, pos) && k < |pos| && !Failing(lines[k], names)
    ensures pos[k] == if k == 0 then 0 else pos[k - 1] + 1
  {
    if pos[k] > 0 {
      var q := pos[k] - 1;
      forall j: nat | j < |pos| && pos[j] == q + 1 ensures j == k {
      }
      assert !RightlyAdded(lines, names, r, pos, q);
      var j :| 0 <= j < |pos| && pos[j] == q;
      assert j == k - 1;
    }
  }

  lemma WhyMarked(lines: seq<string>, names: set<string>, k: nat, now: string)
    requires k < |lines| && RightlyMarked(lines, names, k, now)
    ensures MarkedFor(lines, names, k)
  {
    var s: nat :| k < s < |lines| && Failing(lines[s], names) && LookBack(lines, s) == k;
    FailingIff(lines[s], names);
    assert Given(lines[s], names);
  }

  // ---------- The count ----------

  function One(line: string): nat {
    if IsTag(line) && HasWip(line) then 1 else 0
  }

  /** How many tag lines hold the tag. */
  function WipTags(lines: seq<string>): nat {
    if lines == [] then 0 else WipTags(lines[..|lines| - 1]) + One(lines[|lines| - 1])
  }

  lemma WipTagsNext(lines: seq<string>, line: string)
    ensures WipTags(lines + [line]) == WipTags(lines) + One(line)
  {
    assert (lines + [line])[..|lines|] == lines;
  }

  lemma {:induction false} WipTagsSet(lines: seq<string>, j: nat, line: string)
    requires j < |lines|
    ensures WipTags(lines[j := line]) == WipTags(lines) - One(lines[j]) + One(line)
    decreases |lines|
  {
    var k := |lines| - 1;
    var now := lines[j := line];
    if j < k {
      WipTagsSet(lines[..k], j, line);
      assert now[..k] == lines[..k][j := line];
    } else {
      assert now[..k] == lines[..k];
    }
  }

  lemma {:induction false} ProcessCounts(t: Tagging, line: string, names: set<string>)
    ensures WipTags(Process(t, line, names).lines) - Process(t, line, names).count == WipTags(t.lines) + One(line) - t.count
  {
    var j := LookBack(t.lines, |t.lines|);
    if !Failing(line, names) || (j >= 0 && IsTag(t.lines[j]) && HasWip(t.lines[j])) {
      WipTagsNext(t.lines, line);
    } else if j < 0 || !IsTag(t.lines[j]) {
      NewTagIsTag(line);
      WipTagsNext(t.lines, NewTag(line));
      WipTagsNext(t.lines + [NewTag(line)], line);
      assert t.lines + [NewTag(line)] + [line] == t.lines + [NewTag(line), line];
    } else {
      MarkedIsTag(t.lines[j]);
      WipTagsSet(t.lines, j, Marked(t.lines[j]));
      WipTagsNext(t.lines[j := Marked(t.lines[j])], line);
    }
  }

  /** The number returned is that of the tag lines that hold the tag now and did not before. */
  lemma {:induction false} CountIs(lines: seq<string>, names: set<string>)
    ensures WipTags(TagAll(lines, names).lines) == WipTags(lines) + TagAll(lines, names).count
  {
    if lines != [] {
      var k := |lines| - 1;
      CountIs(lines[..k], names);
      ProcessCounts(TagAll(lines[..k], names), lines[k], names);
    }
  }

  // ---------- The new tag line ----------

  /** A new tag line has the scenario's indent. */
  lemma {:induction false} NewTagIs(line: string, name: string, indent: string, outline: bool, gap: string, end: string)
    requires Spelled(line, name, indent, outline, gap, end)
    ensures NewTag(line) == indent + "@wip" + "\n"
  {
    var rest := Keyword(outline) + (gap + (name + end));
    assert rest[0] == 'S';
    IndentIs(indent, rest);
  }

  lemma {:induction false} IndentIs(space: string, s: string)
    requires AllSpace(space) && s != [] && !IsBlankChar(s[0])
    ensures Indent(space + s) == space
  {
    if space == [] {
      assert space + s == s;
    } else {
      assert (space + s)[1..] == space[1..] + s;
      IndentIs(space[1..], s);
    }
  }
}
