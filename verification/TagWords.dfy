/** Tagging failing scenarios, seen by readers of tags as words: the source only looks for the tag as
    part of a line (tag_feature_file of hack/tag_wip_failures.py). */
module TagWords {
  import opened Text
  import opened TagWip

  predicate WordAt(line: string, i: int) {
    && WipAt(line, i)
    && (i == 0 || IsBlankChar(line[i - 1]))
    && (i + |WIP| == |line| || IsBlankChar(line[i + |WIP|]))
  }

  /** The tag stands in the line as a word of its own. */
  predicate HoldsTag(line: string) {
    exists i :: 0 <= i <= |line| && WordAt(line, i)
  }

  /** The tag only stands inside longer words. */
  predicate Lookalike(line: string) {
    HasWip(line) && !HoldsTag(line)
  }

  lemma {:induction false} WordInside(a: string, b: string)
    requires (a == [] || IsBlankChar(a[|a| - 1])) && (b == [] || IsBlankChar(b[0]))
    ensures HoldsTag(a + WIP + b)
  {
    var s := a + WIP + b;
    assert s[|a|..|a| + |WIP|] == WIP;
    assert WordAt(s, |a|);
  }

  lemma {:induction false} IndentBlank(s: string)
    ensures forall i :: 0 <= i < |Indent(s)| ==> IsBlankChar(Indent(s)[i])
  {
    if s != [] && IsBlankChar(s[0]) {
      IndentBlank(s[1..]);
    }
  }

  /** What the run writes holds the tag as a word. */
  lemma WrittenHolds(line: string)
    ensures HoldsTag(NewTag(line)) && HoldsTag(Marked(line))
  {
    IndentBlank(line);
    WordInside(Indent(line), "\n");
    MarkedHasSpace(line);
    WordInside(Chomp(line) + [' '], "\n");
  }

  /** The nearest line above that is not blank is a tag line holding the tag as a word. */
  predicate Held(lines: seq<string>, i: nat)
    requires i <= |lines|
  {
    var j := LookBack(lines, i);
    j >= 0 && IsTag(lines[j]) && HoldsTag(lines[j])
  }

  /** It is a tag line holding the tag inside longer words only. */
  predicate Misled(lines: seq<string>, i: nat)
    requires i <= |lines|
  {
    var j := LookBack(lines, i);
    j >= 0 && IsTag(lines[j]) && Lookalike(lines[j])
  }

  ghost predicate AllHeld(lines: seq<string>, names: set<string>) {
    forall i: nat {:trigger Held(lines, i)} :: i < |lines| && Failing(lines[i], names) ==> Held(lines, i)
  }

  ghost predicate NoneMisled(lines: seq<string>, names: set<string>) {
    forall i: nat {:trigger Misled(lines, i)} :: i < |lines| && Failing(lines[i], names) ==> !Misled(lines, i)
  }

  lemma HeldAppend(lines: seq<string>, line: string, names: set<string>)
    ensures AllHeld(lines + [line], names) <==> AllHeld(lines, names) && (Failing(line, names) ==> Held(lines, |lines|))
  {
    var all := lines + [line];
    forall i: nat | i <= |lines| ensures Held(all, i) <==> Held(lines, i) {
      assert all[..i] == lines[..i];
      LookBackLocal(all, lines, i);
    }
    forall i: nat | i < |lines| ensures all[i] == lines[i] {
    }
  }

  lemma MisledAppend(lines: seq<string>, line: string, names: set<string>)
    ensures NoneMisled(lines + [line], names) <==> NoneMisled(lines, names) && (Failing(line, names) ==> !Misled(lines, |lines|))
  {
    var all := lines + [line];
    forall i: nat | i <= |lines| ensures Misled(all, i) <==> Misled(lines, i) {
      assert all[..i] == lines[..i];
      LookBackLocal(all, lines, i);
    }
    forall i: nat | i < |lines| ensures all[i] == lines[i] {
    }
  }

  /** Marking a tag line without the tag takes nothing from scenarios that all have it. */
  lemma HeldMark(lines: seq<string>, j: nat, names: set<string>)
    requires AllCovered(lines, names) && j < |lines| && IsTag(lines[j]) && !HasWip(lines[j])
    ensures AllHeld(lines[j := Marked(lines[j])], names) <==> AllHeld(lines, names)
  {
    var all := lines[j := Marked(lines[j])];
    MarkedIsTag(lines[j]);
    TagIsNoScenario(lines[j], names);
    TagIsNoScenario(all[j], names);
    forall i: nat | i < |all| && i != j && Failing(lines[i], names) ensures Held(all, i) <==> Held(lines, i) {
      assert Covered(lines, i);
      LookBackIs(all, i, LookBack(lines, i));
    }
    assert forall i: nat :: i < |all| && i != j ==> all[i] == lines[i];
  }

  lemma InsertHolds(lines: seq<string>, line: string, names: set<string>)
    requires Failing(line, names)
    ensures AllHeld(lines + [NewTag(line), line], names) <==> AllHeld(lines, names)
  {
    var tag := NewTag(line);
    NewTagIsTag(line);
    WrittenHolds(line);
    TagIsNoScenario(tag, names);
    HeldAppend(lines, tag, names);
    LookBackIs(lines + [tag], |lines| + 1, |lines|);
    HeldAppend(lines + [tag], line, names);
    assert lines + [tag] + [line] == lines + [tag, line];
  }

  lemma MarkHolds(lines: seq<string>, j: nat, line: string, names: set<string>)
    requires AllCovered(lines, names) && LookBack(lines, |lines|) == j && IsTag(lines[j]) && !HasWip(lines[j])
    ensures AllHeld(lines[j := Marked(lines[j])] + [line], names) <==> AllHeld(lines, names)
  {
    var marked := lines[j := Marked(lines[j])];
    MarkedIsTag(lines[j]);
    WrittenHolds(lines[j]);
    TagIsNoScenario(marked[j], names);
    HeldMark(lines, j, names);
    LookBackIs(marked, |marked|, j);
    HeldAppend(marked, line, names);
  }

  /** One line at a time: a scenario is left without the tag only under a lookalike. */
  lemma {:induction false} ProcessHolds(t: Tagging, line: string, names: set<string>)
    requires AllCovered(t.lines, names)
    ensures AllHeld(Process(t, line, names).lines, names)
       <==> AllHeld(t.lines, names) && !(Failing(line, names) && Misled(t.lines, |t.lines|))
  {
    var j := LookBack(t.lines, |t.lines|);
    if !Failing(line, names) {
      HeldAppend(t.lines, line, names);
    } else if j < 0 || !IsTag(t.lines[j]) {
      InsertHolds(t.lines, line, names);
    } else if HasWip(t.lines[j]) {
      HeldAppend(t.lines, line, names);
    } else {
      MarkHolds(t.lines, j, line, names);
    }
  }

  /** The run neither makes a lookalike nor mends one. */
  lemma {:induction false} MisledStays(before: seq<string>, names: set<string>)
    ensures var result := TagAll(before, names).lines; Misled(result, |result|) <==> Misled(before, |before|)
  {
    var result := TagAll(before, names).lines;
    var pos := OnlyTagsAdded(before, names);
    LastLine(before, names, result, pos);
    var k := LookBack(before, |before|);
    if k >= 0 && result[pos[k]] != before[k] {
      assert RightlyMarked(before, names, k, result[pos[k]]);
      WrittenHolds(before[k]);
    }
  }

  lemma NextHolds(before: seq<string>, line: string, names: set<string>)
    requires AllHeld(TagAll(before, names).lines, names) <==> NoneMisled(before, names)
    ensures AllHeld(Process(TagAll(before, names), line, names).lines, names) <==> NoneMisled(before + [line], names)
  {
    EveryFailureIsTagged(before, names);
    ProcessHolds(TagAll(before, names), line, names);
    MisledStays(before, names);
    MisledAppend(before, line, names);
  }

  /** Every failing scenario ends under the tag as a word exactly if none stood under a tag line that
      holds it only inside longer words. */
  lemma {:induction false} TagHeldIff(lines: seq<string>, names: set<string>)
    ensures AllHeld(TagAll(lines, names).lines, names) <==> NoneMisled(lines, names)
  {
    if lines != [] {
      var n := |lines| - 1;
      TagHeldIff(lines[..n], names);
      NextHolds(lines[..n], lines[n], names);
      assert lines == lines[..n] + [lines[n]];
    }
  }

  /** A longer tag that starts with the tag is taken for it. */
  lemma {:induction false} LongerTag(rest: string)
    requires rest != [] && !IsBlankChar(rest[0]) && '@' !in rest
    ensures IsTag(WIP + rest) && Lookalike(WIP + rest)
  {
    var line := WIP + rest;
    WipInside([], rest);
    assert [] + WIP + rest == line;
    forall i | 0 <= i <= |line| ensures !WordAt(line, i) {
      if WipAt(line, i) {
        assert line[i] == line[i..i + |WIP|][0] == '@';
        assert i == 0;
      }
    }
  }

  /** A failing scenario right under such a tag line, like one of @wip-later, is left without the tag. */
  lemma {:induction false} LongerTagMisleads(rest: string, scenario: string, names: set<string>)
    requires rest != [] && !IsBlankChar(rest[0]) && '@' !in rest && Failing(scenario, names)
    ensures var lines := [WIP + rest, scenario];
      TagAll(lines, names) == Tagging(lines, 0) && !AllHeld(lines, names)
  {
    var tag := WIP + rest;
    var lines := [tag, scenario];
    LongerTag(rest);
    TagIsNoScenario(tag, names);
    LookBackIs(lines, 1, 0);
    assert Covered(lines, 1) && !Held(lines, 1);
    assert AllCovered(lines, names);
    CoveredIsLeft(lines, names);
  }
}
