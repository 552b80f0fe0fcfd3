/** Which values pass to YAML as they are, and what is an assignment (to_yaml_scalar and parse_assignments
    of hack/scripts/tf2yaml.py). */
module TfScalars {
  import opened Text
  import opened Numerals
  import opened TfParse

  /** A list, a truth value, a natural number, or a quoted string. */
  ghost predicate Passing(v: string) {
    || v == "true" || v == "false"
    || (exists n: nat :: DigitsOf(v, n))
    || (exists x :: v == ['['] + x + [']'])
    || (exists x :: v == ['"'] + x + ['"'] || v == ['\''] + x + ['\''])
    || v == ['"'] || v == ['\'']
  }

  lemma WrappedIff(v: string, first: char, last: char)
    ensures |v| > 1 ==> (Wrapped(v, first, last) <==> exists x :: v == [first] + x + [last])
  {
    if |v| > 1 {
      assert v == [v[0]] + v[1..|v| - 1] + [v[|v| - 1]];
    }
  }

  lemma {:induction false} NumberIff(v: string)
    ensures IsNumber(v) <==> exists n: nat :: DigitsOf(v, n)
  {
    if IsNumber(v) {
      DigitsAre(v);
    }
    if n: nat :| DigitsOf(v, n) {
      DigitsRead(v, n);
    }
  }

  lemma {:induction false} PassesIff(v: string)
    ensures Passes(v) <==> Passing(v)
  {
    NumberIff(v);
    WrappedIff(v, '[', ']');
    WrappedIff(v, '"', '"');
    WrappedIff(v, '\'', '\'');
    if |v| == 1 {
      assert v == [v[0]];
    }
  }

  predicate AllCommas(s: string) {
    forall i :: 0 <= i < |s| ==> s[i] == ','
  }

  lemma {:induction false} DropsCommas(s: string, commas: string)
    requires AllCommas(commas) && (s == [] || s[|s| - 1] != ',')
    ensures DropCommas(s + commas) == s
    decreases |commas|
  {
    if commas == [] {
      assert s + commas == s;
    } else {
      var n := |commas| - 1;
      assert (s + commas)[..|s + commas| - 1] == s + commas[..n];
      DropsCommas(s, commas[..n]);
    }
  }

  /** A value is taken without the space around it and without commas at its end; then it passes if it has
      one of the forms, and is put in single quotes otherwise. */
  lemma {:induction false} ScalarIs(before: string, v: string, commas: string, after: string)
    requires AllSpace(before) && AllCommas(commas) && AllSpace(after)
    requires v != "" && !IsBlankChar(v[0]) && !IsBlankChar(v[|v| - 1]) && v[|v| - 1] != ','
    ensures Passing(v) ==> ToYamlScalar(before + ((v + commas) + after)) == v
    ensures !Passing(v) ==> ToYamlScalar(before + ((v + commas) + after)) == ['\''] + Doubled(v) + ['\'']
  {
    var t := v + commas;
    assert before + (t + after) == (before + t) + after;
    assert !IsBlankChar(t[|t| - 1]);
    RstripOf(before + t, after);
    LstripOf(before, t);
    DropsCommas(v, commas);
    PassesIff(v);
  }

  // ---------- Assignments ----------

  /** A word, an equals sign and a value, with any space between. */
  predicate SpellsAssignment(line: string, key: string, gap: string, more: string, value: string) {
    && IsKey(key) && AllSpace(gap) && AllSpace(more)
    && value != "" && !IsBlankChar(value[0]) && '\n' !in value
    && line == key + (gap + (['='] + (more + value)))
  }

  lemma NoWord(c: char)
    requires IsBlankChar(c) || c == '='
    ensures !IsWord(c)
  {
  }

  lemma {:induction false} SpelledAssigns(line: string, key: string, gap: string, more: string, value: string)
    requires SpellsAssignment(line, key, gap, more, value)
    ensures Assigned(line) == Some(Assignment(key, value))
  {
    var rest := gap + (['='] + (more + value));
    assert rest[0] == if gap == [] then '=' else gap[0];
    NoWord(rest[0]);
    WordEnds(key, rest);
    assert line[|key|..] == rest && line[..|key|] == key;
    LstripOf(gap, ['='] + (more + value));
    assert (['='] + (more + value))[1..] == more + value;
    LstripOf(more, value);
  }

  lemma {:induction false} AssignedSpells(line: string) returns (gap: string, more: string)
    requires Assigned(line).Some?
    ensures SpellsAssignment(line, Assigned(line).value.key, gap, more, Assigned(line).value.value)
  {
    var k := WordLength(line);
    var tail := line[k..];
    var rest := Lstrip(tail);
    gap := LstripSplits(tail);
    more := LstripSplits(rest[1..]);
    var found := Assigned(line).value;
    WordIsKey(line);
    Reassembled(line, found.key, tail, gap, rest, more, found.value);
  }

  lemma Reassembled(line: string, key: string, tail: string, gap: string, rest: string, more: string, value: string)
    requires IsKey(key) && AllSpace(gap) && AllSpace(more) && value != "" && !IsBlankChar(value[0]) && '\n' !in value
    requires |key| <= |line| && line[..|key|] == key && line[|key|..] == tail && tail == gap + rest
    requires rest != [] && rest[0] == '=' && rest[1..] == more + value
    ensures SpellsAssignment(line, key, gap, more, value)
  {
    assert rest == ['='] + rest[1..] && line == line[..|key|] + tail;
  }

  lemma WordIsKey(line: string)
    requires WordLength(line) > 0
    ensures IsKey(line[..WordLength(line)])
  {
  }

  /** A line is an assignment exactly if it is spelled so, and then of that key and value. */
  lemma {:induction false} AssignedIff(line: string, key: string, value: string)
    ensures Assigned(line) == Some(Assignment(key, value)) <==> exists gap, more :: SpellsAssignment(line, key, gap, more, value)
  {
    if Assigned(line) == Some(Assignment(key, value)) {
      var gap, more := AssignedSpells(line);
    }
    if gap, more :| SpellsAssignment(line, key, gap, more, value) {
      SpelledAssigns(line, key, gap, more, value);
    }
  }
}
