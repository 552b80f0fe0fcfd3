/** Assignments and objects of a Terraform file (parse_assignments, parse_object and to_yaml_scalar of
    hack/scripts/tf2yaml.py). */
module TfParse {
  import opened Text
  import opened TfScan
  import DocsGenerate

  function Strip(s: string): string {
    Lstrip(Rstrip(s))
  }

  // ---------- Scalars ----------

  function DropCommas(s: string): string {
    if s == [] || s[|s| - 1] != ',' then s else DropCommas(s[..|s| - 1])
  }

  predicate Wrapped(s: string, first: char, last: char) {
    s != [] && s[0] == first && s[|s| - 1] == last
  }

  predicate IsNumber(s: string) {
    s != [] && AllDigits(s)
  }

  /** Values that pass as they are: lists, booleans, integers and quoted strings. */
  predicate Passes(v: string) {
    || Wrapped(v, '[', ']') || v == "true" || v == "false" || IsNumber(v)
    || Wrapped(v, '"', '"') || Wrapped(v, '\'', '\'')
  }

  /** Single quotes doubled. */
  function Doubled(s: string): string {
    if s == [] then [] else (if s[0] == '\'' then "''" else [s[0]]) + Doubled(s[1..])
  }

  /** to_yaml_scalar. */
  function ToYamlScalar(val: string): string {
    var v := DropCommas(Strip(val));
    if Passes(v) then v else ['\''] + Doubled(v) + ['\'']
  }

  /** A one-line single-quoted YAML scalar (section 7.3.2 of YAML 1.2.2), from after the opening quote. */
  function DecodeSingle(s: string): Option<string> {
    if s == [] then None
    else if s[0] == '\'' then
      if |s| == 1 then Some("")
      else if s[1] != '\'' || DecodeSingle(s[2..]).None? then None
      else Some(['\''] + DecodeSingle(s[2..]).value)
    else if !DocsGenerate.IsJson(s[0]) || DecodeSingle(s[1..]).None? then None
    else Some([s[0]] + DecodeSingle(s[1..]).value)
  }

  /** Only characters a quoted scalar may hold on a line. */
  predicate AllJson(s: string) {
    forall i :: 0 <= i < |s| ==> DocsGenerate.IsJson(s[i])
  }

  lemma JsonRest(s: string)
    requires s != []
    ensures AllJson(s) <==> DocsGenerate.IsJson(s[0]) && AllJson(s[1..])
  {
    assert forall i :: 0 < i < |s| ==> s[i] == s[1..][i - 1];
  }

  lemma {:induction false} DoubledReadsBack(s: string)
    ensures DecodeSingle(Doubled(s) + ['\'']) == if AllJson(s) then Some(s) else None
  {
    if s == [] {
      assert Doubled(s) + ['\''] == ['\''];
    } else {
      var rest := Doubled(s[1..]) + ['\''];
      var all := Doubled(s) + ['\''];
      DoubledReadsBack(s[1..]);
      JsonRest(s);
      if s[0] == '\'' {
        assert all == "''" + rest && all[2..] == rest && all[0] == '\'' && all[1] == '\'';
      } else {
        assert all == [s[0]] + rest && all[1..] == rest;
      }
      assert s == [s[0]] + s[1..];
    }
  }

  /** A text is the rest of a one-line single-quoted scalar exactly if it is the value with its quotes
      doubled, and a closing quote, and the value has no control characters but tab. */
  lemma {:induction false} DecodeSingleIff(s: string, x: string)
    ensures DecodeSingle(s) == Some(x) <==> s == Doubled(x) + ['\''] && AllJson(x)
    decreases |s|
  {
    DoubledReadsBack(x);
    if DecodeSingle(s) == Some(x) {
      DecodesDoubled(s);
    }
  }

  lemma {:induction false} DecodesDoubled(s: string)
    requires DecodeSingle(s).Some?
    ensures s == Doubled(DecodeSingle(s).value) + ['\''] && AllJson(DecodeSingle(s).value)
    decreases |s|
  {
    var x := DecodeSingle(s).value;
    if x != "" {
      JsonRest(x);
    }
    if s[0] == '\'' && |s| > 1 {
      DecodesDoubled(s[2..]);
      assert x[1..] == DecodeSingle(s[2..]).value && s == "''" + s[2..];
    } else if s[0] != '\'' {
      DecodesDoubled(s[1..]);
      assert x[1..] == DecodeSingle(s[1..]).value && s == [s[0]] + s[1..];
    }
  }

  /** What a converted value reads back as. One that does not pass is quoted, and reads as itself
      without outer space and commas, exactly if it has no control characters but tab; with one the text
      is no YAML scalar. One that passes is left as it is: in single quotes it reads as x exactly if it is
      x with its quotes doubled and x has no control characters but tab, in double quotes exactly if it is
      spelled from legal pieces that mean x. */
  lemma {:induction false} QuotedReadsBack(val: string)
    ensures var v, r := DropCommas(Strip(val)), ToYamlScalar(val);
      if Passes(v) then
        && r == v
        && (Wrapped(v, '\'', '\'') ==> forall x :: DecodeSingle(r[1..]) == Some(x) <==> r == ['\''] + Doubled(x) + ['\''] && AllJson(x))
        && (Wrapped(v, '"', '"') ==> forall x :: DocsGenerate.DecodeScalar(r) == Some(x) <==> exists ps :: DocsGenerate.Spells(ps, r[1..], x))
      else r[0] == '\'' && DecodeSingle(r[1..]) == if AllJson(v) then Some(v) else None
  {
    var v := DropCommas(Strip(val));
    DoubledReadsBack(v);
    assert (['\''] + Doubled(v) + ['\''])[1..] == Doubled(v) + ['\''];
    if Wrapped(v, '\'', '\'') {
      forall x ensures DecodeSingle(v[1..]) == Some(x) <==> v == ['\''] + Doubled(x) + ['\''] && AllJson(x) {
        SingleReads(v, x);
      }
    }
    if Wrapped(v, '"', '"') {
      forall x ensures DocsGenerate.DecodeScalar(v) == Some(x) <==> exists ps :: DocsGenerate.Spells(ps, v[1..], x) {
        DocsGenerate.DecodeIff(v[1..], x);
      }
    }
  }

  lemma {:induction false} SingleReads(v: string, x: string)
    requires Wrapped(v, '\'', '\'')
    ensures DecodeSingle(v[1..]) == Some(x) <==> v == ['\''] + Doubled(x) + ['\''] && AllJson(x)
  {
    DecodeSingleIff(v[1..], x);
    var w := ['\''] + Doubled(x) + ['\''];
    assert w[0] == '\'' && w[1..] == Doubled(x) + ['\''];
    assert v == [v[0]] + v[1..];
  }

  /** A quoted string with a quote in it that is not doubled passes and does not read back; nor does
      a quote alone. */
  lemma {:induction false} LoneQuote(a: string, b: string)
    requires '\'' !in a && '\'' !in b && b != ""
    ensures var v := ['\''] + a + ['\''] + b + ['\'']; ToYamlScalar(v) == v && DecodeSingle(v[1..]) == None
    ensures ToYamlScalar(['\'']) == ['\''] && DecodeSingle(['\''][1..]) == None
  {
    var v := ['\''] + a + ['\''] + b + ['\''];
    assert v[1..] == a + (['\''] + (b + ['\'']));
    QuoteInside(a, b + ['\'']);
    assert Wrapped(v, '\'', '\'') && Wrapped(['\''], '\'', '\'');
    TidyStays(v);
    TidyStays(['\'']);
  }

  lemma {:induction false} QuoteInside(a: string, rest: string)
    requires '\'' !in a && |rest| > 1 && rest[0] != '\''
    ensures DecodeSingle(a + (['\''] + rest)) == None
  {
    var s := a + (['\''] + rest);
    if a == [] {
      assert s == ['\''] + rest && s[1] == rest[0];
    } else {
      assert s[0] == a[0] && s[1..] == a[1..] + (['\''] + rest);
      QuoteInside(a[1..], rest);
    }
  }

  /** Neither space nor a comma at the ends. */
  predicate Tidy(s: string) {
    s != [] && !IsBlankChar(s[0]) && !IsBlankChar(s[|s| - 1]) && s[|s| - 1] != ','
  }

  lemma TidyStays(s: string)
    requires Tidy(s)
    ensures DropCommas(Strip(s)) == s
  {
  }

  lemma PassesIsTidy(s: string)
    requires Passes(s)
    ensures Tidy(s)
  {
    if IsNumber(s) {
      assert IsDigit(s[0]) && IsDigit(s[|s| - 1]);
    }
  }

  /** Converting a converted value changes nothing. */
  lemma {:induction false} ScalarTwice(val: string)
    ensures Passes(ToYamlScalar(val)) && ToYamlScalar(ToYamlScalar(val)) == ToYamlScalar(val)
  {
    var r := ToYamlScalar(val);
    PassesIsTidy(r);
    TidyStays(r);
  }

  // ---------- Lines ----------

  predicate IsBreak(c: char) {
    c in {'\n', '\r', '\U{B}', '\U{C}', '\U{1C}', '\U{1D}', '\U{1E}', '\U{85}', '\U{2028}', '\U{2029}'}
  }

  function BreakAt(s: string): (i: nat)
    ensures i <= |s| && (i < |s| ==> IsBreak(s[i]))
  {
    if s == [] || IsBreak(s[0]) then 0 else 1 + BreakAt(s[1..])
  }

  /** str.splitlines. */
  function SplitLines(s: string): seq<string>
    decreases |s|
  {
    var i := BreakAt(s);
    if s == [] then []
    else if i == |s| then [s]
    else [s[..i]] + SplitLines(AfterBreak(s, i))
  }

  /** What follows a line break; CR LF is one. */
  function AfterBreak(s: string, i: nat): (r: string)
    requires i < |s|
    ensures |r| + i + 1 <= |s|
  {
    if s[i] == '\r' && i + 1 < |s| && s[i + 1] == '\n' then s[i + 2..] else s[i + 1..]
  }

  /** The text in some lines, with a line break each. */
  function Size(lines: seq<string>): nat {
    if lines == [] then 0 else Size(lines[..|lines| - 1]) + |lines[|lines| - 1]| + 1
  }

  lemma {:induction false} SizeConcat(a: seq<string>, b: seq<string>)
    ensures Size(a + b) == Size(a) + Size(b)
    decreases |b|
  {
    if b == [] {
      assert a + b == a;
    } else {
      assert (a + b)[..|a + b| - 1] == a + b[..|b| - 1];
      SizeConcat(a, b[..|b| - 1]);
    }
  }

  lemma SizeOne(line: string)
    ensures Size([line]) == |line| + 1
  {
    assert [line][..0] == [];
  }

  lemma {:induction false} SplitSize(s: string)
    ensures Size(SplitLines(s)) <= |s| + 1
    decreases |s|
  {
    var i := BreakAt(s);
    if s != [] {
      if i == |s| {
        SizeOne(s);
      } else {
        var rest := AfterBreak(s, i);
        SplitSize(rest);
        SizeOne(s[..i]);
        SizeConcat([s[..i]], SplitLines(rest));
      }
    }
  }

  // ---------- Assignments ----------

  predicate IsWord(c: char) {
    IsDigit(c) || 'A' <= c <= 'Z' || 'a' <= c <= 'z' || c == '_'
  }

  function WordLength(s: string): (n: nat)
    ensures n <= |s| && forall i :: 0 <= i < n ==> IsWord(s[i])
    ensures n < |s| ==> !IsWord(s[n])
  {
    if s == [] || !IsWord(s[0]) then 0 else 1 + WordLength(s[1..])
  }

  lemma {:induction false} WordEnds(k: string, rest: string)
    requires (forall i :: 0 <= i < |k| ==> IsWord(k[i])) && rest != [] && !IsWord(rest[0])
    ensures WordLength(k + rest) == |k|
  {
    if k != [] {
      assert (k + rest)[1..] == k[1..] + rest;
      WordEnds(k[1..], rest);
    } else {
      assert k + rest == rest;
    }
  }

  datatype Assignment = Assignment(key: string, value: string)

  /** The key and value of a stripped line that is an assignment. */
  function Assigned(line: string): Option<Assignment> {
    var k := WordLength(line);
    var rest := Lstrip(line[k..]);
    if k == 0 || rest == [] || rest[0] != '=' then None
    else
      var value := Lstrip(rest[1..]);
      if value == [] || '\n' in value then None else Some(Assignment(line[..k], value))
  }

  lemma {:induction false} LstripShorter(s: string)
    ensures |Lstrip(s)| <= |s|
  {
    if s != [] && IsBlankChar(s[0]) {
      LstripShorter(s[1..]);
    }
  }

  /** An assignment is longer than its value by at least two characters. */
  lemma AssignedShorter(line: string)
    requires Assigned(line).Some?
    ensures |Assigned(line).value.value| + 2 <= |line|
  {
    var k := WordLength(line);
    LstripShorter(line[k..]);
    LstripShorter(Lstrip(line[k..])[1..]);
  }

  function Cleaned(raw: string): string {
    Strip(Stripped(raw))
  }

  lemma CleanedShorter(raw: string)
    ensures |Cleaned(raw)| <= |raw| && |Stripped(raw)| <= |raw|
  {
    StripTwice(raw);
    RstripShape(Stripped(raw));
    LstripShorter(Rstrip(Stripped(raw)));
  }

  datatype Parsed = Scalar(text: string) | Object(entries: map<string, Parsed>)

  predicate IsKey(k: string) {
    k != "" && forall i :: 0 <= i < |k| ==> IsWord(k[i])
  }

  /** Keys are words, scalars are converted values, all the way down. */
  ghost predicate Proper(p: Parsed)
    decreases p
  {
    match p
    case Scalar(text) => Passes(text) && ToYamlScalar(text) == text
    case Object(entries) => forall k :: k in entries ==> IsKey(k) && Proper(entries[k])
  }

  /** The keys come from assignments among the lines read. */
  ghost predicate KeysFrom(m: map<string, Parsed>, lines: seq<string>, from: nat, to: nat)
    requires from <= to <= |lines|
  {
    forall k :: k in m ==> exists j :: from <= j < to && HasKey(lines[j], k)
  }

  predicate HasKey(raw: string, k: string) {
    Assigned(Cleaned(raw)).Some? && Assigned(Cleaned(raw)).value.key == k
  }

  /** Braces opened and not closed on a line. */
  function Depth(s: string): int {
    Count(s, '{') - Count(s, '}')
  }

  method LineDepth(s: string) returns (d: int)
    ensures d == Depth(s)
  {
    var opens, closes := CountBraces(s);
    d := opens as int - closes as int;
  }

  /** Braces still open after a value and the lines that follow it. */
  function DepthAt(lines: seq<string>, start: nat, val: string, n: nat): int
    requires start <= n <= |lines|
  {
    if n == start then Depth(val) else DepthAt(lines, start, val, n - 1) + Depth(Stripped(lines[n - 1]))
  }

  /** The value with those lines, without their comments. */
  function Joined(lines: seq<string>, start: nat, val: string, n: nat): string
    requires start <= n <= |lines|
  {
    if n == start then val else Joined(lines, start, val, n - 1) + ['\n'] + Stripped(lines[n - 1])
  }

  /** Collecting the lines of an object until its braces balance: no line sooner, none later. */
  method Collect(lines: seq<string>, start: nat, val: string) returns (full: string, next: nat)
    requires start <= |lines|
    ensures start <= next <= |lines|
    ensures full == Joined(lines, start, val, next)
    ensures next < |lines| ==> DepthAt(lines, start, val, next) <= 0
    ensures forall j :: start <= j < next ==> DepthAt(lines, start, val, j) > 0
  {
    full, next := val, start;
    var depth := LineDepth(val);
    while next < |lines| && depth > 0
      invariant start <= next <= |lines|
      invariant full == Joined(lines, start, val, next)
      invariant depth == DepthAt(lines, start, val, next)
      invariant forall j :: start <= j < next ==> DepthAt(lines, start, val, j) > 0
      decreases |lines| - next
    {
      var seg := StripInlineComments(lines[next]);
      full := full + ['\n'] + seg;
      var more := LineDepth(seg);
      depth := depth + more;
      next := next + 1;
    }
  }

  lemma {:induction false} JoinedSize(lines: seq<string>, start: nat, val: string, n: nat)
    requires start <= n <= |lines|
    ensures |Joined(lines, start, val, n)| <= |val| + Size(lines[start..n])
  {
    if n > start {
      var k := n - 1;
      JoinedSize(lines, start, val, k);
      JoinedNext(lines, start, val, k);
      SizeNext(lines, start, k);
    }
  }

  lemma JoinedNext(lines: seq<string>, start: nat, val: string, n: nat)
    requires start <= n < |lines|
    ensures |Joined(lines, start, val, n + 1)| <= |Joined(lines, start, val, n)| + |lines[n]| + 1
  {
    CleanedShorter(lines[n]);
  }

  lemma SizeNext(lines: seq<string>, start: nat, n: nat)
    requires start <= n < |lines|
    ensures Size(lines[start..n + 1]) == Size(lines[start..n]) + |lines[n]| + 1
  {
    SizeOne(lines[n]);
    SizeConcat(lines[start..n], [lines[n]]);
    assert lines[start..n + 1] == lines[start..n] + [lines[n]];
  }

  lemma SizePart(lines: seq<string>, from: nat, to: nat)
    requires from <= to <= |lines|
    ensures Size(lines[from..to]) <= Size(lines)
  {
    SizeConcat(lines[..from], lines[from..to]);
    SizeConcat(lines[..to], lines[to..]);
    assert lines == lines[..to] + lines[to..] && lines[..to] == lines[..from] + lines[from..to];
  }

  lemma Smaller(lines: seq<string>, i: nat, next: nat)
    requires i < next <= |lines|
    ensures |lines[i]| + 1 + Size(lines[i + 1..next]) <= Size(lines)
  {
    SizePart(lines, i, next);
    SizeOne(lines[i]);
    SizeConcat([lines[i]], lines[i + 1..next]);
    assert lines[i..next] == [lines[i]] + lines[i + 1..next];
  }

  /** The line after the one on which the braces balance. */
  function Balanced(lines: seq<string>, start: nat, val: string, n: nat): (next: nat)
    requires start <= n <= |lines|
    ensures n <= next <= |lines|
    decreases |lines| - n
  {
    if n == |lines| || DepthAt(lines, start, val, n) <= 0 then n else Balanced(lines, start, val, n + 1)
  }

  lemma {:induction false} BalancedIs(lines: seq<string>, start: nat, val: string, n: nat, next: nat)
    requires start <= n <= next <= |lines| && (next < |lines| ==> DepthAt(lines, start, val, next) <= 0)
    requires forall j :: n <= j < next ==> DepthAt(lines, start, val, j) > 0
    ensures Balanced(lines, start, val, n) == next
    decreases next - n
  {
    if n < next {
      BalancedIs(lines, start, val, n + 1, next);
    }
  }

  datatype Read = Read(entries: map<string, Parsed>, next: nat)

  datatype Value = Value(parsed: Parsed, next: nat)

  predicate LongValue(val: string) {
    val != [] && val[0] == '{' && val[|val| - 1] != '}'
  }

  predicate ShortValue(val: string) {
    val != [] && val[0] == '{' && val[|val| - 1] == '}'
  }

  /** What parsing gives from a line on, on top of what has been read. Every object is shorter than
      the lines it comes from, so this ends. */
  ghost function Parsing(lines: seq<string>, i: nat, m: map<string, Parsed>): (r: Read)
    requires i <= |lines|
    ensures r.next <= |lines|
    decreases Size(lines), 1, |lines| - i
  {
    if i == |lines| then Read(m, i)
    else
      var line := Cleaned(lines[i]);
      if line == "}" then Read(m, i + 1)
      else if Assigned(line).None? then Parsing(lines, i + 1, m)
      else
        AssignedShorter(line);
        CleanedShorter(lines[i]);
        var v := ValueAt(lines, i, Assigned(line).value.value);
        Parsing(lines, v.next, m[Assigned(line).value.key := v.parsed])
  }

  ghost function ValueAt(lines: seq<string>, i: nat, val: string): (r: Value)
    requires i < |lines| && |val| + 2 <= |lines[i]|
    ensures i < r.next <= |lines|
    decreases Size(lines), 0, 0
  {
    Smaller(lines, i, i + 1);
    if LongValue(val) then
      var next := Balanced(lines, i + 1, val, i + 1);
      JoinedSize(lines, i + 1, val, next);
      Smaller(lines, i, next);
      Value(Object(ObjectOf(Joined(lines, i + 1, val, next))), next)
    else if ShortValue(val) then Value(Object(ObjectOf(val)), i + 1)
    else Value(Scalar(ToYamlScalar(val)), i + 1)
  }

  /** The text between the outer braces. */
  function Inner(s: string): (r: string)
    ensures |r| <= |s|
  {
    RstripShape(s);
    LstripShorter(Rstrip(s));
    var t := Strip(s);
    var u := if t != [] && t[0] == '{' then t[1..] else t;
    if u != [] && u[|u| - 1] == '}' then u[..|u| - 1] else u
  }

  ghost function ObjectOf(s: string): map<string, Parsed>
    decreases |s| + 1, 2, 0
  {
    SplitSize(Inner(s));
    Parsing(SplitLines(Inner(s)), 0, map[]).entries
  }

  /** parse_assignments: it stops after a line that is a lone closing brace, or at the end. */
  method ParseAssignments(lines: seq<string>, start: nat) returns (m: map<string, Parsed>, next: nat)
    requires start <= |lines|
    ensures start <= next <= |lines| && Read(m, next) == Parsing(lines, start, map[])
    ensures Proper(Object(m)) && KeysFrom(m, lines, start, next)
    ensures next < |lines| ==> next > start && Cleaned(lines[next - 1]) == "}"
    decreases Size(lines), 1
  {
    m, next := map[], start;
    while next < |lines|
      invariant start <= next <= |lines| && Parsing(lines, start, map[]) == Parsing(lines, next, m)
      invariant Proper(Object(m)) && KeysFrom(m, lines, start, next)
      decreases |lines| - next
    {
      var stripped := StripInlineComments(lines[next]);
      var line := Strip(stripped);
      if line == "}" {
        next := next + 1;
        return;
      }
      var assignment := Assigned(line);
      if line == "" || assignment.None? {
        next := next + 1;
        continue;
      }
      var key, val := assignment.value.key, assignment.value.value;
      AssignedShorter(line);
      CleanedShorter(lines[next]);
      assert HasKey(lines[next], key);
      var value, after := ParseValue(lines, next, val);
      m, next := m[key := value], after;
    }
  }

  /** The value of an assignment: an object over several lines or on one, or a scalar. */
  method ParseValue(lines: seq<string>, at: nat, val: string) returns (value: Parsed, next: nat)
    requires at < |lines| && val != [] && |val| + 2 <= |lines[at]|
    ensures at < next <= |lines| && Value(value, next) == ValueAt(lines, at, val)
    ensures Proper(value)
    decreases Size(lines), 0
  {
    if val[0] == '{' && val[|val| - 1] != '}' {
      var full;
      full, next := Collect(lines, at + 1, val);
      BalancedIs(lines, at + 1, val, at + 1, next);
      JoinedSize(lines, at + 1, val, next);
      Smaller(lines, at, next);
      var entries := ParseObject(full);
      return Object(entries), next;
    }
    if val[0] == '{' {
      Smaller(lines, at, at + 1);
      var entries := ParseObject(val);
      return Object(entries), at + 1;
    }
    ScalarTwice(val);
    return Scalar(ToYamlScalar(val)), at + 1;
  }

  /** parse_object. */
  method ParseObject(s: string) returns (m: map<string, Parsed>)
    ensures m == ObjectOf(s) && Proper(Object(m))
    decreases |s| + 1, 2
  {
    var inner := Strip(s);
    if inner != [] && inner[0] == '{' {
      inner := inner[1..];
    }
    if inner != [] && inner[|inner| - 1] == '}' {
      inner := inner[..|inner| - 1];
    }
    assert inner == Inner(s);
    SplitSize(inner);
    var next;
    m, next := ParseAssignments(SplitLines(inner), 0);
  }

  // ---------- Comments do not matter ----------

  /** Lines that differ only in comments and trailing space. */
  ghost predicate SameCode(a: seq<string>, b: seq<string>) {
    |a| == |b| && forall i :: 0 <= i < |a| ==> Stripped(a[i]) == Stripped(b[i])
  }

  lemma {:induction false} SameDepth(a: seq<string>, b: seq<string>, start: nat, val: string, n: nat)
    requires SameCode(a, b) && start <= n <= |a|
    ensures DepthAt(a, start, val, n) == DepthAt(b, start, val, n)
    ensures Joined(a, start, val, n) == Joined(b, start, val, n)
  {
    if start < n {
      SameDepth(a, b, start, val, n - 1);
    }
  }

  lemma {:induction false} SameBalance(a: seq<string>, b: seq<string>, start: nat, val: string, n: nat)
    requires SameCode(a, b) && start <= n <= |a|
    ensures Balanced(a, start, val, n) == Balanced(b, start, val, n)
    decreases |a| - n
  {
    SameDepth(a, b, start, val, n);
    if n < |a| {
      SameBalance(a, b, start, val, n + 1);
    }
  }

  lemma {:induction false} SameValue(a: seq<string>, b: seq<string>, i: nat, val: string)
    requires SameCode(a, b) && i < |a| && |val| + 2 <= |a[i]| && |val| + 2 <= |b[i]|
    ensures ValueAt(a, i, val) == ValueAt(b, i, val)
  {
    if LongValue(val) {
      SameBalance(a, b, i + 1, val, i + 1);
      SameDepth(a, b, i + 1, val, Balanced(a, i + 1, val, i + 1));
    }
  }

  /** Lines that differ only in comments and trailing space parse alike. */
  lemma {:induction false} CommentsDoNotMatter(a: seq<string>, b: seq<string>, i: nat, m: map<string, Parsed>)
    requires SameCode(a, b) && i <= |a|
    ensures Parsing(a, i, m) == Parsing(b, i, m)
    decreases |a| - i
  {
    if i < |a| {
      var line := Cleaned(a[i]);
      assert line == Cleaned(b[i]);
      if line != "}" && Assigned(line).Some? {
        var entry := Assigned(line).value;
        AssignedShorter(line);
        CleanedShorter(a[i]);
        CleanedShorter(b[i]);
        SameValue(a, b, i, entry.value);
        var v := ValueAt(a, i, entry.value);
        CommentsDoNotMatter(a, b, v.next, m[entry.key := v.parsed]);
      } else if line != "}" {
        CommentsDoNotMatter(a, b, i + 1, m);
      }
    }
  }

  /** In particular stripping the lines first changes nothing. */
  lemma {:induction false} StrippedFirst(lines: seq<string>, stripped: seq<string>)
    requires |stripped| == |lines| && forall i :: 0 <= i < |lines| ==> stripped[i] == Stripped(lines[i])
    ensures Parsing(stripped, 0, map[]) == Parsing(lines, 0, map[])
  {
    forall i | 0 <= i < |lines| ensures Stripped(stripped[i]) == Stripped(lines[i]) {
      StripTwice(lines[i]);
    }
    CommentsDoNotMatter(stripped, lines, 0, map[]);
  }
}
