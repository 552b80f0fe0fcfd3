/** Objects on one line (parse_object of hack/scripts/tf2yaml.py): commas are never split, so they
    yield at most one entry. */
module TfOneLine {
  import opened Text
  import opened TfScan
  import opened TfParse

  // ---------- Any object on one line ----------

  predicate OnOneLine(s: string) {
    forall i :: 0 <= i < |s| ==> !IsBreak(s[i])
  }

  lemma {:induction false} NoBreak(s: string)
    requires OnOneLine(s)
    ensures BreakAt(s) == |s| && SplitLines(s) == if s == [] then [] else [s]
  {
  }

  ghost function ValueOf(val: string): Parsed {
    if val != [] && val[0] == '{' then Object(ObjectOf(val)) else Scalar(ToYamlScalar(val))
  }

  /** What a line between the braces yields. */
  ghost function Yield(inner: string): map<string, Parsed> {
    var line := Cleaned(inner);
    if line == "}" || Assigned(line).None? then map[]
    else map[Assigned(line).value.key := ValueOf(Assigned(line).value.value)]
  }

  lemma NothingAssigned()
    ensures Assigned("").None?
  {
  }

  /** An object whose text between the braces is on one line yields what that line assigns: one entry,
      or none. */
  lemma {:induction false} OneLineObject(s: string)
    requires OnOneLine(Inner(s))
    ensures ObjectOf(s) == Yield(Inner(s)) && |ObjectOf(s)| <= 1
  {
    var inner := Inner(s);
    NoBreak(inner);
    SplitSize(inner);
    if inner == [] {
      CleanedShorter(inner);
      NothingAssigned();
      assert Cleaned(inner) == "";
    } else {
      LineYields(inner);
    }
  }

  lemma {:induction false} LineYields(inner: string)
    ensures Parsing([inner], 0, map[]).entries == Yield(inner)
  {
    var lines, line := [inner], Cleaned(inner);
    if line != "}" && Assigned(line).Some? {
      var val := Assigned(line).value.value;
      AssignedShorter(line);
      CleanedShorter(inner);
      var v := ValueAt(lines, 0, val);
      assert Joined(lines, 1, val, 1) == val;
      assert Parsing(lines, 0, map[]) == Parsing(lines, v.next, map[][Assigned(line).value.key := v.parsed]);
    }
  }

  // ---------- Plain entries ----------

  predicate PlainWord(s: string) {
    s != "" && forall i :: 0 <= i < |s| ==> IsWord(s[i])
  }

  predicate Plain(es: seq<Assignment>) {
    forall i :: 0 <= i < |es| ==> PlainWord(es[i].key) && PlainWord(es[i].value)
  }

  /** The value of the first entry with all that follows it. */
  function Tail(es: seq<Assignment>): string
    requires es != []
    decreases |es|, 0
  {
    if |es| == 1 then es[0].value else es[0].value + ", " + Listing(es[1..])
  }

  function Listing(es: seq<Assignment>): string
    decreases |es|, 1
  {
    if es == [] then "" else es[0].key + (" = " + Tail(es))
  }

  /** Entries written as an object on one line. */
  function OneLine(es: seq<Assignment>): string {
    "{ " + Listing(es) + " }"
  }

  /** The entries one would expect of it. */
  function Meant(es: seq<Assignment>): map<string, Parsed> {
    if es == [] then map[]
    else
      var last := es[|es| - 1];
      Meant(es[..|es| - 1])[last.key := Scalar(ToYamlScalar(last.value))]
  }

  /** Neither a line break, nor the start of a comment, nor a quote or backslash. */
  predicate Harmless(c: char) {
    IsWord(c) || c == ' ' || c == '=' || c == ','
  }

  predicate AllHarmless(s: string) {
    forall i :: 0 <= i < |s| ==> Harmless(s[i])
  }

  lemma WordsAreHarmless(c: char)
    ensures IsWord(c) ==> !IsBlankChar(c) && c != ',' && c != '{' && c != '\'' && c != '"' && c != '['
    ensures Harmless(c) ==> !IsBreak(c) && c != '#' && c != '/' && c != '\'' && c != '\n'
  {
  }

  lemma HarmlessConcat(a: string, b: string)
    requires AllHarmless(a) && AllHarmless(b)
    ensures AllHarmless(a + b)
  {
  }

  /** A listing starts and ends with words, and has nothing harmful in between; so has a tail. */
  lemma {:induction false} ListingShape(es: seq<Assignment>)
    requires es != [] && Plain(es)
    ensures var t, l := Tail(es), Listing(es);
      && t != "" && AllHarmless(t) && IsWord(t[0]) && IsWord(t[|t| - 1])
      && l != "" && AllHarmless(l) && IsWord(l[0]) && IsWord(l[|l| - 1])
    decreases |es|
  {
    var k, v := es[0].key, es[0].value;
    assert PlainWord(k) && PlainWord(v);
    if |es| > 1 {
      assert forall i :: 0 <= i < |es| - 1 ==> es[1..][i] == es[i + 1];
      ListingShape(es[1..]);
      HarmlessConcat(v, ", ");
      HarmlessConcat(v + ", ", Listing(es[1..]));
    }
    HarmlessConcat(" = ", Tail(es));
    HarmlessConcat(k, " = " + Tail(es));
  }

  lemma {:induction false} NoCommentIn(s: string)
    requires AllHarmless(s)
    ensures Stripped(s) == Rstrip(s)
  {
    var c := CommentStart(s);
    if c < |s| {
      WordsAreHarmless(s[c]);
    }
    assert s[..|s|] == s;
  }

  lemma {:induction false} RstripOne(l: string)
    requires l != "" && !IsBlankChar(l[|l| - 1])
    ensures Rstrip(l + " ") == l
  {
    assert (l + " ")[..|l|] == l;
  }

  lemma {:induction false} LstripOne(l: string)
    requires l != "" && !IsBlankChar(l[0])
    ensures Lstrip(" " + l) == l
  {
    assert (" " + l)[1..] == l;
  }

  /** Trimming a line with a space on either side. */
  lemma {:induction false} TrimsBack(l: string)
    requires l != "" && AllHarmless(l) && IsWord(l[0]) && IsWord(l[|l| - 1])
    ensures Cleaned(" " + l + " ") == l
  {
    var m := " " + l;
    HarmlessConcat(" ", l);
    HarmlessConcat(m, " ");
    NoCommentIn(m + " ");
    WordsAreHarmless(l[0]);
    WordsAreHarmless(l[|l| - 1]);
    assert m[|m| - 1] == l[|l| - 1];
    RstripOne(m);
    LstripOne(l);
    assert Rstrip(l) == l && Rstrip(m) == m;
  }

  /** What a line with one key and something after it assigns. */
  lemma {:induction false} AssignsTail(k: string, t: string)
    requires PlainWord(k) && t != "" && AllHarmless(t) && IsWord(t[0])
    ensures Assigned(k + (" = " + t)) == Some(Assignment(k, t))
  {
    var l := k + (" = " + t);
    WordEnds(k, " = " + t);
    assert l[|k|..] == " = " + t && l[..|k|] == k;
    WordsAreHarmless(t[0]);
    assert (" = " + t)[1..] == "= " + t && ("= " + t)[1..] == " " + t && (" " + t)[1..] == t;
    assert Lstrip(" = " + t) == "= " + t && Lstrip(" " + t) == t;
    forall i | 0 <= i < |t| ensures t[i] != '\n' {
      WordsAreHarmless(t[i]);
    }
  }

  lemma {:induction false} InnerOfOneLine(l: string)
    ensures Inner("{ " + l + " }") == " " + l + " "
  {
    var s := "{ " + l + " }";
    assert s[0] == '{' && s[|s| - 1] == '}';
    assert Strip(s) == s;
    assert s[1..] == " " + l + " }";
    assert (" " + l + " }")[..|l| + 2] == " " + l + " ";
  }

  /** Plain entries on one line: the first key, with all the rest of the line for its value. */
  lemma {:induction false} FirstTakesAll(es: seq<Assignment>)
    requires es != [] && Plain(es)
    ensures ObjectOf(OneLine(es)) == map[es[0].key := Scalar(ToYamlScalar(Tail(es)))]
  {
    var l, inner := Listing(es), " " + Listing(es) + " ";
    ListingShape(es);
    InnerOfOneLine(l);
    forall i | 0 <= i < |inner| ensures !IsBreak(inner[i]) {
      WordsAreHarmless(inner[i]);
      assert Harmless(inner[i]);
    }
    OneLineObject(OneLine(es));
    TrimsBack(l);
    assert PlainWord(es[0].key);
    AssignsTail(es[0].key, Tail(es));
    WordsAreHarmless(l[0]);
    WordsAreHarmless(Tail(es)[0]);
  }

  /** Of two or more, that value is quoted whole. */
  lemma {:induction false} RestIsQuoted(es: seq<Assignment>)
    requires |es| > 1 && Plain(es)
    ensures ToYamlScalar(Tail(es)) == ['\''] + Doubled(Tail(es)) + ['\'']
  {
    var t, v := Tail(es), es[0].value;
    ListingShape(es);
    assert PlainWord(v);
    WordsAreHarmless(t[0]);
    WordsAreHarmless(t[|t| - 1]);
    TidyStays(t);
    assert t[|v|] == ',';
    assert !IsDigit(t[|v|]);
    assert |v| < |t| && ',' in t;
    assert ',' !in "true" && ',' !in "false";
  }

  predicate DistinctKeys(es: seq<Assignment>) {
    forall i, j :: 0 <= i < j < |es| ==> es[i].key != es[j].key
  }

  lemma {:induction false} MeantKeys(es: seq<Assignment>, i: nat)
    requires i < |es|
    ensures es[i].key in Meant(es)
    decreases |es|
  {
    if i < |es| - 1 {
      MeantKeys(es[..|es| - 1], i);
    }
  }

  /** Two or more entries on one line are never what the object yields, whatever their values. */
  lemma {:induction false} ManyAreLost(es: seq<Assignment>)
    requires |es| > 1 && DistinctKeys(es) && OnOneLine(Inner(OneLine(es)))
    ensures ObjectOf(OneLine(es)) != Meant(es)
  {
    OneLineObject(OneLine(es));
    MeantKeys(es, 0);
    MeantKeys(es, 1);
    var pair := {es[0].key, es[1].key};
    assert es[0].key != es[1].key;
    SubsetIsSmaller(pair, Meant(es).Keys);
  }

  lemma {:induction false} SubsetIsSmaller<T>(a: set<T>, b: set<T>)
    requires a <= b
    ensures |a| <= |b|
  {
    assert b == a + (b - a);
  }

  /** An object of plain entries on one line yields its entries exactly if it has no more than one. */
  lemma {:induction false} YieldsEntriesIff(es: seq<Assignment>)
    requires Plain(es) && DistinctKeys(es)
    ensures ObjectOf(OneLine(es)) == Meant(es) <==> |es| <= 1
  {
    if es == [] {
      EmptyObject();
    } else {
      FirstTakesAll(es);
      if |es| == 1 {
        assert es[..0] == [] && Meant(es[..0]) == map[];
      } else {
        MeantKeys(es, 1);
        assert es[0].key != es[1].key;
      }
    }
  }

  lemma {:induction false} EmptyObject()
    ensures ObjectOf(OneLine([])) == map[]
  {
    var s := OneLine([]);
    InnerOfOneLine("");
    assert s == "{ " + "" + " }" && " " + "" + " " == "  ";
    OneLineObject(s);
    NoCommentIn("  ");
    assert "  "[..1] == " " && " "[..0] == "";
    assert Rstrip("  ") == "" && Cleaned("  ") == "";
    NothingAssigned();
  }

  lemma {:induction false} TwoListed(a: Assignment, b: Assignment)
    ensures Tail([a, b]) == a.value + ", " + (b.key + (" = " + b.value))
    ensures Listing([a, b]) == a.key + (" = " + Tail([a, b]))
  {
    var es := [a, b];
    assert es[1..] == [b];
    assert Tail([b]) == b.value;
    assert Listing([b]) == b.key + (" = " + b.value);
    assert Tail(es) == es[0].value + ", " + Listing(es[1..]);
  }

  /** Two entries on one line give one. */
  lemma {:induction false} TwoGiveOne(a: Assignment, b: Assignment)
    requires PlainWord(a.key) && PlainWord(a.value) && PlainWord(b.key) && PlainWord(b.value)
    ensures var rest := a.value + ", " + (b.key + (" = " + b.value));
      ObjectOf("{ " + (a.key + (" = " + rest)) + " }")
        == map[a.key := Scalar(['\''] + Doubled(rest) + ['\''])]
  {
    var es := [a, b];
    TwoListed(a, b);
    assert OneLine(es) == "{ " + (a.key + (" = " + Tail(es))) + " }";
    FirstTakesAll(es);
    RestIsQuoted(es);
  }
}
