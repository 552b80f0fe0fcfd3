/** Parsing what was printed: blocks of assignments, nested to any depth, come back as they are. */
module TfPrint {
  import opened Text
  import opened TfScan
  import opened TfPieces
  import opened TfParse
  import opened TfScalars

  datatype Item = Item(key: string, content: Content)

  /** A value on the line, or a block of more assignments. */
  datatype Content = Inline(pieces: seq<Piece>) | Nested(items: seq<Item>)

  const OPEN := " = {"
  const CLOSE := "}"
  const EQUALS := " = "

  /** One assignment a line; the braces of a block on the line of its key and on one of their own. */
  function Lines(items: seq<Item>): seq<string>
    decreases items
  {
    if items == [] then [] else ItemLines(items[0]) + Lines(items[1..])
  }

  function ItemLines(item: Item): (r: seq<string>)
    ensures r != []
    decreases item
  {
    match item.content
    case Inline(ps) => [item.key + EQUALS + LineText(ps)]
    case Nested(inner) => [item.key + OPEN] + Lines(inner) + [CLOSE]
  }

  /** What the items say; of equal keys the last. */
  function Meaning(items: seq<Item>, m: map<string, Parsed>): map<string, Parsed>
    decreases items
  {
    if items == [] then m else Meaning(items[1..], m[items[0].key := ItemMeaning(items[0])])
  }

  function ItemMeaning(item: Item): Parsed
    decreases item
  {
    match item.content
    case Inline(ps) => TfParse.Scalar(ToYamlScalar(LineText(ps)))
    case Nested(inner) => Object(Meaning(inner, map[]))
  }

  predicate Unbroken(s: string) {
    forall i :: 0 <= i < |s| ==> !IsBreak(s[i])
  }

  /** A value that stays on its line: pieces without a comment or a plain brace, and no space outside. */
  predicate GoodInline(ps: seq<Piece>) {
    var t := LineText(ps);
    && AllGood(ps) && NoComment(ps, []) && PlainCount(ps, '{') == 0 && PlainCount(ps, '}') == 0
    && t != "" && t[0] != '{' && !IsBlankChar(t[0]) && !IsBlankChar(t[|t| - 1]) && Unbroken(t)
  }

  predicate GoodItem(item: Item)
    decreases item
  {
    && IsKey(item.key)
    && match item.content case Inline(ps) => GoodInline(ps) case Nested(inner) => GoodItems(inner)
  }

  predicate GoodItems(items: seq<Item>)
    decreases items
  {
    items == [] || (GoodItem(items[0]) && GoodItems(items[1..]))
  }

  // ---------- Lines as pieces ----------

  function Plains(s: string): (ps: seq<Piece>)
    ensures |ps| == |s| && forall i :: 0 <= i < |s| ==> ps[i] == Plain(s[i])
  {
    seq(|s|, i requires 0 <= i < |s| => Plain(s[i]))
  }

  lemma {:induction false} PlainsText(s: string)
    ensures LineText(Plains(s)) == s
    decreases |s|
  {
    if s != [] {
      var n := |s| - 1;
      PlainsText(s[..n]);
      assert Plains(s)[..n] == Plains(s[..n]);
    }
  }

  lemma LineTextNext(ps: seq<Piece>, p: Piece)
    ensures LineText(ps + [p]) == LineText(ps) + PieceText(p)
  {
    assert (ps + [p])[..|ps|] == ps;
  }

  lemma Assoc<T>(a: seq<T>, b: seq<T>, c: seq<T>)
    ensures a + b + c == a + (b + c)
  {
  }

  lemma {:induction false} LineTextConcat(a: seq<Piece>, b: seq<Piece>)
    ensures LineText(a + b) == LineText(a) + LineText(b)
    decreases |b|
  {
    if b == [] {
      assert a + b == a;
    } else {
      var front, last := b[..|b| - 1], b[|b| - 1];
      assert b == front + [last] && a + b == (a + front) + [last];
      LineTextConcat(a, front);
      LineTextNext(front, last);
      LineTextNext(a + front, last);
      Assoc(LineText(a), LineText(front), PieceText(last));
    }
  }

  lemma {:induction false} PlainCountConcat(a: seq<Piece>, b: seq<Piece>, c: char)
    ensures PlainCount(a + b, c) == PlainCount(a, c) + PlainCount(b, c)
    decreases |b|
  {
    if b == [] {
      assert a + b == a;
    } else {
      assert (a + b)[..|a + b| - 1] == a + b[..|b| - 1];
      PlainCountConcat(a, b[..|b| - 1], c);
    }
  }

  lemma {:induction false} PlainsLack(s: string, c: char)
    requires c !in s
    ensures PlainCount(Plains(s), c) == 0
    decreases |s|
  {
    if s != [] {
      var n := |s| - 1;
      PlainsLack(s[..n], c);
      assert Plains(s)[..n] == Plains(s[..n]);
    }
  }

  /** Characters that are plain, and start no comment. */
  predicate Tame(c: char) {
    IsWord(c) || c == ' ' || c == '=' || c == '{' || c == '}'
  }

  predicate AllTame(s: string) {
    forall i :: 0 <= i < |s| ==> Tame(s[i])
  }

  lemma TamePlains(s: string)
    requires AllTame(s)
    ensures AllGood(Plains(s)) && NoComment(Plains(s), []) && Unbroken(s)
  {
  }

  lemma {:induction false} RstripSame(s: string)
    requires s != "" && !IsBlankChar(s[|s| - 1])
    ensures Rstrip(s) == s
  {
  }

  /** What the parser sees of a printed line: the line. */
  predicate AsItIs(line: string) {
    line != "" && Stripped(line) == line && Cleaned(line) == line && Unbroken(line)
  }

  lemma {:induction false} PiecesStay(ps: seq<Piece>)
    requires AllGood(ps) && NoComment(ps, [])
    requires var t := LineText(ps); t != "" && !IsBlankChar(t[0]) && !IsBlankChar(t[|t| - 1]) && Unbroken(t)
    ensures AsItIs(LineText(ps))
    ensures Depth(LineText(ps)) == PlainCount(ps, '{') - PlainCount(ps, '}')
  {
    NothingIsCut(ps);
    RstripSame(LineText(ps));
    CountIsPlain(ps, '{');
    CountIsPlain(ps, '}');
  }

  lemma {:induction false} TameStays(s: string)
    requires AllTame(s) && s != "" && !IsBlankChar(s[0]) && !IsBlankChar(s[|s| - 1])
    ensures AsItIs(s) && Depth(s) == PlainCount(Plains(s), '{') - PlainCount(Plains(s), '}')
  {
    TamePlains(s);
    PlainsText(s);
    PiecesStay(Plains(s));
  }

  lemma KeyIsTame(k: string)
    requires IsKey(k)
    ensures AllTame(k) && !IsBlankChar(k[0]) && '{' !in k && '}' !in k
  {
    forall c | c in k ensures IsWord(c) {
      var i :| 0 <= i < |k| && k[i] == c;
    }
  }

  lemma {:induction false} CloseLine()
    ensures AsItIs(CLOSE) && Depth(CLOSE) == -1
  {
    TameStays(CLOSE);
    assert Plains(CLOSE) == [Plain('}')];
    assert [Plain('}')][..0] == [];
    assert PlainCount([Plain('}')], '}') == 1 && PlainCount([Plain('}')], '{') == 0;
  }

  lemma {:induction false} OpenLine(k: string)
    requires IsKey(k)
    ensures AsItIs(k + OPEN) && Depth(k + OPEN) == 1
  {
    KeyIsTame(k);
    var s := k + " = " + "{";
    assert s == k + OPEN;
    TameStays(s);
    PlainsLack(k + " = ", '{');
    PlainsLack(s, '}');
    assert Plains(s) == Plains(k + " = ") + [Plain('{')];
    PlainCountConcat(Plains(k + " = "), [Plain('{')], '{');
    assert [Plain('{')][..0] == [];
    assert PlainCount([Plain('{')], '{') == 1;
  }

  lemma {:induction false} InlineLine(k: string, ps: seq<Piece>)
    requires IsKey(k) && GoodInline(ps)
    ensures AsItIs(k + EQUALS + LineText(ps)) && Depth(k + EQUALS + LineText(ps)) == 0
  {
    KeyIsTame(k);
    InlineAfter(k + EQUALS, ps);
  }

  lemma {:induction false} InlineAfter(s: string, ps: seq<Piece>)
    requires AllTame(s) && s != "" && !IsBlankChar(s[0]) && s[|s| - 1] == ' ' && '{' !in s && '}' !in s && GoodInline(ps)
    ensures AsItIs(s + LineText(ps)) && Depth(s + LineText(ps)) == 0
  {
    PlainsText(s);
    LineTextConcat(Plains(s), ps);
    InlinePieces(s, ps);
    InlineEnds(s, LineText(ps));
    PiecesStay(Plains(s) + ps);
  }

  lemma InlineEnds(s: string, t: string)
    requires AllTame(s) && s != "" && !IsBlankChar(s[0]) && t != "" && !IsBlankChar(t[|t| - 1]) && Unbroken(t)
    ensures !IsBlankChar((s + t)[0]) && !IsBlankChar((s + t)[|s + t| - 1]) && Unbroken(s + t)
  {
    TamePlains(s);
  }

  lemma InlinePieces(s: string, ps: seq<Piece>)
    requires AllTame(s) && s != "" && s[|s| - 1] == ' ' && '{' !in s && '}' !in s && GoodInline(ps)
    ensures AllGood(Plains(s) + ps) && NoComment(Plains(s) + ps, [])
    ensures PlainCount(Plains(s) + ps, '{') == 0 && PlainCount(Plains(s) + ps, '}') == 0
  {
    TamePlains(s);
    PlainsLack(s, '{');
    PlainsLack(s, '}');
    PlainCountConcat(Plains(s), ps, '{');
    PlainCountConcat(Plains(s), ps, '}');
    assert Plains(s)[|s| - 1] == Plain(' ');
  }

  lemma {:induction false} AssignsValue(k: string, t: string)
    requires IsKey(k) && t != "" && !IsBlankChar(t[0]) && Unbroken(t)
    ensures Assigned(k + EQUALS + t) == Some(Assignment(k, t))
  {
    var l := k + EQUALS + t;
    assert l == k + (" " + (['='] + (" " + t)));
    assert '\n' !in t by {
      assert IsBreak('\n');
    }
    SpelledAssigns(l, k, " ", " ", t);
  }

  // ---------- Depth ----------

  function NetDepth(ls: seq<string>): int {
    if ls == [] then 0 else NetDepth(ls[..|ls| - 1]) + Depth(Stripped(ls[|ls| - 1]))
  }

  lemma {:induction false} NetConcat(a: seq<string>, b: seq<string>)
    ensures NetDepth(a + b) == NetDepth(a) + NetDepth(b)
    decreases |b|
  {
    if b == [] {
      assert a + b == a;
    } else {
      assert (a + b)[..|a + b| - 1] == a + b[..|b| - 1];
      NetConcat(a, b[..|b| - 1]);
    }
  }

  lemma NetOne(l: string)
    ensures NetDepth([l]) == Depth(Stripped(l))
  {
    assert [l][..0] == [];
    assert NetDepth([l][..0]) == 0;
  }

  lemma {:induction false} DepthIsNet(lines: seq<string>, start: nat, val: string, n: nat)
    requires start <= n <= |lines|
    ensures DepthAt(lines, start, val, n) == Depth(val) + NetDepth(lines[start..n])
    decreases n
  {
    if n > start {
      DepthIsNet(lines, start, val, n - 1);
      var ls := lines[start..n];
      assert ls[..|ls| - 1] == lines[start..n - 1] && ls[|ls| - 1] == lines[n - 1];
    }
  }

  /** All lines are seen as they are, the depth comes back to where it was, and never falls below. */
  ghost predicate Even(ls: seq<string>) {
    && NetDepth(ls) == 0
    && (forall k :: 0 <= k <= |ls| ==> NetDepth(ls[..k]) >= 0)
    && (forall k :: 0 <= k < |ls| ==> AsItIs(ls[k]))
  }

  lemma {:induction false} EvenConcat(a: seq<string>, b: seq<string>)
    requires Even(a) && Even(b)
    ensures Even(a + b)
  {
    NetConcat(a, b);
    forall k | 0 <= k <= |a + b| ensures NetDepth((a + b)[..k]) >= 0 {
      if k <= |a| {
        assert (a + b)[..k] == a[..k];
      } else {
        assert (a + b)[..k] == a + b[..k - |a|];
        NetConcat(a, b[..k - |a|]);
      }
    }
  }

  lemma {:induction false} EvenBlock(open: string, ls: seq<string>)
    requires AsItIs(open) && Depth(open) == 1 && Even(ls)
    ensures Even([open] + ls + [CLOSE])
  {
    CloseLine();
    NetOne(open);
    NetOne(CLOSE);
    NetConcat([open], ls);
    NetConcat([open] + ls, [CLOSE]);
    var all := [open] + ls + [CLOSE];
    forall k | 0 <= k <= |all| ensures NetDepth(all[..k]) >= 0 {
      if k == 0 {
        assert all[..k] == [];
      } else if k <= |ls| + 1 {
        assert all[..k] == [open] + ls[..k - 1];
        NetConcat([open], ls[..k - 1]);
      } else {
        assert all[..k] == all;
      }
    }
  }

  lemma {:induction false} EvenOne(l: string)
    requires AsItIs(l) && Depth(l) == 0
    ensures Even([l])
  {
    NetOne(l);
    assert [l][..0] == [] && [l][..1] == [l];
  }

  lemma {:induction false} LinesAreEven(items: seq<Item>)
    requires GoodItems(items)
    ensures Even(Lines(items))
    decreases items
  {
    if items == [] {
      assert Lines(items)[..0] == [];
    } else {
      ItemIsEven(items[0]);
      LinesAreEven(items[1..]);
      EvenConcat(ItemLines(items[0]), Lines(items[1..]));
    }
  }

  lemma {:induction false} ItemIsEven(item: Item)
    requires GoodItem(item)
    ensures Even(ItemLines(item))
    decreases item
  {
    match item.content
    case Inline(ps) =>
      InlineLine(item.key, ps);
      EvenOne(item.key + EQUALS + LineText(ps));
    case Nested(inner) =>
      OpenLine(item.key);
      LinesAreEven(inner);
      EvenBlock(item.key + OPEN, Lines(inner));
  }

  // ---------- The text of a block ----------

  /** Lines, each ended. */
  function Ended(ls: seq<string>): string {
    if ls == [] then [] else ls[0] + (['\n'] + Ended(ls[1..]))
  }

  /** Lines, each begun. */
  function Begun(ls: seq<string>): string {
    if ls == [] then [] else Begun(ls[..|ls| - 1]) + ['\n'] + ls[|ls| - 1]
  }

  lemma {:induction false} BegunFirst(l: string, ls: seq<string>)
    ensures Begun([l] + ls) == ['\n'] + l + Begun(ls)
    decreases |ls|
  {
    var all := [l] + ls;
    if ls == [] {
      assert all[..0] == [] && Begun(all[..0]) == [];
      assert Begun(all) == ['\n'] + l;
    } else {
      var n := |ls| - 1;
      assert all[..|all| - 1] == [l] + ls[..n] && all[|all| - 1] == ls[n];
      BegunFirst(l, ls[..n]);
      Assoc(['\n'] + l, Begun(ls[..n]), ['\n'] + ls[n]);
      Assoc(Begun(ls[..n]), ['\n'], ls[n]);
      Assoc(['\n'] + l + Begun(ls[..n]), ['\n'], ls[n]);
    }
  }

  lemma {:induction false} BegunIsEnded(ls: seq<string>)
    ensures Begun(ls) + ['\n'] == ['\n'] + Ended(ls)
  {
    if ls == [] {
    } else {
      var l, rest := ls[0], ls[1..];
      assert ls == [l] + rest;
      BegunFirst(l, rest);
      BegunIsEnded(rest);
      Assoc(['\n'] + l, Begun(rest), ['\n']);
      Assoc(['\n'], l, ['\n'] + Ended(rest));
    }
  }

  lemma {:induction false} BreakAfter(l: string, rest: string)
    requires Unbroken(l)
    ensures BreakAt(l + (['\n'] + rest)) == |l|
  {
    var s := l + (['\n'] + rest);
    if l == [] {
      assert s[0] == '\n';
    } else {
      assert s[0] == l[0] && s[1..] == l[1..] + (['\n'] + rest);
      BreakAfter(l[1..], rest);
    }
  }

  lemma SplitFirst(l: string, rest: string)
    requires Unbroken(l)
    ensures SplitLines(l + (['\n'] + rest)) == [l] + SplitLines(rest)
  {
    var s := l + (['\n'] + rest);
    BreakAfter(l, rest);
    assert s[..|l|] == l && s[|l|] == '\n' && s[|l| + 1..] == rest;
  }

  lemma {:induction false} SplitEnded(ls: seq<string>)
    requires forall k :: 0 <= k < |ls| ==> Unbroken(ls[k])
    ensures SplitLines(Ended(ls)) == ls
  {
    if ls != [] {
      SplitFirst(ls[0], Ended(ls[1..]));
      SplitEnded(ls[1..]);
      assert ls == [ls[0]] + ls[1..];
    }
  }

  /** The lines of a block between its braces: an empty one and its own. */
  lemma {:induction false} BlockLines(ls: seq<string>)
    requires forall k :: 0 <= k < |ls| ==> Unbroken(ls[k])
    ensures SplitLines(Inner("{" + Begun(ls) + "\n}")) == [""] + ls
  {
    var s := "{" + Begun(ls) + "\n}";
    assert s[0] == '{' && s[|s| - 1] == '}';
    assert Strip(s) == s;
    assert s[1..] == Begun(ls) + "\n}";
    var u := s[1..];
    assert u[|u| - 1] == '}' && u[..|u| - 1] == Begun(ls) + ['\n'];
    assert Inner(s) == Begun(ls) + ['\n'];
    BegunIsEnded(ls);
    SplitEnded(ls);
    assert ['\n'] + Ended(ls) == [] + (['\n'] + Ended(ls));
    SplitFirst([], Ended(ls));
  }

  lemma {:induction false} JoinedIs(lines: seq<string>, start: nat, val: string, n: nat, ls: seq<string>)
    requires start <= n <= |lines| && ls == lines[start..n]
    requires forall k :: 0 <= k < |ls| ==> Stripped(ls[k]) == ls[k]
    ensures Joined(lines, start, val, n) == val + Begun(ls)
    decreases n
  {
    if n > start {
      var front, last := lines[start..n - 1], lines[n - 1];
      LastOfPart(lines, start, n);
      assert ls == front + [last] && ls[|ls| - 1] == last;
      forall k | 0 <= k < |front| ensures front[k] == ls[k] {
      }
      JoinedIs(lines, start, val, n - 1, front);
      JoinedNext(val, front, last);
    } else {
      assert val + [] == val;
    }
  }

  lemma LastOfPart(lines: seq<string>, start: nat, n: nat)
    requires start < n <= |lines|
    ensures lines[start..n] == lines[start..n - 1] + [lines[n - 1]]
  {
  }

  lemma JoinedNext(val: string, front: seq<string>, last: string)
    ensures val + Begun(front) + ['\n'] + last == val + Begun(front + [last])
  {
    BegunNext(front, last);
    Assoc(val, Begun(front), ['\n']);
    Assoc(val, Begun(front) + ['\n'], last);
  }

  lemma BegunNext(ls: seq<string>, l: string)
    ensures Begun(ls + [l]) == Begun(ls) + ['\n'] + l
  {
    assert (ls + [l])[..|ls|] == ls;
  }

  // ---------- Parsing ----------

  /** These lines stand at a position. */
  predicate Stand(lines: seq<string>, i: nat, ls: seq<string>) {
    i + |ls| <= |lines| && lines[i..i + |ls|] == ls
  }

  lemma StandParts(lines: seq<string>, i: nat, a: seq<string>, b: seq<string>)
    requires Stand(lines, i, a + b)
    ensures Stand(lines, i, a) && Stand(lines, i + |a|, b)
  {
    var all := lines[i..i + |a + b|];
    assert lines[i..i + |a|] == all[..|a|] == a;
    assert lines[i + |a|..i + |a| + |b|] == all[|a|..] == b;
  }

  lemma ParsesInline(lines: seq<string>, i: nat, item: Item, m: map<string, Parsed>)
    requires GoodItem(item) && item.content.Inline? && Stand(lines, i, ItemLines(item))
    ensures Parsing(lines, i, m) == Parsing(lines, i + 1, m[item.key := ItemMeaning(item)])
  {
    var t := LineText(item.content.pieces);
    var line := item.key + EQUALS + t;
    assert lines[i] == lines[i..i + 1][0] == line;
    InlineLine(item.key, item.content.pieces);
    AssignsValue(item.key, t);
    AssignedShorter(line);
    assert line != CLOSE by {
      assert line[|item.key|] == ' ';
    }
    assert ValueAt(lines, i, t) == Value(ItemMeaning(item), i + 1);
  }

  /** A block is collected up to the line that closes it. */
  lemma {:induction false} BlockEnds(lines: seq<string>, i: nat, next: nat, open: string, ls: seq<string>, text: string)
    requires Even(ls) && Stand(lines, i, [open] + ls + [CLOSE])
    requires next == i + |ls| + 2 && text == "{" + Begun(ls) + "\n}"
    ensures Balanced(lines, i + 1, "{", i + 1) == next && Joined(lines, i + 1, "{", next) == text
  {
    var start := i + 1;
    BlockBetween(lines, i, start, open, ls);
    CloseLine();
    DepthOfBrace();
    NetOne(CLOSE);
    NetConcat(ls, [CLOSE]);
    DepthIsNet(lines, start, "{", next);
    forall j | start <= j < next ensures DepthAt(lines, start, "{", j) > 0 {
      DepthIsNet(lines, start, "{", j);
      assert Upto(lines, start, ls, j);
    }
    BalancedIs(lines, start, "{", start, next);
    JoinedIs(lines, start, "{", next, ls + [CLOSE]);
    assert (ls + [CLOSE])[..|ls|] == ls;
    Assoc("{", Begun(ls), "\n" + CLOSE);
    assert "\n" + CLOSE == "\n}";
    Assoc(Begun(ls), "\n", CLOSE);
  }

  predicate Upto(lines: seq<string>, start: nat, ls: seq<string>, j: nat) {
    start <= j <= |lines| && j - start <= |ls| && lines[start..j] == ls[..j - start]
  }

  lemma BlockBetween(lines: seq<string>, i: nat, start: nat, open: string, ls: seq<string>)
    requires start == i + 1 && Even(ls) && Stand(lines, i, [open] + ls + [CLOSE])
    ensures lines[i] == open && lines[i + 1..i + |ls| + 2] == ls + [CLOSE]
    ensures forall j :: start <= j < i + |ls| + 2 ==> Upto(lines, start, ls, j)
    ensures forall k :: 0 <= k <= |ls| ==> Stripped((ls + [CLOSE])[k]) == (ls + [CLOSE])[k]
  {
    Assoc([open], ls, [CLOSE]);
    StandParts(lines, i, [open], ls + [CLOSE]);
    assert lines[i] == lines[i..i + 1][0];
    var part := lines[i + 1..i + |ls| + 2];
    assert part == ls + [CLOSE];
    CloseLine();
    forall j | start <= j < i + |ls| + 2 ensures Upto(lines, start, ls, j) {
      assert lines[i + 1..j] == part[..j - i - 1];
    }
  }

  lemma DepthOfBrace()
    ensures Depth("{") == 1
  {
    TameStays("{");
    assert Plains("{") == [Plain('{')];
    assert [Plain('{')][..0] == [];
    assert PlainCount([Plain('{')], '{') == 1 && PlainCount([Plain('{')], '}') == 0;
  }

  lemma {:induction false} OpenAssigns(k: string)
    requires IsKey(k)
    ensures Assigned(k + OPEN) == Some(Assignment(k, "{")) && k + OPEN != CLOSE
  {
    AssignsValue(k, "{");
    assert k + EQUALS + "{" == k + OPEN;
    assert (k + OPEN)[|k|] == ' ';
  }

  lemma StepObject(lines: seq<string>, i: nat, key: string, m: map<string, Parsed>, next: nat, text: string, more: map<string, Parsed>)
    requires i < next <= |lines| && IsKey(key) && lines[i] == key + OPEN
    requires Balanced(lines, i + 1, "{", i + 1) == next && Joined(lines, i + 1, "{", next) == text
    requires more == m[key := Object(ObjectOf(text))]
    ensures Parsing(lines, i, m) == Parsing(lines, next, more)
  {
    OpenLine(key);
    OpenAssigns(key);
    AssignedShorter(lines[i]);
    assert LongValue("{");
    assert ValueAt(lines, i, "{") == Value(Object(ObjectOf(text)), next);
  }

  lemma BlockObject(ls: seq<string>, text: string, entries: map<string, Parsed>)
    requires text == "{" + Begun(ls) + "\n}" && entries == Parsing([""] + ls, 0, map[]).entries
    requires forall k :: 0 <= k < |ls| ==> Unbroken(ls[k])
    ensures ObjectOf(text) == entries
  {
    BlockLines(ls);
  }

  lemma {:induction false} ParsesBlock(lines: seq<string>, i: nat, next: nat, key: string, ls: seq<string>,
                                       entries: map<string, Parsed>, m: map<string, Parsed>, more: map<string, Parsed>)
    requires IsKey(key) && Even(ls) && Stand(lines, i, [key + OPEN] + ls + [CLOSE]) && next == i + |ls| + 2
    requires entries == Parsing([""] + ls, 0, map[]).entries && more == m[key := Object(entries)]
    ensures next <= |lines| && Parsing(lines, i, m) == Parsing(lines, next, more)
  {
    var text := "{" + Begun(ls) + "\n}";
    BlockBetween(lines, i, i + 1, key + OPEN, ls);
    BlockEnds(lines, i, next, key + OPEN, ls, text);
    BlockObject(ls, text, entries);
    StepObject(lines, i, key, m, next, text, more);
  }

  lemma {:induction false} BlankFirst(ls: seq<string>, m: map<string, Parsed>)
    ensures Parsing([""] + ls, 0, m) == Parsing([""] + ls, 1, m)
  {
    CleanedShorter("");
    assert Cleaned("") == "" && Assigned("").None?;
  }

  /** Printed items, wherever they stand, are read as what they say. */
  lemma {:induction false} ParsesItems(lines: seq<string>, i: nat, end: nat, items: seq<Item>, m: map<string, Parsed>, all: map<string, Parsed>)
    requires GoodItems(items) && Stand(lines, i, Lines(items)) && end == i + |Lines(items)| && all == Meaning(items, m)
    ensures Parsing(lines, i, m) == Parsing(lines, end, all)
    decreases items, 0
  {
    if items != [] {
      var item, rest := items[0], items[1..];
      var mid, more := i + |ItemLines(item)|, m[item.key := ItemMeaning(item)];
      ItemsPart(lines, i, items);
      assert end == mid + |Lines(rest)| && all == Meaning(rest, more);
      ParsesItem(lines, i, mid, item, m, more);
      ParsesItems(lines, mid, end, rest, more, all);
    }
  }

  lemma ItemsPart(lines: seq<string>, i: nat, items: seq<Item>)
    requires GoodItems(items) && items != [] && Stand(lines, i, Lines(items))
    ensures GoodItem(items[0]) && GoodItems(items[1..]) && Stand(lines, i, ItemLines(items[0]))
    ensures |Lines(items)| == |ItemLines(items[0])| + |Lines(items[1..])|
    ensures Stand(lines, i + |ItemLines(items[0])|, Lines(items[1..]))
  {
    StandParts(lines, i, ItemLines(items[0]), Lines(items[1..]));
  }

  lemma {:induction false} ParsesItem(lines: seq<string>, i: nat, end: nat, item: Item, m: map<string, Parsed>, more: map<string, Parsed>)
    requires GoodItem(item) && Stand(lines, i, ItemLines(item)) && end == i + |ItemLines(item)| && more == m[item.key := ItemMeaning(item)]
    ensures Parsing(lines, i, m) == Parsing(lines, end, more)
    decreases item, 0
  {
    match item.content
    case Inline(_) => ParsesInline(lines, i, item, m);
    case Nested(inner) =>
      var ls := Lines(inner);
      LinesAreEven(inner);
      var entries := ParsesInner(inner, ls);
      ParsesBlock(lines, i, end, item.key, ls, entries, m, more);
  }

  lemma {:induction false} ParsesInner(items: seq<Item>, ls: seq<string>) returns (entries: map<string, Parsed>)
    requires GoodItems(items) && ls == Lines(items)
    ensures entries == Parsing([""] + ls, 0, map[]).entries == Meaning(items, map[])
    decreases items, 1
  {
    var lines := [""] + ls;
    entries := Meaning(items, map[]);
    BlankFirst(ls, map[]);
    assert lines[1..] == ls && Stand(lines, 1, ls);
    ParsesItems(lines, 1, |lines|, items, map[], entries);
  }

  /** Parsing the printed lines of a whole file gives back what they say. */
  lemma {:induction false} PrintedReadsBack(items: seq<Item>)
    requires GoodItems(items)
    ensures Parsing(Lines(items), 0, map[]) == Read(Meaning(items, map[]), |Lines(items)|)
  {
    ParsesItems(Lines(items), 0, |Lines(items)|, items, map[], Meaning(items, map[]));
  }

  /** So it does with comments and trailing space on the lines. */
  lemma {:induction false} CommentedReadsBack(items: seq<Item>, lines: seq<string>)
    requires GoodItems(items) && SameCode(lines, Lines(items))
    ensures Parsing(lines, 0, map[]) == Read(Meaning(items, map[]), |lines|)
  {
    PrintedReadsBack(items);
    CommentsDoNotMatter(lines, Lines(items), 0, map[]);
  }
}
