/** The quote-aware line scanners of hack/scripts/tf2yaml.py. */
module TfScan {
  import opened Text

  /** Inside single quotes, inside double quotes, right after a backslash. */
  datatype State = State(single: bool, double: bool, escaped: bool)

  const START := State(false, false, false)

  /** One character further; a backslash hides the next character even outside quotes. */
  function Step(st: State, c: char): State {
    if st.escaped then st.(escaped := false)
    else if c == '\\' then st.(escaped := true)
    else if c == '"' && !st.single then st.(double := !st.double)
    else if c == '\'' && !st.double then st.(single := !st.single)
    else st
  }

  function StateAfter(s: string): State {
    if s == [] then START else Step(StateAfter(s[..|s| - 1]), s[|s| - 1])
  }

  /** Outside any string. */
  predicate Open(st: State) {
    !st.single && !st.double && !st.escaped
  }

  lemma StateNext(s: string, i: nat)
    requires i < |s|
    ensures StateAfter(s[..i + 1]) == Step(StateAfter(s[..i]), s[i])
  {
    assert s[..i + 1][..i] == s[..i];
  }

  // ---------- Comments ----------

  predicate CommentAt(s: string, i: nat)
    requires i < |s|
  {
    Open(StateAfter(s[..i])) && (s[i] == '#' || (s[i] == '/' && i + 1 < |s| && s[i + 1] == '/'))
  }

  /** The first comment at or after a position, or the end. */
  function CommentFrom(s: string, i: nat): (c: nat)
    requires i <= |s|
    ensures i <= c <= |s|
    ensures c < |s| ==> CommentAt(s, c)
    ensures forall j: nat :: i <= j < c ==> !CommentAt(s, j)
    decreases |s| - i
  {
    if i == |s| || CommentAt(s, i) then i else CommentFrom(s, i + 1)
  }

  function CommentStart(s: string): nat {
    CommentFrom(s, 0)
  }

  function Stripped(s: string): string {
    Rstrip(s[..CommentStart(s)])
  }

  /** strip_inline_comments. */
  method StripInlineComments(s: string) returns (r: string)
    ensures r == Stripped(s)
  {
    var out, i, inSingle, inDouble := "", 0, false, false;
    while i < |s|
      invariant 0 <= i <= |s| && out == s[..i]
      invariant i < |s| ==> StateAfter(s[..i]) == State(inSingle, inDouble, false)
      invariant CommentFrom(s, 0) == CommentFrom(s, i)
      decreases |s| - i
    {
      var ch := s[i];
      StateNext(s, i);
      if ch == '\\' && i + 1 < |s| {
        StateNext(s, i + 1);
        assert !CommentAt(s, i) && !CommentAt(s, i + 1);
        out, i := out + [ch, s[i + 1]], i + 2;
        continue;
      }
      if !inSingle && ch == '"' {
        inDouble := !inDouble;
        out, i := out + [ch], i + 1;
        continue;
      }
      if !inDouble && ch == '\'' {
        inSingle := !inSingle;
        out, i := out + [ch], i + 1;
        continue;
      }
      if !inSingle && !inDouble && (ch == '#' || (ch == '/' && i + 1 < |s| && s[i + 1] == '/')) {
        break;
      }
      out, i := out + [ch], i + 1;
    }
    return Rstrip(out);
  }

  // ---------- Braces ----------

  /** How often a character stands outside strings. */
  function Count(s: string, c: char): nat {
    if s == [] then 0
    else Count(s[..|s| - 1], c) + if s[|s| - 1] == c && Open(StateAfter(s[..|s| - 1])) then 1 else 0
  }

  /** count_braces_outside_strings. */
  method CountBraces(s: string) returns (opens: nat, closes: nat)
    ensures opens == Count(s, '{') && closes == Count(s, '}')
  {
    opens, closes := 0, 0;
    var inSingle, inDouble, esc := false, false, false;
    for i := 0 to |s|
      invariant StateAfter(s[..i]) == State(inSingle, inDouble, esc) && !(inSingle && inDouble)
      invariant opens == Count(s[..i], '{') && closes == Count(s[..i], '}')
    {
      var ch := s[i];
      assert s[..i + 1][..i] == s[..i];
      if esc {
        esc := false;
        continue;
      }
      if ch == '\\' {
        esc := true;
        continue;
      }
      if !inSingle && ch == '"' && !inDouble {
        inDouble := true;
        continue;
      } else if inDouble && ch == '"' {
        inDouble := false;
        continue;
      }
      if !inDouble && ch == '\'' && !inSingle {
        inSingle := true;
        continue;
      } else if inSingle && ch == '\'' {
        inSingle := false;
        continue;
      }
      if inSingle || inDouble {
        continue;
      }
      if ch == '{' {
        opens := opens + 1;
      } else if ch == '}' {
        closes := closes + 1;
      }
    }
    assert s[..|s|] == s;
  }

  // ---------- Laws ----------

  lemma {:induction false} RstripShape(s: string)
    ensures Rstrip(s) <= s && Rstrip(Rstrip(s)) == Rstrip(s)
    ensures forall i :: |Rstrip(s)| <= i < |s| ==> IsBlankChar(s[i])
    decreases |s|
  {
    if s != [] && IsBlankChar(s[|s| - 1]) {
      RstripShape(s[..|s| - 1]);
    }
  }

  /** No comment starts in a stripped line: a comment in a prefix is one in the whole. */
  lemma {:induction false} NoCommentLeft(s: string, t: string)
    requires t <= s[..CommentStart(s)]
    ensures CommentStart(t) == |t|
  {
    forall i: nat | i < |t| ensures !CommentAt(t, i) {
      assert t[..i] == s[..i] && !CommentAt(s, i);
    }
  }

  /** Stripping gives a right-trimmed prefix of the line, without comments; doing it again changes
      nothing. */
  lemma {:induction false} StripTwice(s: string)
    ensures Stripped(s) <= s && Stripped(Stripped(s)) == Stripped(s)
    ensures CommentStart(Stripped(s)) == |Stripped(s)|
  {
    var line := s[..CommentStart(s)];
    RstripShape(line);
    NoCommentLeft(s, Stripped(s));
    assert Stripped(s)[..|Stripped(s)|] == Stripped(s);
  }

  lemma {:induction false} CountBlank(s: string, c: char, n: nat)
    requires n <= |s| && !IsBlankChar(c) && forall i :: n <= i < |s| ==> IsBlankChar(s[i])
    ensures Count(s, c) == Count(s[..n], c)
    decreases |s|
  {
    if n < |s| {
      CountBlank(s[..|s| - 1], c, n);
      assert s[..|s| - 1][..n] == s[..n];
    } else {
      assert s[..n] == s;
    }
  }

  /** Braces counted on the stripped line are exactly those outside strings before the comment. */
  lemma {:induction false} StrippedCount(s: string, c: char)
    requires !IsBlankChar(c)
    ensures Count(Stripped(s), c) == Count(s[..CommentStart(s)], c)
  {
    var line := s[..CommentStart(s)];
    RstripShape(line);
    CountBlank(line, c, |Rstrip(line)|);
    assert line[..|Rstrip(line)|] == Rstrip(line);
  }

  /** How often a character stands outside strings from a position on. */
  function CountFrom(s: string, n: nat, c: char): nat
    requires n <= |s|
    decreases |s|
  {
    if n == |s| then 0
    else CountFrom(s[..|s| - 1], n, c) + if s[|s| - 1] == c && Open(StateAfter(s[..|s| - 1])) then 1 else 0
  }

  lemma {:induction false} CountSplits(s: string, n: nat, c: char)
    requires n <= |s|
    ensures Count(s, c) == Count(s[..n], c) + CountFrom(s, n, c)
    decreases |s|
  {
    if n < |s| {
      CountSplits(s[..|s| - 1], n, c);
      assert s[..|s| - 1][..n] == s[..n];
    } else {
      assert s[..n] == s;
    }
  }

  /** Counting on the raw line, as the module and locals parsers do, also counts what looks like
      braces in its comment: the two counts agree exactly when there are none. */
  lemma {:induction false} RawCountAgrees(s: string, c: char)
    requires !IsBlankChar(c)
    ensures Count(s, c) == Count(Stripped(s), c) <==> CountFrom(s, CommentStart(s), c) == 0
    ensures Count(s, c) >= Count(Stripped(s), c)
  {
    StrippedCount(s, c);
    CountSplits(s, CommentStart(s), c);
  }

  /** A brace in a comment throws the raw count off. */
  lemma BraceInComment()
    ensures Count("#{", '{') == 1 && Count(Stripped("#{"), '{') == 0
  {
    var s := "#{";
    assert s[..0] == [] && s[..1] == "#";
    assert CommentAt(s, 0);
    assert StateAfter("#"[..0]) == START;
    assert StateAfter("#") == START;
    assert Count("#"[..0], '{') == 0;
    assert Count(s[..1], '{') == 0;
  }
}
