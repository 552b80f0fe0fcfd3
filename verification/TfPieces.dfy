/** What the line scanners make of a line put together from plain characters, escapes and quoted strings. */
module TfPieces {
  import opened Text
  import opened TfScan

  /** A character outside strings, an escaped one, or a string with what stands between its quotes. */
  datatype Piece = Plain(c: char) | Escaped(c: char) | Quoted(quote: char, body: seq<Body>)

  /** A character of a string, escaped or not. */
  datatype Body = Raw(c: char) | Hidden(c: char)

  function BodyText(b: Body): string {
    match b case Raw(c) => [c] case Hidden(c) => ['\\', c]
  }

  function BodiesText(bs: seq<Body>): string {
    if bs == [] then [] else BodiesText(bs[..|bs| - 1]) + BodyText(bs[|bs| - 1])
  }

  function PieceText(p: Piece): string {
    match p
    case Plain(c) => [c]
    case Escaped(c) => ['\\', c]
    case Quoted(q, body) => [q] + BodiesText(body) + [q]
  }

  function LineText(ps: seq<Piece>): string {
    if ps == [] then [] else LineText(ps[..|ps| - 1]) + PieceText(ps[|ps| - 1])
  }

  predicate GoodBodies(q: char, bs: seq<Body>) {
    forall i :: 0 <= i < |bs| && bs[i].Raw? ==> bs[i].c != q && bs[i].c != '\\'
  }

  /** Plain characters are no quotes and no backslash; a string ends at its first unescaped quote. */
  predicate Good(p: Piece) {
    match p
    case Plain(c) => c != '\\' && c != '"' && c != '\''
    case Escaped(_) => true
    case Quoted(q, body) => (q == '"' || q == '\'') && GoodBodies(q, body)
  }

  predicate AllGood(ps: seq<Piece>) {
    forall i :: 0 <= i < |ps| ==> Good(ps[i])
  }

  // ---------- The state after a piece ----------

  function Run(st: State, s: string): State {
    if s == [] then st else Step(Run(st, s[..|s| - 1]), s[|s| - 1])
  }

  lemma {:induction false} RunConcat(st: State, s: string, t: string)
    ensures Run(st, s + t) == Run(Run(st, s), t)
    decreases |t|
  {
    if t == [] {
      assert s + t == s;
    } else {
      assert (s + t)[..|s + t| - 1] == s + t[..|t| - 1];
      RunConcat(st, s, t[..|t| - 1]);
    }
  }

  lemma {:induction false} StateIsRun(s: string)
    ensures StateAfter(s) == Run(START, s)
    decreases |s|
  {
    if s != [] {
      StateIsRun(s[..|s| - 1]);
    }
  }

  lemma RunOne(st: State, c: char)
    ensures Run(st, [c]) == Step(st, c)
  {
    assert [c][..0] == [];
    assert Run(st, [c][..0]) == st;
  }

  lemma RunTwo(st: State, c: char, d: char)
    ensures Run(st, [c, d]) == Step(Step(st, c), d)
  {
    assert [c, d] == [c] + [d];
    RunConcat(st, [c], [d]);
    RunOne(st, c);
    RunOne(Step(st, c), d);
  }

  /** The state inside a string. */
  function InString(q: char): State {
    State(q == '\'', q == '"', false)
  }

  lemma {:induction false} StaysInString(q: char, bs: seq<Body>)
    requires (q == '"' || q == '\'') && GoodBodies(q, bs)
    ensures Run(InString(q), BodiesText(bs)) == InString(q)
    decreases |bs|
  {
    if bs != [] {
      var n := |bs| - 1;
      StaysInString(q, bs[..n]);
      RunConcat(InString(q), BodiesText(bs[..n]), BodyText(bs[n]));
      match bs[n]
      case Raw(c) => RunOne(InString(q), c);
      case Hidden(c) => RunTwo(InString(q), '\\', c);
    }
  }

  lemma {:induction false} PieceEnds(p: Piece)
    requires Good(p)
    ensures Run(START, PieceText(p)) == START
  {
    match p
    case Plain(c) => RunOne(START, c);
    case Escaped(c) => RunTwo(START, '\\', c);
    case Quoted(q, body) =>
      RunConcat(START, [q] + BodiesText(body), [q]);
      RunConcat(START, [q], BodiesText(body));
      RunOne(START, q);
      StaysInString(q, body);
      RunOne(InString(q), q);
  }

  lemma {:induction false} LineEnds(ps: seq<Piece>)
    requires AllGood(ps)
    ensures StateAfter(LineText(ps)) == START
  {
    StateIsRun(LineText(ps));
    if ps != [] {
      var n := |ps| - 1;
      LineEnds(ps[..n]);
      StateIsRun(LineText(ps[..n]));
      RunConcat(START, LineText(ps[..n]), PieceText(ps[n]));
      PieceEnds(ps[n]);
    }
  }

  /** Nowhere in a string, its closing quote included, is one outside of strings. */
  lemma {:induction false} ClosedInside(q: char, bs: seq<Body>, n: nat)
    requires (q == '"' || q == '\'') && GoodBodies(q, bs) && n <= |BodiesText(bs)|
    ensures !Open(Run(InString(q), BodiesText(bs)[..n]))
    decreases |bs|
  {
    if bs == [] {
      assert BodiesText(bs)[..n] == [];
    } else {
      var k := |bs| - 1;
      var front, last := BodiesText(bs[..k]), BodyText(bs[k]);
      assert BodiesText(bs) == front + last;
      if n <= |front| {
        ClosedInside(q, bs[..k], n);
        assert (front + last)[..n] == front[..n];
      } else {
        ClosedAfter(q, bs[..k], bs[k], n - |front|);
        assert (front + last)[..n] == front + last[..n - |front|];
      }
    }
  }

  lemma ClosedAfter(q: char, bs: seq<Body>, b: Body, n: nat)
    requires (q == '"' || q == '\'') && GoodBodies(q, bs) && GoodBodies(q, [b]) && 0 < n <= |BodyText(b)|
    ensures !Open(Run(InString(q), BodiesText(bs) + BodyText(b)[..n]))
  {
    StaysInString(q, bs);
    RunConcat(InString(q), BodiesText(bs), BodyText(b)[..n]);
    PartOfBody(q, b, n);
  }

  lemma PartOfBody(q: char, b: Body, n: nat)
    requires (q == '"' || q == '\'') && GoodBodies(q, [b]) && 0 < n <= |BodyText(b)|
    ensures !Open(Run(InString(q), BodyText(b)[..n]))
  {
    assert [b][0] == b;
    match b
    case Raw(c) =>
      assert BodyText(b)[..n] == [c];
      RunOne(InString(q), c);
    case Hidden(c) =>
      RunOne(InString(q), '\\');
      RunTwo(InString(q), '\\', c);
      assert BodyText(b)[..n] == ['\\'] || BodyText(b)[..n] == ['\\', c];
  }

  /** Inside a piece, after its first character, one is never outside of strings. */
  lemma {:induction false} ClosedInPiece(p: Piece, n: nat)
    requires Good(p) && 0 < n < |PieceText(p)|
    ensures !Open(Run(START, PieceText(p)[..n]))
  {
    match p
    case Plain(_) =>
    case Escaped(c) =>
      assert PieceText(p)[..n] == ['\\'];
      RunOne(START, '\\');
    case Quoted(q, body) =>
      assert PieceText(p)[..n] == [q] + BodiesText(body)[..n - 1];
      RunConcat(START, [q], BodiesText(body)[..n - 1]);
      RunOne(START, q);
      ClosedInside(q, body, n - 1);
  }

  // ---------- Comments ----------

  predicate StartsSlash(s: string) {
    s != [] && s[0] == '/'
  }

  /** No plain number sign, and no two plain slashes in a row, the text that follows included. */
  predicate NoComment(ps: seq<Piece>, tail: string) {
    && (forall i :: 0 <= i < |ps| ==> ps[i] != Plain('#'))
    && (forall i :: 0 <= i < |ps| - 1 ==> !(ps[i] == Plain('/') && ps[i + 1] == Plain('/')))
    && (ps != [] && ps[|ps| - 1] == Plain('/') ==> !StartsSlash(tail))
  }

  lemma {:induction false} NoCommentInPiece(a: string, p: Piece, tail: string, j: nat)
    requires StateAfter(a) == START && Good(p) && p != Plain('#') && (p == Plain('/') ==> !StartsSlash(tail))
    requires |a| <= j < |a| + |PieceText(p)|
    ensures !CommentAt(a + (PieceText(p) + tail), j)
  {
    var t := PieceText(p);
    var s := a + (t + tail);
    var n := j - |a|;
    assert s[j] == t[n] && s[..j] == a + t[..n];
    if n > 0 {
      StateIsRun(a);
      StateIsRun(s[..j]);
      RunConcat(START, a, t[..n]);
      ClosedInPiece(p, n);
    } else if p.Plain? && p.c == '/' && j + 1 < |s| {
      assert s[j + 1] == tail[0];
    }
  }

  lemma NoCommentBefore(ps: seq<Piece>, tail: string)
    requires AllGood(ps) && NoComment(ps, tail) && ps != []
    ensures var n := |ps| - 1;
      AllGood(ps[..n]) && NoComment(ps[..n], PieceText(ps[n]) + tail)
  {
    var n := |ps| - 1;
    var t := PieceText(ps[n]);
    assert t != [] && (t + tail)[0] == t[0];
    if n > 0 {
      assert ps[..n][n - 1] == ps[n - 1];
    }
  }

  /** No comment starts in the pieces. */
  lemma {:induction false} NoCommentIn(ps: seq<Piece>, tail: string, j: nat)
    requires AllGood(ps) && NoComment(ps, tail) && j < |LineText(ps)|
    ensures !CommentAt(LineText(ps) + tail, j)
    decreases |ps|
  {
    var n := |ps| - 1;
    var front, p := LineText(ps[..n]), ps[n];
    assert LineText(ps) + tail == front + (PieceText(p) + tail);
    if j < |front| {
      NoCommentBefore(ps, tail);
      NoCommentIn(ps[..n], PieceText(p) + tail, j);
    } else {
      LineEnds(ps[..n]);
      NoCommentInPiece(front, p, tail, j);
    }
  }

  predicate Mark(ps: seq<Piece>, mark: string) {
    mark == "#" || (mark == "//" && (ps != [] ==> ps[|ps| - 1] != Plain('/')))
  }

  /** A comment, with either mark, is cut off behind any pieces without one, and the space before it with
      it: marks inside strings or behind a backslash do not count. */
  lemma {:induction false} CommentIsCut(ps: seq<Piece>, mark: string, rest: string)
    requires AllGood(ps) && NoComment(ps, []) && Mark(ps, mark)
    ensures Stripped(LineText(ps) + (mark + rest)) == Rstrip(LineText(ps))
  {
    var line, tail := LineText(ps), mark + rest;
    var s := line + tail;
    forall j: nat | j < |line| ensures !CommentAt(s, j) {
      NoCommentIn(ps, tail, j);
    }
    LineEnds(ps);
    assert s[..|line|] == line && s[|line|] == mark[0];
    assert mark == "//" ==> s[|line| + 1] == mark[1];
    assert CommentAt(s, |line|);
    assert CommentStart(s) == |line|;
  }

  /** Without a comment only the space at the end goes. */
  lemma {:induction false} NothingIsCut(ps: seq<Piece>)
    requires AllGood(ps) && NoComment(ps, [])
    ensures Stripped(LineText(ps)) == Rstrip(LineText(ps))
  {
    var line := LineText(ps);
    assert line + [] == line && line[..|line|] == line;
    forall j: nat | j < |line| ensures !CommentAt(line, j) {
      NoCommentIn(ps, [], j);
    }
    assert CommentStart(line) == |line|;
  }

  // ---------- Braces ----------

  /** How often a character stands plain among the pieces. */
  function PlainCount(ps: seq<Piece>, c: char): nat {
    if ps == [] then 0 else PlainCount(ps[..|ps| - 1], c) + if ps[|ps| - 1] == Plain(c) then 1 else 0
  }

  lemma {:induction false} CountInPiece(a: string, p: Piece, c: char, n: nat)
    requires StateAfter(a) == START && Good(p) && c != '\\' && c != '"' && c != '\'' && n <= |PieceText(p)|
    ensures Count(a + PieceText(p)[..n], c) == Count(a, c) + if n > 0 && p == Plain(c) then 1 else 0
    decreases n
  {
    var t := PieceText(p);
    if n == 0 {
      assert a + t[..0] == a;
    } else {
      var k := n - 1;
      var s := a + t[..n];
      assert s[..|s| - 1] == a + t[..k] && s[|s| - 1] == t[k];
      CountInPiece(a, p, c, k);
      StateIsRun(a);
      StateIsRun(a + t[..k]);
      RunConcat(START, a, t[..k]);
      if k > 0 {
        ClosedInPiece(p, k);
      } else {
        assert a + t[..0] == a;
      }
    }
  }

  lemma PieceCounts(a: string, p: Piece, c: char)
    requires StateAfter(a) == START && Good(p) && c != '\\' && c != '"' && c != '\''
    ensures Count(a + PieceText(p), c) == Count(a, c) + if p == Plain(c) then 1 else 0
  {
    var t := PieceText(p);
    CountInPiece(a, p, c, |t|);
    assert t[..|t|] == t && t != [];
  }

  /** The braces counted are the plain ones: none inside strings or behind a backslash. */
  lemma {:induction false} CountIsPlain(ps: seq<Piece>, c: char)
    requires AllGood(ps) && c != '\\' && c != '"' && c != '\''
    ensures Count(LineText(ps), c) == PlainCount(ps, c)
    decreases |ps|
  {
    if ps != [] {
      var n := |ps| - 1;
      var front, p := LineText(ps[..n]), ps[n];
      assert p == ps[n] && LineText(ps) == front + PieceText(p);
      CountIsPlain(ps[..n], c);
      LineEnds(ps[..n]);
      PieceCounts(front, p, c);
    }
  }
}
