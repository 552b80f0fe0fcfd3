/** Front-matter quoting and the replacement of the generated directory (cmd/docs/generate.go). */
module DocsGenerate {
  import opened Text

  // ---------- Quoting ----------

  /** strings.ReplaceAll of one character. */
  function ReplaceAll(s: string, c: char, text: string): string {
    if s == [] then [] else (if s[0] == c then text else [s[0]]) + ReplaceAll(s[1..], c, text)
  }

  /** yamlQuote: five passes, the backslash first. */
  function YamlQuote(value: string): string {
    var v1 := ReplaceAll(value, '\\', "\\\\");
    var v2 := ReplaceAll(v1, '"', "\\\"");
    var v3 := ReplaceAll(v2, '\n', "\\n");
    var v4 := ReplaceAll(v3, '\r', "\\r");
    var v5 := ReplaceAll(v4, '\t', "\\t");
    "\"" + v5 + "\""
  }

  /** One pass: each character escaped by itself. */
  function EscapeChar(c: char): string {
    if c == '\\' then "\\\\"
    else if c == '"' then "\\\""
    else if c == '\n' then "\\n"
    else if c == '\r' then "\\r"
    else if c == '\t' then "\\t"
    else [c]
  }

  function Escape(s: string): string {
    if s == [] then [] else EscapeChar(s[0]) + Escape(s[1..])
  }

  lemma {:induction false} ReplaceConcat(a: string, b: string, c: char, text: string)
    ensures ReplaceAll(a + b, c, text) == ReplaceAll(a, c, text) + ReplaceAll(b, c, text)
  {
    if a == [] {
      assert a + b == b;
    } else {
      assert (a + b)[1..] == a[1..] + b;
      ReplaceConcat(a[1..], b, c, text);
    }
  }

  function Passes(s: string): string {
    ReplaceAll(ReplaceAll(ReplaceAll(ReplaceAll(ReplaceAll(s, '\\', "\\\\"), '"', "\\\""), '\n', "\\n"), '\r', "\\r"), '\t', "\\t")
  }

  lemma {:induction false} PassesConcat(a: string, b: string)
    ensures Passes(a + b) == Passes(a) + Passes(b)
  {
    var a1, b1 := ReplaceAll(a, '\\', "\\\\"), ReplaceAll(b, '\\', "\\\\");
    var a2, b2 := ReplaceAll(a1, '"', "\\\""), ReplaceAll(b1, '"', "\\\"");
    var a3, b3 := ReplaceAll(a2, '\n', "\\n"), ReplaceAll(b2, '\n', "\\n");
    var a4, b4 := ReplaceAll(a3, '\r', "\\r"), ReplaceAll(b3, '\r', "\\r");
    ReplaceConcat(a, b, '\\', "\\\\");
    ReplaceConcat(a1, b1, '"', "\\\"");
    ReplaceConcat(a2, b2, '\n', "\\n");
    ReplaceConcat(a3, b3, '\r', "\\r");
    ReplaceConcat(a4, b4, '\t', "\\t");
  }

  /** Replacing a character that is not there. */
  lemma {:induction false} ReplaceNothing(s: string, c: char, text: string)
    requires c !in s
    ensures ReplaceAll(s, c, text) == s
  {
    if s != [] {
      ReplaceNothing(s[1..], c, text);
    }
  }

  lemma {:induction false} ReplaceOne(c: char, text: string)
    ensures ReplaceAll([c], c, text) == text
  {
    assert [c][1..] == [];
    assert text + [] == text;
  }

  lemma {:induction false} PassesOne(c: char)
    ensures Passes([c]) == EscapeChar(c)
  {
    var s1 := if c == '\\' then "\\\\" else [c];
    var s2 := if c == '"' then "\\\"" else s1;
    var s3 := if c == '\n' then "\\n" else s2;
    var s4 := if c == '\r' then "\\r" else s3;
    OnePass(c, [c], '\\', "\\\\");
    OnePass(c, s1, '"', "\\\"");
    OnePass(c, s2, '\n', "\\n");
    OnePass(c, s3, '\r', "\\r");
    OnePass(c, s4, '\t', "\\t");
  }

  lemma OnePass(c: char, s: string, x: char, text: string)
    requires if c == x then s == [c] else x !in s
    ensures ReplaceAll(s, x, text) == if c == x then text else s
  {
    if c == x {
      ReplaceOne(x, text);
    } else {
      ReplaceNothing(s, x, text);
    }
  }

  /** The five passes are one pass: no pass touches what an earlier one wrote. */
  lemma {:induction false} PassesAreOne(s: string)
    ensures Passes(s) == Escape(s)
    ensures YamlQuote(s) == "\"" + Escape(s) + "\""
  {
    if s != [] {
      assert s == [s[0]] + s[1..];
      PassesConcat([s[0]], s[1..]);
      PassesOne(s[0]);
      PassesAreOne(s[1..]);
    }
  }

  // ---------- Reading a quoted scalar back ----------

  /** The one-character escapes of section 5.7 of YAML 1.2.2 that stand for themselves here; the rest
      are never written. */
  function Unescaped(c: char): Option<char> {
    if c == '\\' || c == '"' || c == '/' || c == ' ' then Some(c)
    else if c == 'n' then Some('\n')
    else if c == 'r' then Some('\r')
    else if c == 't' || c == '\t' then Some('\t')
    else if c == '0' then Some('\0')
    else if c == 'a' then Some('\U{7}')
    else if c == 'b' then Some('\U{8}')
    else if c == 'v' then Some('\U{B}')
    else if c == 'f' then Some('\U{C}')
    else if c == 'e' then Some('\U{1B}')
    else if c == 'N' then Some('\U{85}')
    else if c == '_' then Some('\U{A0}')
    else None
  }

  /** A character a double-quoted scalar may hold on a line: production nb-json of section 5.1. */
  predicate IsJson(c: char) {
    c == '\t' || c >= ' '
  }

  /** A one-line double-quoted scalar (section 7.3.1), from after the opening quote to the end of the text. */
  function Decode(s: string): Option<string> {
    if s == [] then None
    else if s[0] == '"' then if s == "\"" then Some("") else None
    else if s[0] == '\\' then
      if |s| == 1 || Unescaped(s[1]).None? || Decode(s[2..]).None? then None
      else Some([Unescaped(s[1]).value] + Decode(s[2..]).value)
    else if !IsJson(s[0]) || Decode(s[1..]).None? then None
    else Some([s[0]] + Decode(s[1..]).value)
  }

  function DecodeScalar(s: string): Option<string> {
    if s == [] || s[0] != '"' then None else Decode(s[1..])
  }

  /** A piece of such a scalar: a character as it is, or one after a backslash. */
  datatype Piece = Raw(c: char) | Escaped(c: char)

  predicate Legal(p: Piece) {
    match p
    case Raw(c) => IsJson(c) && c != '"' && c != '\\'
    case Escaped(c) => Unescaped(c).Some?
  }

  predicate AllLegal(ps: seq<Piece>) {
    forall i :: 0 <= i < |ps| ==> Legal(ps[i])
  }

  function Spelled(ps: seq<Piece>): string {
    if ps == [] then []
    else (match ps[0] case Raw(c) => [c] case Escaped(c) => ['\\', c]) + Spelled(ps[1..])
  }

  function Meant(ps: seq<Piece>): string
    requires AllLegal(ps)
  {
    if ps == [] then []
    else
      assert Legal(ps[0]);
      [match ps[0] case Raw(c) => c case Escaped(c) => Unescaped(c).value] + Meant(ps[1..])
  }

  /** The pieces that spell a scalar. */
  ghost predicate Spells(ps: seq<Piece>, s: string, x: string) {
    AllLegal(ps) && s == Spelled(ps) + "\"" && x == Meant(ps)
  }

  lemma {:induction false} SpelledDecodes(ps: seq<Piece>)
    requires AllLegal(ps)
    ensures Decode(Spelled(ps) + "\"") == Some(Meant(ps))
  {
    if ps == [] {
      assert Spelled(ps) + "\"" == "\"";
    } else {
      var all, rest := Spelled(ps) + "\"", Spelled(ps[1..]) + "\"";
      assert Legal(ps[0]);
      SpelledDecodes(ps[1..]);
      match ps[0]
      case Raw(c) => assert all[0] == c && all[1..] == rest;
      case Escaped(c) => assert all[0] == '\\' && all[1] == c && all[2..] == rest;
    }
  }

  /** How a text that decodes is spelled. */
  lemma {:induction false} DecodesSpelled(s: string) returns (ps: seq<Piece>)
    requires Decode(s).Some?
    ensures Spells(ps, s, Decode(s).value)
    decreases |s|
  {
    if s[0] == '"' {
      return [];
    }
    if s[0] == '\\' {
      var rest := DecodesSpelled(s[2..]);
      ps := [Escaped(s[1])] + rest;
      assert ps[1..] == rest && s == ['\\', s[1]] + s[2..];
    } else {
      var rest := DecodesSpelled(s[1..]);
      ps := [Raw(s[0])] + rest;
      assert ps[1..] == rest && s == [s[0]] + s[1..];
    }
  }

  /** A text reads as a value exactly if it is a closing quote after legal pieces that mean the value. */
  lemma {:induction false} DecodeIff(s: string, x: string)
    ensures Decode(s) == Some(x) <==> exists ps :: Spells(ps, s, x)
  {
    if Decode(s) == Some(x) {
      var ps := DecodesSpelled(s);
    }
    if ps :| Spells(ps, s, x) {
      SpelledDecodes(ps);
    }
  }

  /** Control characters that are neither escaped nor allowed as they are. */
  predicate Clean(s: string) {
    forall i :: 0 <= i < |s| ==> IsJson(s[i]) || s[i] == '\n' || s[i] == '\r'
  }

  lemma {:induction false} DecodeEscape(s: string)
    ensures Decode(Escape(s) + "\"") == if Clean(s) then Some(s) else None
  {
    if s == [] {
      assert Escape(s) + "\"" == "\"";
    } else {
      var rest := Escape(s[1..]) + "\"";
      DecodeEscape(s[1..]);
      DecodeOne(s[0], rest);
      assert Escape(s) + "\"" == EscapeChar(s[0]) + rest;
      CleanRest(s);
      assert s == [s[0]] + s[1..];
    }
  }

  lemma CleanRest(s: string)
    requires s != []
    ensures Clean(s) <==> Clean(s[1..]) && (IsJson(s[0]) || s[0] == '\n' || s[0] == '\r')
  {
    var rest := s[1..];
    assert forall i :: 0 < i < |s| ==> s[i] == rest[i - 1];
    assert forall i :: 0 <= i < |rest| ==> rest[i] == s[i + 1];
  }

  lemma {:induction false} DecodeOne(c: char, rest: string)
    requires rest != []
    ensures Decode(EscapeChar(c) + rest)
         == if (IsJson(c) || c == '\n' || c == '\r') && Decode(rest).Some? then Some([c] + Decode(rest).value) else None
  {
    var e := EscapeChar(c);
    var all := e + rest;
    if |e| == 2 {
      assert all[0] == e[0] && all[1] == e[1] && all[2..] == rest;
    } else {
      assert all[0] == c && all[1..] == rest;
    }
  }

  /** A quoted value reads back as itself, exactly if it has no control characters other than tab and
      the two line breaks; with one, the quoted text is no YAML scalar. */
  lemma {:induction false} QuoteReadsBack(s: string)
    ensures DecodeScalar(YamlQuote(s)) == if Clean(s) then Some(s) else None
  {
    PassesAreOne(s);
    DecodeEscape(s);
    assert YamlQuote(s)[1..] == Escape(s) + "\"";
  }

  /** Undoing the escapes alone. */
  function Unescape(s: string): string {
    if s == [] then []
    else if s[0] == '\\' && |s| > 1 && Unescaped(s[1]).Some? then [Unescaped(s[1]).value] + Unescape(s[2..])
    else [s[0]] + Unescape(s[1..])
  }

  lemma {:induction false} UnescapeOne(c: char, rest: string)
    ensures Unescape(EscapeChar(c) + rest) == [c] + Unescape(rest)
  {
    var e := EscapeChar(c);
    var all := e + rest;
    if |e| == 2 {
      assert all[0] == '\\' && all[1] == e[1] && all[2..] == rest;
    } else {
      assert all[0] == c && all[1..] == rest;
    }
  }

  /** Undone, the escapes give back any value at all. */
  lemma {:induction false} EscapesReadBack(s: string)
    ensures Unescape(Escape(s)) == s
  {
    if s != [] {
      EscapesReadBack(s[1..]);
      UnescapeOne(s[0], Escape(s[1..]));
      assert s == [s[0]] + s[1..];
    }
  }

  /** Different values are quoted differently. */
  lemma {:induction false} QuoteIsInjective(s: string, t: string)
    requires YamlQuote(s) == YamlQuote(t)
    ensures s == t
  {
    PassesAreOne(s);
    PassesAreOne(t);
    assert YamlQuote(s)[1..|YamlQuote(s)| - 1] == Escape(s);
    assert YamlQuote(t)[1..|YamlQuote(t)| - 1] == Escape(t);
    EscapesReadBack(s);
    EscapesReadBack(t);
  }

  // ---------- Replacing a directory ----------

  /** What a directory holds, by file name. */
  type Contents = map<string, string>

  /** How the file system calls of a replacement turn out; left is what RemoveAll leaves when it fails,
      the names of some of the files. */
  datatype Luck = Luck(made: bool, cleared: bool, statKnown: bool, moveOld: bool, install: bool, restore: bool,
                       removed: bool, left: set<string>)

  /** The files with the names given. */
  function Only(c: Contents, names: set<string>): Contents {
    map f | f in c && f in names :: c[f]
  }

  /** What is at each of the three places of replaceGeneratedDirectory, if anything. */
  class Places {
    var stage: Option<Contents>
    var output: Option<Contents>
    var backup: Option<Contents>

    constructor (stage: Contents, output: Option<Contents>)
      ensures this.stage == Some(stage) && this.output == output && backup == None
    {
      this.stage, this.output, backup := Some(stage), output, None;
    }

    /** replaceGeneratedDirectory. The name for the backup is reserved by making a directory and
        removing it again; that directory stays behind, empty, if it cannot be removed. */
    method Replace(luck: Luck) returns (ok: bool)
      requires stage.Some? && backup.None?
      modifies this
      ensures ok <==> luck.made && luck.cleared && luck.statKnown && (old(output).Some? ==> luck.moveOld) && luck.install
      ensures ok ==> output == old(stage) && stage == None
      ensures ok ==> backup == if old(output).None? || luck.removed then None else Some(Only(old(output).value, luck.left))
      ensures !ok ==> stage == old(stage) && (output == old(output) || (output == None && backup == old(output)))
      ensures !ok ==> (output == old(output) <==> old(output).None? || !luck.made || !luck.cleared || !luck.statKnown || !luck.moveOld || luck.restore)
      ensures !ok && output == old(output) ==> backup == if luck.made && !luck.cleared then Some(map[]) else None
    {
      if !luck.made {
        return false;
      }
      backup := Some(map[]);
      if !luck.cleared {
        return false;
      }
      backup := None;
      var oldMoved := false;
      if !luck.statKnown {
        return false;
      }
      if output.Some? {
        if !luck.moveOld {
          return false;
        }
        backup, output := output, None;
        oldMoved := true;
      }
      if !luck.install {
        if oldMoved && luck.restore {
          output, backup := backup, None;
        }
        return false;
      }
      output, stage := stage, None;
      if oldMoved {
        backup := if luck.removed then None else Some(Only(backup.value, luck.left));
      }
      return true;
    }
  }
}
