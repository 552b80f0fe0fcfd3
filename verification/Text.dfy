/** String routines shared by the models: trimming, splitting and the decimal
    conversions of Go's strconv package, written out on seq<char>. */
module Text {

  datatype Option<+T> = None | Some(value: T)

  /** The white space of Go's unicode.IsSpace. */
  predicate IsSpace(c: char) {
    c in {'\t', '\n', '\U{0B}', '\U{0C}', '\r', ' ', '\U{85}', '\U{A0}', '\U{1680}', '\U{2028}', '\U{2029}',
          '\U{202F}', '\U{205F}', '\U{3000}'}
    || '\U{2000}' <= c <= '\U{200A}'
  }

  function TrimLeft(s: string): (r: string)
    ensures r != [] ==> !IsSpace(r[0])
  {
    if s == [] || !IsSpace(s[0]) then s else TrimLeft(s[1..])
  }

  function TrimRight(s: string): (r: string)
    ensures r <= s
    ensures r != [] ==> !IsSpace(r[|r| - 1])
  {
    if s == [] || !IsSpace(s[|s| - 1]) then s else TrimRight(s[..|s| - 1])
  }

  function TrimSpace(s: string): string {
    TrimRight(TrimLeft(s))
  }

  lemma {:induction false} TrimLeftLacks(s: string, c: char)
    requires c !in s
    ensures c !in TrimLeft(s)
  {
    if s != [] && IsSpace(s[0]) {
      TrimLeftLacks(s[1..], c);
    }
  }

  /** Trimming adds nothing. */
  lemma TrimLacks(s: string, c: char)
    requires c !in s
    ensures c !in TrimSpace(s)
  {
    TrimLeftLacks(s, c);
    assert TrimSpace(s) <= TrimLeft(s);
  }

  predicate HasPrefix(s: string, prefix: string) {
    prefix <= s
  }

  /** strings.Split for a one-character separator: never empty. */
  function Split(s: string, sep: char): (parts: seq<string>)
    ensures |parts| > 0
    ensures forall i :: 0 <= i < |parts| ==> sep !in parts[i]
  {
    if s == [] then [[]]
    else if s[0] == sep then [[]] + Split(s[1..], sep)
    else
      var rest := Split(s[1..], sep);
      [[s[0]] + rest[0]] + rest[1..]
  }

  /** strings.Join for a one-character separator. */
  function Join(parts: seq<string>, sep: char): string {
    if |parts| == 0 then []
    else if |parts| == 1 then parts[0]
    else parts[0] + [sep] + Join(parts[1..], sep)
  }

  /** The first place of a character, or the length. */
  function IndexOf(s: string, c: char): (i: nat)
    ensures i <= |s| && c !in s[..i]
    ensures i < |s| ==> s[i] == c
  {
    if s == [] || s[0] == c then 0 else 1 + IndexOf(s[1..], c)
  }

  predicate IsDigit(c: char) {
    '0' <= c <= '9'
  }

  function Digit(c: char): nat {
    if IsDigit(c) then c as int - '0' as int else 0
  }

  /** The value of a run of decimal digits. */
  function DigitsValue(s: string): nat {
    if s == [] then 0 else 10 * DigitsValue(s[..|s| - 1]) + Digit(s[|s| - 1])
  }

  function Pow2(n: nat): (p: nat)
    ensures p > 0
  {
    if n == 0 then 1 else 2 * Pow2(n - 1)
  }

  predicate AllDigits(s: string) {
    forall i :: 0 <= i < |s| ==> IsDigit(s[i])
  }

  /** strconv.ParseUint(s, 10, bits): digits only, in range. */
  function ParseUint(s: string, bits: nat): Option<int> {
    if s != [] && AllDigits(s) && DigitsValue(s) < Pow2(bits)
    then Some(DigitsValue(s)) else None
  }

  /** strconv.ParseInt(s, 10, bits): one optional sign, then digits, in range. */
  function ParseInt(s: string, bits: nat): Option<int> {
    var signed := s != [] && (s[0] == '+' || s[0] == '-');
    var digits := if signed then s[1..] else s;
    if digits == [] || bits == 0 || !AllDigits(digits) then None
    else
      var magnitude: int := DigitsValue(digits);
      if s[0] == '-' then
        if magnitude <= Pow2(bits - 1) then Some(-magnitude) else None
      else if magnitude < Pow2(bits - 1) then Some(magnitude) else None
  }

  /** strconv.ParseBool. */
  function ParseBool(s: string): Option<bool> {
    if s in {"1", "t", "T", "true", "TRUE", "True"} then Some(true)
    else if s in {"0", "f", "F", "false", "FALSE", "False"} then Some(false)
    else None
  }

  /** fmt's %d of a natural number. */
  function Decimal(n: nat): (s: string)
    ensures s != [] && AllDigits(s)
  {
    var digit := [('0' as int + n % 10) as char];
    if n < 10 then digit else Decimal(n / 10) + digit
  }

  /** Reading the digits back gives the number, so different numbers are written differently. */
  lemma {:induction false} DecimalValue(n: nat)
    ensures DigitsValue(Decimal(n)) == n
  {
    if n >= 10 {
      DecimalValue(n / 10);
      assert Decimal(n)[..|Decimal(n)| - 1] == Decimal(n / 10);
    } else {
      assert Decimal(n)[..0] == [];
    }
  }

  // ---------- Python ----------

  /** White space as Python's str methods and regular expressions see it. */
  predicate IsBlankChar(c: char) {
    IsSpace(c) || '\U{1C}' <= c <= '\U{1F}'
  }

  function Lstrip(s: string): (r: string)
    ensures r != [] ==> !IsBlankChar(r[0])
  {
    if s == [] || !IsBlankChar(s[0]) then s else Lstrip(s[1..])
  }

  function Rstrip(s: string): (r: string)
    ensures r != [] ==> !IsBlankChar(r[|r| - 1])
  {
    if s == [] || !IsBlankChar(s[|s| - 1]) then s else Rstrip(s[..|s| - 1])
  }

  predicate AllSpace(s: string) {
    forall i :: 0 <= i < |s| ==> IsBlankChar(s[i])
  }

  lemma {:induction false} LstripOf(space: string, s: string)
    requires AllSpace(space) && (s == [] || !IsBlankChar(s[0]))
    ensures Lstrip(space + s) == s
  {
    if space == [] {
      assert space + s == s;
    } else {
      assert (space + s)[1..] == space[1..] + s;
      LstripOf(space[1..], s);
    }
  }

  lemma {:induction false} RstripOf(s: string, space: string)
    requires AllSpace(space) && (s == [] || !IsBlankChar(s[|s| - 1]))
    ensures Rstrip(s + space) == s
    decreases |space|
  {
    if space == [] {
      assert s + space == s;
    } else {
      var n := |space| - 1;
      assert (s + space)[..|s + space| - 1] == s + space[..n];
      RstripOf(s, space[..n]);
    }
  }

  lemma {:induction false} LstripSplits(s: string) returns (space: string)
    ensures AllSpace(space) && s == space + Lstrip(s)
  {
    if s == [] || !IsBlankChar(s[0]) {
      return [];
    }
    var rest := s[1..];
    var more := LstripSplits(rest);
    FirstThen(s[0], more, Lstrip(rest));
    assert s == [s[0]] + rest && Lstrip(s) == Lstrip(rest);
    space := [s[0]] + more;
  }

  lemma FirstThen(c: char, a: string, b: string)
    ensures [c] + (a + b) == [c] + a + b
  {
  }

  lemma {:induction false} RstripSplits(s: string) returns (space: string)
    ensures AllSpace(space) && s == Rstrip(s) + space
    decreases |s|
  {
    if s == [] || !IsBlankChar(s[|s| - 1]) {
      return [];
    }
    var n := |s| - 1;
    space := RstripSplits(s[..n]);
    space := space + [s[n]];
    assert s == s[..n] + [s[n]];
  }
}
