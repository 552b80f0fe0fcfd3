/** Which security rules share a normalized text (normalizeSecurityRule of internal/cloud/compare.go):
    the four fields are joined with a bar, and nothing keeps a bar out of a field. */
module DriftRules {
  import opened Text
  import opened StringOrder
  import opened Drift
  import opened DriftLaws

  const BAR := '|'

  /** The same fields, up to surrounding white space and case. */
  predicate Alike(r: SecurityRule, s: SecurityRule) {
    forall i :: 0 <= i < 4 ==> EqualFold(Fields(r)[i], Fields(s)[i])
  }

  /** A bar without white space on either side. */
  predicate OpenAt(s: string, p: int) {
    && 0 <= p < |s| && s[p] == BAR
    && (p == 0 || !IsSpace(s[p - 1]))
    && (p == |s| - 1 || !IsSpace(s[p + 1]))
  }

  predicate Closed(s: string) {
    forall p :: 0 <= p < |s| ==> !OpenAt(s, p)
  }

  /** No trimmed field holds a bar without white space beside it. */
  predicate Sealed(r: SecurityRule) {
    forall i :: 0 <= i < 4 ==> Closed(Fields(r)[i])
  }

  // ---------- Trimming and case ----------

  predicate Trimmed(s: string) {
    s == [] || (!IsSpace(s[0]) && !IsSpace(s[|s| - 1]))
  }

  lemma TrimGives(s: string)
    ensures Trimmed(TrimSpace(s))
  {
  }

  lemma {:induction false} TrimStays(s: string)
    requires Trimmed(s)
    ensures TrimSpace(s) == s
  {
  }

  function Lower(c: char): char {
    if 'A' <= c <= 'Z' then c + ('a' - 'A') else c
  }

  lemma {:induction false} LowerAt(s: string)
    ensures |ToLower(s)| == |s| && forall i :: 0 <= i < |s| ==> ToLower(s)[i] == Lower(s[i])
  {
    if s != [] {
      LowerAt(s[1..]);
    }
  }

  lemma LowerKinds(c: char)
    ensures IsSpace(Lower(c)) <==> IsSpace(c)
    ensures Lower(c) == BAR <==> c == BAR
  {
  }

  lemma {:induction false} LowerKeeps(s: string)
    ensures Trimmed(s) ==> Trimmed(ToLower(s))
    ensures Closed(s) ==> Closed(ToLower(s))
  {
    LowerAt(s);
    forall c {:trigger Lower(c)} ensures (IsSpace(Lower(c)) <==> IsSpace(c)) && (Lower(c) == BAR <==> c == BAR) {
      LowerKinds(c);
    }
    forall p | 0 <= p < |s| ensures OpenAt(ToLower(s), p) <==> OpenAt(s, p) {
    }
  }

  lemma {:induction false} LowerConcat(a: string, b: string)
    ensures ToLower(a + b) == ToLower(a) + ToLower(b)
  {
    LowerAt(a);
    LowerAt(b);
    LowerAt(a + b);
  }

  lemma {:induction false} TrimsTrimmed(parts: seq<string>)
    ensures AllTrimmed(Trims(parts))
    ensures AllTrimmed(parts) ==> Trims(parts) == parts
  {
    forall i | 0 <= i < |parts|
      ensures Trimmed(Trims(parts)[i]) && (Trimmed(parts[i]) ==> Trims(parts)[i] == parts[i])
    {
      TrimGives(parts[i]);
      if Trimmed(parts[i]) {
        TrimStays(parts[i]);
      }
    }
  }

  lemma FieldsTrimmed(r: SecurityRule)
    ensures AllTrimmed(Fields(r))
  {
    TrimsTrimmed([r.direction, r.protocol, r.portRange, r.remoteIP]);
  }

  function Lowered(parts: seq<string>): (l: seq<string>)
    ensures |l| == |parts| && forall i :: 0 <= i < |l| ==> l[i] == ToLower(parts[i])
  {
    seq(|parts|, i requires 0 <= i < |parts| => ToLower(parts[i]))
  }

  lemma {:induction false} LowerJoin(parts: seq<string>)
    ensures ToLower(Join(parts, BAR)) == Join(Lowered(parts), BAR)
  {
    if |parts| == 1 {
      assert Lowered(parts) == [ToLower(parts[0])];
    } else if |parts| > 1 {
      var rest := Join(parts[1..], BAR);
      LowerJoin(parts[1..]);
      LowerConcat(parts[0] + [BAR], rest);
      LowerConcat(parts[0], [BAR]);
      assert Lowered(parts)[1..] == Lowered(parts[1..]);
      assert ToLower([BAR]) == [BAR];
    }
  }

  // ---------- Cutting at open bars ----------

  predicate AllTrimmed(parts: seq<string>) {
    forall i :: 0 <= i < |parts| ==> Trimmed(parts[i])
  }

  lemma JoinHead(parts: seq<string>)
    requires AllTrimmed(parts)
    ensures Join(parts, BAR) == [] || !IsSpace(Join(parts, BAR)[0])
  {
  }

  /** A trimmed part that the joined text of others cuts short holds an open bar there. */
  lemma OpenWhere(p: string, q: string, rest: string, more: string)
    requires Trimmed(q) && |q| < |p| && (rest == [] || !IsSpace(rest[0]))
    requires p + more == q + [BAR] + rest
    ensures OpenAt(p, |q|)
  {
    var t := p + more;
    assert p[|q|] == t[|q|] == BAR;
    if |q| > 0 {
      assert p[|q| - 1] == t[|q| - 1] == q[|q| - 1];
    }
    if |q| + 1 < |p| {
      assert p[|q| + 1] == t[|q| + 1] == rest[0];
    }
  }

  /** A list of closed parts is the longest that its joined text can be cut into, and the only one of
      its length. */
  lemma {:induction false} OneWay(ps: seq<string>, qs: seq<string>)
    requires ps != [] && qs != [] && AllTrimmed(ps) && AllTrimmed(qs)
    requires forall i :: 0 <= i < |ps| ==> Closed(ps[i])
    requires Join(ps, BAR) == Join(qs, BAR)
    ensures |qs| <= |ps| && (|qs| == |ps| ==> ps == qs)
    decreases |ps|
  {
    var p, q, ps', qs' := ps[0], qs[0], ps[1..], qs[1..];
    var pr, qr := Join(ps', BAR), Join(qs', BAR);
    JoinHead(ps');
    JoinHead(qs');
    if |qs| > 1 && |q| < |p| {
      var more := if |ps| == 1 then [] else [BAR] + pr;
      assert p + more == Join(ps, BAR);
      OpenWhere(p, q, qr, more);
      assert false;
    } else if |ps| > 1 && |qs| > 1 {
      assert p + [BAR] + pr == q + [BAR] + qr;
      CutAlike(p, q, pr, qr);
      if |p| == |q| {
        OneWay(ps', qs');
        assert ps == [p] + ps' && qs == [q] + qs';
      } else {
        var rest := q[|p| + 1..];
        RestTrimmed(p, q, pr, qr);
        assert ([rest] + qs')[1..] == qs';
        OneWay(ps', [rest] + qs');
      }
    }
  }

  lemma CutAlike(p: string, q: string, pr: string, qr: string)
    requires p + [BAR] + pr == q + [BAR] + qr && |p| <= |q|
    ensures |p| == |q| ==> p == q && pr == qr
    ensures |p| < |q| ==> pr == q[|p| + 1..] + [BAR] + qr
  {
    var t := p + [BAR] + pr;
    assert t[..|p|] == p && t[|p| + 1..] == pr;
    if |p| == |q| {
      assert t[..|q|] == q && t[|q| + 1..] == qr;
    } else {
      assert t[|p| + 1..] == q[|p| + 1..] + [BAR] + qr;
    }
  }

  lemma RestTrimmed(p: string, q: string, pr: string, qr: string)
    requires Trimmed(q) && |p| < |q| && pr == q[|p| + 1..] + [BAR] + qr && !IsSpace(pr[0])
    ensures Trimmed(q[|p| + 1..])
  {
    var rest := q[|p| + 1..];
    assert rest != [] ==> rest[0] == pr[0] && rest[|rest| - 1] == q[|q| - 1];
  }

  lemma {:induction false} LoweredParts(parts: seq<string>)
    ensures AllTrimmed(parts) ==> AllTrimmed(Lowered(parts))
    ensures (forall i :: 0 <= i < |parts| ==> Closed(parts[i])) ==> forall i :: 0 <= i < |parts| ==> Closed(Lowered(parts)[i])
  {
    forall i | 0 <= i < |parts|
      ensures Trimmed(parts[i]) ==> Trimmed(Lowered(parts)[i])
      ensures Closed(parts[i]) ==> Closed(Lowered(parts)[i])
    {
      LowerKeeps(parts[i]);
    }
  }

  lemma {:induction false} SameLowered(ps: seq<string>, qs: seq<string>)
    requires |ps| == |qs|
    ensures Lowered(ps) == Lowered(qs) <==> forall i :: 0 <= i < |ps| ==> EqualFold(ps[i], qs[i])
  {
    var l, m := Lowered(ps), Lowered(qs);
    assert l == m <==> forall i :: 0 <= i < |ps| ==> l[i] == m[i];
  }

  lemma AlikeIs(r: SecurityRule, s: SecurityRule)
    ensures Alike(r, s) <==> Lowered(Fields(r)) == Lowered(Fields(s))
  {
    SameLowered(Fields(r), Fields(s));
  }

  /** Only alike rules share the text of a sealed one. */
  lemma {:induction false} SealedStandsAlone(r: SecurityRule, s: SecurityRule)
    requires Sealed(r)
    ensures Normalize(s) == Normalize(r) <==> Alike(r, s)
  {
    LowerJoin(Fields(r));
    LowerJoin(Fields(s));
    FieldsTrimmed(r);
    FieldsTrimmed(s);
    LoweredParts(Fields(r));
    LoweredParts(Fields(s));
    AlikeIs(r, s);
    if Normalize(s) == Normalize(r) {
      OneWay(Lowered(Fields(r)), Lowered(Fields(s)));
    }
  }

  /** In particular of one without bars. */
  lemma {:induction false} BarFreeIsSealed(r: SecurityRule)
    requires BAR !in r.direction && BAR !in r.protocol && BAR !in r.portRange && BAR !in r.remoteIP
    ensures Sealed(r)
  {
    var raw := [r.direction, r.protocol, r.portRange, r.remoteIP];
    forall i | 0 <= i < 4 ensures Closed(Fields(r)[i]) {
      TrimLacks(raw[i], BAR);
      LackIsClosed(Trims(raw)[i]);
    }
  }

  lemma LackIsClosed(s: string)
    requires BAR !in s
    ensures Closed(s)
  {
  }

  // ---------- Moving an open bar ----------

  function Rule(fs: seq<string>): SecurityRule
    requires |fs| == 4
  {
    SecurityRule("", fs[0], fs[1], fs[2], fs[3], "")
  }

  lemma RuleIs(fs: seq<string>)
    requires |fs| == 4
    ensures Fields(Rule(fs)) == Trims(fs)
  {
    assert [fs[0], fs[1], fs[2], fs[3]] == fs;
  }

  /** Two neighbouring parts cut at another bar. */
  function Recut(fs: seq<string>, i: nat, x: string, y: string): seq<string>
    requires i + 1 < |fs|
  {
    fs[i := x][i + 1 := y + [BAR] + fs[i + 1]]
  }

  lemma {:induction false} SameJoin(fs: seq<string>, i: nat, x: string, y: string)
    requires i + 1 < |fs| && fs[i] == x + [BAR] + y
    ensures Join(Recut(fs, i, x, y), BAR) == Join(fs, BAR)
  {
    var gs := Recut(fs, i, x, y);
    if i > 0 {
      SameJoin(fs[1..], i - 1, x, y);
      assert gs[1..] == Recut(fs[1..], i - 1, x, y);
    } else {
      SameJoinHere(fs, gs, x, y);
    }
  }

  lemma SameJoinHere(fs: seq<string>, gs: seq<string>, x: string, y: string)
    requires |fs| > 1 && fs[0] == x + [BAR] + y && gs == Recut(fs, 0, x, y)
    ensures Join(gs, BAR) == Join(fs, BAR)
  {
    var f, tail := fs[1], fs[2..];
    assert fs[1..] == [f] + tail && gs[1..] == [y + [BAR] + f] + tail;
    JoinMore(f, tail);
    JoinMore(y + [BAR] + f, tail);
    Regrouped(x, y, f, More(tail));
  }

  function More(tail: seq<string>): string {
    if tail == [] then [] else [BAR] + Join(tail, BAR)
  }

  lemma JoinMore(f: string, tail: seq<string>)
    ensures Join([f] + tail, BAR) == f + More(tail)
  {
    assert ([f] + tail)[1..] == tail;
  }

  lemma Regrouped(x: string, y: string, f: string, more: string)
    ensures x + [BAR] + (y + [BAR] + f + more) == x + [BAR] + y + [BAR] + (f + more)
  {
  }

  /** An open bar cuts a trimmed field in two. */
  lemma Cut(f: string, p: int)
    requires Trimmed(f) && OpenAt(f, p)
    ensures Trimmed(f[..p]) && Trimmed(f[p + 1..]) && f == f[..p] + [BAR] + f[p + 1..]
  {
  }

  lemma Glued(a: string, b: string)
    requires Trimmed(a) && Trimmed(b)
    ensures Trimmed(a + [BAR] + b)
  {
  }

  lemma Longer(x: string, y: string)
    requires |x| != |y|
    ensures !EqualFold(x, y)
  {
    LowerAt(x);
    LowerAt(y);
  }

  /** An open bar taken for a separator: other parts, the same text. */
  lemma {:induction false} OtherParts(fs: seq<string>, i: nat, p: int) returns (gs: seq<string>)
    requires AllTrimmed(fs) && |fs| > 1 && i < |fs| && OpenAt(fs[i], p)
    ensures |gs| == |fs| && AllTrimmed(gs) && Join(gs, BAR) == Join(fs, BAR)
    ensures !EqualFold(fs[i], gs[i])
  {
    var x, y := fs[i][..p], fs[i][p + 1..];
    Cut(fs[i], p);
    Longer(fs[i], x);
    Longer(fs[i], y);
    if i + 1 < |fs| {
      gs := Recut(fs, i, x, y);
      Glued(y, fs[i + 1]);
      SameJoin(fs, i, x, y);
    } else {
      gs := fs[i - 1 := fs[i - 1] + [BAR] + x][i := y];
      Glued(fs[i - 1], x);
      SameJoin(gs, i - 1, fs[i - 1], x);
      assert Recut(gs, i - 1, fs[i - 1], x) == fs;
    }
  }

  /** Every unsealed rule has an unlike one with the same text. */
  lemma {:induction false} UnsealedCollides(r: SecurityRule) returns (s: SecurityRule)
    requires !Sealed(r)
    ensures Normalize(s) == Normalize(r) && !Alike(r, s)
  {
    var fs := Fields(r);
    FieldsTrimmed(r);
    var i: nat :| i < 4 && !Closed(fs[i]);
    var p :| 0 <= p < |fs[i]| && OpenAt(fs[i], p);
    var gs := OtherParts(fs, i, p);
    s := Rule(gs);
    RuleIs(gs);
    TrimsTrimmed(gs);
  }

  /** A rule shares its text with alike rules alone exactly if it is sealed. */
  lemma {:induction false} NormalTellsApartIff(r: SecurityRule)
    ensures (forall s: SecurityRule :: Normalize(s) == Normalize(r) ==> Alike(r, s)) <==> Sealed(r)
  {
    if Sealed(r) {
      forall s: SecurityRule ensures Normalize(s) == Normalize(r) ==> Alike(r, s) {
        SealedStandsAlone(r, s);
      }
    } else {
      var s := UnsealedCollides(r);
    }
  }

  // ---------- What the comparison of rules then means ----------

  /** Nothing asked for, or an alike rule for every desired one and no high-risk rule unlike them all. */
  predicate RulesAlike(d: SecurityGroup, a: SecurityGroup) {
    || d.rules == []
    || (&& (forall r :: r in d.rules ==> Among(a.rules, r))
        && (forall s :: s in a.rules ==> Among(d.rules, s) || !HighRisk(s)))
  }

  predicate Among(rules: seq<SecurityRule>, r: SecurityRule) {
    exists s :: s in rules && Alike(r, s)
  }

  lemma {:induction false} ValuesAre<T(!new)>(s: seq<T>, f: T -> string, v: string)
    ensures v in ValuesOf(s, f) <==> exists x :: x in s && f(x) == v
    decreases |s|
  {
    if s != [] {
      var k := |s| - 1;
      ValuesAre(s[..k], f, v);
      assert s == s[..k] + [s[k]];
    }
  }

  predicate AllSealed(rules: seq<SecurityRule>) {
    forall r :: r in rules ==> Sealed(r)
  }

  lemma {:induction false} SealedRulesMatch(d: SecurityGroup, a: SecurityGroup)
    requires AllSealed(d.rules)
    ensures RulesMatch(d, a) <==> RulesAlike(d, a)
  {
    forall r | r in d.rules ensures Normalize(r) in Normals(a.rules) <==> Among(a.rules, r) {
      forall s | s in a.rules ensures Normalize(s) == Normalize(r) <==> Alike(r, s) {
        SealedStandsAlone(r, s);
      }
      AmongIs(a.rules, r);
    }
    forall s | s in a.rules ensures Normalize(s) in Normals(d.rules) <==> Among(d.rules, s) {
      forall r | r in d.rules ensures Normalize(r) == Normalize(s) <==> Alike(s, r) {
        SealedStandsAlone(r, s);
      }
      AmongIs(d.rules, s);
    }
  }

  lemma AmongIs(rules: seq<SecurityRule>, r: SecurityRule)
    requires forall s :: s in rules ==> (Normalize(s) == Normalize(r) <==> Alike(r, s))
    ensures Normalize(r) in Normals(rules) <==> Among(rules, r)
  {
    ValuesAre(rules, Normalize, Normalize(r));
  }

  lemma {:induction false} Filtered<T(!new)>(s: seq<T>, keep: T -> bool)
    ensures forall x :: x in Filter(s, keep) <==> x in s && keep(x)
    decreases |s|
  {
    if s != [] {
      var k := |s| - 1;
      Filtered(s[..k], keep);
      assert s == s[..k] + [s[k]];
    }
  }

  /** The values of a list stay when y stands in for all the elements dropped. */
  lemma {:induction false} ValuesStay<T(!new)>(all: seq<T>, rest: seq<T>, x: T, y: T, drop: T -> bool, f: T -> string)
    requires x in all && f(x) == f(y)
    requires forall z :: z in rest <==> z in all && !drop(z)
    requires forall z :: z in all && drop(z) ==> f(z) == f(x)
    ensures forall z :: z in all ==> f(z) in ValuesOf([y] + rest, f)
    ensures forall z :: z in [y] + rest ==> f(z) in ValuesOf(all, f)
  {
    forall z | z in all ensures f(z) in ValuesOf([y] + rest, f) {
      ValuesHave([y] + rest, f, if drop(z) then y else z);
    }
    forall z | z in [y] + rest ensures f(z) in ValuesOf(all, f) {
      ValuesHave(all, f, if z == y then x else z);
    }
  }

  ghost predicate Dropped(rules: seq<SecurityRule>, r: SecurityRule, rest: seq<SecurityRule>) {
    forall x :: x in rest <==> x in rules && !Alike(r, x)
  }

  lemma {:induction false} DropAlike(rules: seq<SecurityRule>, r: SecurityRule) returns (rest: seq<SecurityRule>)
    ensures Dropped(rules, r, rest)
  {
    var unlike := (x: SecurityRule) => !Alike(r, x);
    rest := Filter(rules, unlike);
    Filtered(rules, unlike);
  }

  lemma {:induction false} StillMatches(d: SecurityGroup, a: SecurityGroup, r: SecurityRule, s: SecurityRule, rest: seq<SecurityRule>)
    requires r in d.rules && Normalize(r) == Normalize(s) && a.rules == [s] + rest
    requires Dropped(d.rules, r, rest)
    ensures RulesMatch(d, a)
  {
    forall x | x in d.rules && Alike(r, x) ensures Normalize(x) == Normalize(r) {
      AlikeShares(r, x);
    }
    ValuesStay(d.rules, rest, r, s, x => Alike(r, x), Normalize);
  }

  lemma SwappedIn(d: SecurityGroup, r: SecurityRule, s: SecurityRule) returns (a: SecurityGroup)
    requires r in d.rules && Normalize(r) == Normalize(s) && !Alike(r, s)
    ensures RulesMatch(d, a) && NoneAlike(a.rules, r)
  {
    var rest := DropAlike(d.rules, r);
    a := SecurityGroup(d.id, d.name, [s] + rest);
    NoneLeft(d.rules, r, s, rest);
    StillMatches(d, a, r, s, rest);
  }

  lemma NoneLeft(rules: seq<SecurityRule>, r: SecurityRule, s: SecurityRule, rest: seq<SecurityRule>)
    requires Dropped(rules, r, rest) && !Alike(r, s)
    ensures NoneAlike([s] + rest, r)
  {
  }

  predicate NoneAlike(rules: seq<SecurityRule>, r: SecurityRule) {
    forall x :: x in rules ==> !Alike(r, x)
  }

  /** With an unsealed desired rule the match can hold although nothing alike is there. */
  lemma {:induction false} UnsealedRuleMissed(d: SecurityGroup, r: SecurityRule) returns (a: SecurityGroup)
    requires r in d.rules && !Sealed(r)
    ensures RulesMatch(d, a) && !RulesAlike(d, a)
  {
    var s := UnsealedCollides(r);
    a := SwappedIn(d, r, s);
    Unmet(d, a, r);
  }

  lemma Unmet(d: SecurityGroup, a: SecurityGroup, r: SecurityRule)
    requires r in d.rules && NoneAlike(a.rules, r)
    ensures !RulesAlike(d, a)
  {
    assert !Among(a.rules, r);
  }

  lemma AlikeShares(r: SecurityRule, s: SecurityRule)
    requires Alike(r, s)
    ensures Normalize(r) == Normalize(s)
  {
    LowerJoin(Fields(r));
    LowerJoin(Fields(s));
    AlikeIs(r, s);
  }

  /** Against every actual group, matching means having alike rules, exactly if all desired rules are
      sealed. */
  lemma {:induction false} RulesMatchIffSealed(d: SecurityGroup)
    ensures (forall a: SecurityGroup :: RulesMatch(d, a) <==> RulesAlike(d, a)) <==> AllSealed(d.rules)
  {
    if AllSealed(d.rules) {
      forall a: SecurityGroup ensures RulesMatch(d, a) <==> RulesAlike(d, a) {
        SealedRulesMatch(d, a);
      }
    } else {
      var r :| r in d.rules && !Sealed(r);
      var a := UnsealedRuleMissed(d, r);
    }
  }
}
