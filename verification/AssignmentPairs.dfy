/** Laws of two assignments, one after the other: what they leave alone, when their order matters, and
    when the earlier of two to one place leaves a trace. */
module AssignmentPairs {
  import opened Text
  import opened Assignment
  import opened AssignmentLaws
  import opened AssignmentOrder

  // ---------- What one assignment leaves alone ----------

  /** A search in vain, read at a place: what is there is left as the search passes it. */
  lemma {:induction false} ReadMissed(T: Type, t: Plain, loc: seq<Step>)
    requires Read(t, loc).Some?
    ensures Read(Miss(T, t), loc) == Some(Searched(Under(T, t, loc), Read(t, loc).value))
    decreases |loc|
  {
    if loc != [] {
      match T
      case TStruct(fs) =>
        if t.Block? && |t.items| == |fs| && loc[0].At? && Embeds(fs[loc[0].i]) {
          ReadMissed(fs[loc[0].i].typ, t.items[loc[0].i], loc[1..]);
        }
      case TRef(_, target) =>
        if t.Ref? {
          ReadMissed(target, t.to, loc[1..]);
        }
      case _ =>
    }
  }

  /** Nothing nil stands on the way. */
  predicate NoNilTo(t: Plain, loc: seq<Step>) {
    forall k :: 0 <= k < |loc| ==> Read(t, loc[..k]) != Some(Nil)
  }

  lemma {:induction false} NoNilInside(t: Plain, loc: seq<Step>)
    requires NoNilTo(t, loc) && loc != []
    ensures !t.Nil? && (Child(t, loc[0]).Some? ==> NoNilTo(Child(t, loc[0]).value, loc[1..]))
  {
    assert Read(t, loc[..0]) == Some(t);
    if Child(t, loc[0]).Some? {
      forall k | 0 <= k < |loc| - 1 ensures Read(Child(t, loc[0]).value, loc[1..][..k]) != Some(Nil) {
        assert loc[..k + 1][0] == loc[0] && loc[..k + 1][1..] == loc[1..][..k];
        assert Read(t, loc[..k + 1]) != Some(Nil);
      }
    }
  }

  /** And a place that is not there, with nothing nil on the way, is not there afterwards. */
  lemma {:induction false} AbsentMissed(T: Type, t: Plain, loc: seq<Step>)
    requires Read(t, loc).None? && NoNilTo(t, loc)
    ensures Read(Miss(T, t), loc).None?
    decreases |loc|
  {
    NoNilInside(t, loc);
    match T
    case TStruct(fs) =>
      if t.Block? && |t.items| == |fs| && loc[0].At? && loc[0].i < |fs| && Embeds(fs[loc[0].i]) {
        AbsentMissed(fs[loc[0].i].typ, t.items[loc[0].i], loc[1..]);
      }
    case TRef(_, target) =>
      if t.Ref? && loc[0] == Deref {
        AbsentMissed(target, t.to, loc[1..]);
      }
    case _ =>
  }

  /** What the first hop of a search does to the other parts of a value. */
  lemma {:induction false} BaseParts(T: Type, t: Plain, parts: seq<string>, s: Step)
    requires |parts| > 0 && Next(T, t, parts).Ok? && !t.Nil?
    ensures var b := Next(T, t, parts).value.base;
      && (Child(b, s).Some? <==> Child(t, s).Some?)
      && (Child(t, s).Some? ==> Child(b, s) == Some(Searched(Over(T, parts, s), Child(t, s).value)))
  {
    if T.TStruct? {
      StructNext(T.fields, t, parts);
    }
  }

  /** The part a path enters is not searched on the way. */
  lemma {:induction false} OwnPart(T: Type, t: Plain, parts: seq<string>)
    requires |parts| > 0 && Next(T, t, parts).Ok?
    ensures Over(T, parts, Next(T, t, parts).value.step).None?
  {
    if T.TStruct? {
      StructNext(T.fields, t, parts);
    }
  }

  /** A successful assignment leaves at every diverging place exactly what its search leaves there: the
      value itself, unless the search passes it and it has a nil embedded pointer. A place that is not
      there, with nothing nil on the way to it, does not come into being. */
  lemma {:induction false} FrameExact(c: Codec, T: Type, t: Plain, parts: seq<string>, text: string, loc: seq<Step>)
    requires |parts| > 0 && Set(c, T, t, parts, text).Ok?
    requires Resolve(T, t, parts).Ok? && Diverge(loc, Resolve(T, t, parts).value.loc)
    ensures var t' := Set(c, T, t, parts, text).value;
      && (Read(t, loc).Some? ==> Read(t', loc) == Some(Searched(Passed(T, t, parts, loc), Read(t, loc).value)))
      && (Read(t, loc).None? && NoNilTo(t, loc) ==> Read(t', loc).None?)
  {
    SetIsWrite(c, T, t, parts, text);
    var v := Converted(c, T, t, parts, text).value;
    if Read(t, loc).Some? {
      WriteLeaves(T, t, parts, v, loc);
    } else if NoNilTo(t, loc) {
      WriteMakesNothing(T, t, parts, v, loc);
    }
  }

  lemma {:induction false} WriteLeaves(T: Type, t: Plain, parts: seq<string>, v: Plain, loc: seq<Step>)
    requires |parts| > 0 && Resolve(T, t, parts).Ok? && Diverge(loc, Resolve(T, t, parts).value.loc) && Read(t, loc).Some?
    ensures Read(Write(T, t, parts, v), loc) == Some(Searched(Passed(T, t, parts, loc), Read(t, loc).value))
    decreases |parts|, Wraps(T, t), T
  {
    NextDescends(T, t, parts);
    DivergeTail(loc, Resolve(T, t, parts).value.loc);
    ResolveByHop(T, t, parts);
    ReadByHop(T, t, parts, v, loc);
    var h := Next(T, t, parts).value;
    if loc[0] == h.step {
      BaseParts(T, t, parts, loc[0]);
      OwnPart(T, t, parts);
      WriteLeaves(h.typ, Child(h.base, h.step).value, h.rest, v, loc[1..]);
    } else {
      LeavesAside(T, t, parts, loc);
    }
  }

  lemma {:induction false} LeavesAside(T: Type, t: Plain, parts: seq<string>, loc: seq<Step>)
    requires |parts| > 0 && Next(T, t, parts).Ok? && loc != [] && Read(t, loc).Some?
    requires loc[0] != Next(T, t, parts).value.step
    ensures Read(Next(T, t, parts).value.base, loc) == Some(Searched(Passed(T, t, parts, loc), Read(t, loc).value))
  {
    NextDescends(T, t, parts);
    BaseParts(T, t, parts, loc[0]);
    if Over(T, parts, loc[0]).Some? {
      ReadMissed(Over(T, parts, loc[0]).value, Child(t, loc[0]).value, loc[1..]);
    }
  }

  lemma {:induction false} WriteMakesNothing(T: Type, t: Plain, parts: seq<string>, v: Plain, loc: seq<Step>)
    requires |parts| > 0 && Resolve(T, t, parts).Ok? && Diverge(loc, Resolve(T, t, parts).value.loc)
    requires Read(t, loc).None? && NoNilTo(t, loc)
    ensures Read(Write(T, t, parts, v), loc).None?
    decreases |parts|, Wraps(T, t), T
  {
    NextDescends(T, t, parts);
    DivergeTail(loc, Resolve(T, t, parts).value.loc);
    NoNilInside(t, loc);
    ResolveByHop(T, t, parts);
    ReadByHop(T, t, parts, v, loc);
    BaseParts(T, t, parts, loc[0]);
    OwnPart(T, t, parts);
    var h := Next(T, t, parts).value;
    if loc[0] == h.step {
      WriteMakesNothing(h.typ, Child(h.base, h.step).value, h.rest, v, loc[1..]);
    } else if Over(T, parts, loc[0]).Some? && Child(t, loc[0]).Some? {
      AbsentMissed(Over(T, parts, loc[0]).value, Child(t, loc[0]).value, loc[1..]);
    }
  }

  // ---------- Two assignments ----------

  function Then(c: Codec, T: Type, t: Plain, p: seq<string>, x: string, q: seq<string>, y: string): Result<Plain>
    requires |p| > 0 && |q| > 0
  {
    var r := Set(c, T, t, p, x);
    if r.Ok? then Set(c, T, r.value, q, y) else r
  }

  /** The value a text becomes where a path leads. */
  function Converted(c: Codec, T: Type, t: Plain, parts: seq<string>, text: string): Result<Plain>
    requires |parts| > 0 && Resolve(T, t, parts).Ok?
  {
    Convert(c, Resolve(T, t, parts).value.typ, text)
  }

  /** Neither text becomes a value with a nil embedded pointer in the way of the other search. */
  predicate Independent(c: Codec, T: Type, t: Plain, p: seq<string>, x: string, q: seq<string>, y: string)
    requires |p| > 0 && |q| > 0 && Resolve(T, t, p).Ok? && Resolve(T, t, q).Ok?
  {
    var a, b := Converted(c, T, t, p, x), Converted(c, T, t, q, y);
    a.Ok? && b.Ok? ==> Settled(Sight(T, t, q, p), a.value) && Settled(Sight(T, t, p, q), b.value)
  }

  /** Assignments to diverging places succeed or fail together in both orders; succeeding, they give
      one value exactly if they are independent. */
  lemma {:induction false} Commute(c: Codec, T: Type, t: Plain, p: seq<string>, x: string, q: seq<string>, y: string)
    requires |p| > 0 && |q| > 0 && Resolve(T, t, p).Ok? && Resolve(T, t, q).Ok?
    requires Diverge(Resolve(T, t, p).value.loc, Resolve(T, t, q).value.loc)
    ensures Then(c, T, t, p, x, q, y).Ok? <==> Set(c, T, t, p, x).Ok? && Set(c, T, t, q, y).Ok?
    ensures Then(c, T, t, p, x, q, y).Ok? <==> Then(c, T, t, q, y, p, x).Ok?
    ensures Then(c, T, t, p, x, q, y).Ok? ==>
              (Then(c, T, t, p, x, q, y) == Then(c, T, t, q, y, p, x) <==> Independent(c, T, t, p, x, q, y))
  {
    ThenIsWrites(c, T, t, p, x, q, y);
    ThenIsWrites(c, T, t, q, y, p, x);
    SetIsWrite(c, T, t, p, x);
    SetIsWrite(c, T, t, q, y);
    var a, b := Converted(c, T, t, p, x), Converted(c, T, t, q, y);
    if a.Ok? && b.Ok? {
      WritesCommute(T, t, p, a.value, q, b.value);
    }
  }

  lemma {:induction false} ThenIsWrites(c: Codec, T: Type, t: Plain, p: seq<string>, x: string, q: seq<string>, y: string)
    requires |p| > 0 && |q| > 0 && Resolve(T, t, p).Ok? && Resolve(T, t, q).Ok?
    requires Diverge(Resolve(T, t, p).value.loc, Resolve(T, t, q).value.loc)
    ensures var a, b := Converted(c, T, t, p, x), Converted(c, T, t, q, y);
      Then(c, T, t, p, x, q, y)
      == if a.Err? then a else if b.Err? then b else Ok(Write(T, Write(T, t, p, a.value), q, b.value))
  {
    SetIsWrite(c, T, t, p, x);
    var a := Converted(c, T, t, p, x);
    if a.Ok? {
      ResolveAfter(T, t, p, a.value, q);
      SetIsWrite(c, T, Write(T, t, p, a.value), q, y);
    }
  }

  // ---------- When an earlier write leaves a trace ----------

  /** Whatever embedded fields the search for the first path goes through, the search for the second
      goes through too, or finds full already. */
  predicate Retraced(T: Type, t: Plain, p: seq<string>, q: seq<string>)
    requires |p| > 0 && |q| > 0
    decreases |p|, Wraps(T, t), T
  {
    NextDescends(T, t, p);
    var n, m := Next(T, t, p), Next(T, t, q);
    n.Ok? && m.Ok? ==>
      && SearchesAlike(T, t, p[0], q[0])
      && (n.value.rest != [] && m.value.rest != [] ==>
            Retraced(n.value.typ, Child(n.value.base, n.value.step).value, n.value.rest, m.value.rest))
  }

  predicate SearchesAlike(T: Type, t: Plain, first: string, second: string) {
    T.TStruct? && t.Block? && |t.items| == |T.fields| ==>
      forall i :: Limit(T.fields, second) <= i < Limit(T.fields, first) && Embeds(T.fields[i]) ==> Full(T.fields[i].typ, t.items[i])
  }

  /** One place has one type, however it is spelled. */
  lemma {:induction false} SameSite(T: Type, t: Plain, p: seq<string>, q: seq<string>)
    requires |p| > 0 && |q| > 0 && Resolve(T, t, p).Ok? && Resolve(T, t, q).Ok?
    requires Resolve(T, t, p).value.loc == Resolve(T, t, q).value.loc
    ensures Resolve(T, t, p) == Resolve(T, t, q)
    decreases |p|, Wraps(T, t), T
  {
    NextDescends(T, t, p);
    SameByHop(T, t, p, q);
    ResolveByHop(T, t, p);
    ResolveByHop(T, t, q);
    var h, g := Next(T, t, p).value, Next(T, t, q).value;
    if h.rest != [] {
      SameSite(h.typ, Child(h.base, h.step).value, h.rest, g.rest);
    }
  }

  /** Two spellings of one place, by their first hops. */
  lemma {:induction false} SameByHop(T: Type, t: Plain, p: seq<string>, q: seq<string>)
    requires |p| > 0 && |q| > 0 && Resolve(T, t, p).Ok? && Resolve(T, t, q).Ok?
    requires Resolve(T, t, p).value.loc == Resolve(T, t, q).value.loc
    ensures Next(T, t, p).Ok? && Next(T, t, q).Ok?
    ensures var h, g := Next(T, t, p).value, Next(T, t, q).value;
      && h.step == g.step && h.typ == g.typ && (h.rest == [] <==> g.rest == []) && Child(h.base, h.step) == Child(g.base, g.step)
      && (h.rest != [] ==>
            && Child(h.base, h.step).Some?
            && var inner := Child(h.base, h.step).value;
            && Resolve(h.typ, inner, h.rest).Ok? && Resolve(h.typ, inner, g.rest).Ok?
            && Resolve(h.typ, inner, h.rest).value.loc == Resolve(h.typ, inner, g.rest).value.loc)
  {
    ResolveByHop(T, t, p);
    ResolveByHop(T, t, q);
    var lp, lq := Resolve(T, t, p).value.loc, Resolve(T, t, q).value.loc;
    assert lp[0] == lq[0] && lp[1..] == lq[1..];
    SameStep(T, t, p, q);
  }

  /** The first search adds nothing to the second exactly where they search alike. */
  lemma {:induction false} JoinedAlike(T: Type, t: Plain, p: seq<string>, q: seq<string>, x: Plain)
    requires |p| > 0 && |q| > 0 && Next(T, t, p).Ok? && Next(T, t, q).Ok?
    requires Next(T, t, p).value.step == Next(T, t, q).value.step
    ensures var g, j := Next(T, t, q).value, Joined(T, t, p, q);
      Put(j, g.step, x) == Put(g.base, g.step, x) <==> SearchesAlike(T, t, p[0], q[0])
  {
    if T.TStruct? {
      JoinedAlikeStruct(T.fields, t, p, q, x);
    } else {
      OtherPart(T, t, p, q);
    }
  }

  lemma {:induction false} JoinedAlikeStruct(fs: seq<Field>, t: Plain, p: seq<string>, q: seq<string>, x: Plain)
    requires |p| > 0 && |q| > 0 && Next(TStruct(fs), t, p).Ok? && Next(TStruct(fs), t, q).Ok?
    requires Next(TStruct(fs), t, p).value.step == Next(TStruct(fs), t, q).value.step
    ensures var T := TStruct(fs);
      var g, j := Next(T, t, q).value, Joined(T, t, p, q);
      Put(j, g.step, x) == Put(g.base, g.step, x) <==> SearchesAlike(T, t, p[0], q[0])
  {
    StructNext(fs, t, p);
    StructNext(fs, t, q);
    JoinedStruct(fs, t, p, q);
    TouchAlike(fs, t.items, Limit(fs, p[0]), Limit(fs, q[0]), Next(TStruct(fs), t, q).value.step.i, x);
  }

  lemma {:induction false} TouchAlike(fs: seq<Field>, ts: seq<Plain>, a: nat, b: nat, s: nat, x: Plain)
    requires |ts| == |fs| && a <= s < |fs| && b <= s
    ensures TouchBelow(fs, ts, if a < b then b else a)[s := x] == TouchBelow(fs, ts, b)[s := x]
       <==> forall i :: b <= i < a && Embeds(fs[i]) ==> Full(fs[i].typ, ts[i])
  {
    var us, vs := TouchBelow(fs, ts, if a < b then b else a)[s := x], TouchBelow(fs, ts, b)[s := x];
    forall i | 0 <= i < |fs| ensures us[i] == vs[i] <==> (b <= i < a && Embeds(fs[i]) ==> Full(fs[i].typ, ts[i])) {
      FullIff(fs[i].typ, ts[i]);
    }
    assert us == vs <==> forall i :: 0 <= i < |fs| ==> us[i] == vs[i];
  }

  /** A write to a place leaves no trace after another write there exactly if its search is retraced. */
  lemma {:induction false} TraceIff(T: Type, t: Plain, p: seq<string>, a: Plain, q: seq<string>, b: Plain)
    requires |p| > 0 && |q| > 0 && Resolve(T, t, p).Ok? && Resolve(T, t, q).Ok?
    requires Resolve(T, t, p).value.loc == Resolve(T, t, q).value.loc
    ensures Write(T, Write(T, t, p, a), q, b) == Write(T, t, q, b) <==> Retraced(T, t, p, q)
    decreases |p|, Wraps(T, t), T
  {
    NextDescends(T, t, p);
    SameByHop(T, t, p, q);
    RetracedByHop(T, t, p, q);
    var h, g := Next(T, t, p).value, Next(T, t, q).value;
    if h.rest == [] {
      TraceAtHop(T, t, p, a, q, b);
    } else {
      TraceIff(h.typ, Child(h.base, h.step).value, h.rest, a, g.rest, b);
      TraceBelow(T, t, p, a, q, b);
    }
  }

  lemma {:induction false} RetracedByHop(T: Type, t: Plain, p: seq<string>, q: seq<string>)
    requires |p| > 0 && |q| > 0 && Next(T, t, p).Ok? && Next(T, t, q).Ok?
    ensures var h, g := Next(T, t, p).value, Next(T, t, q).value;
      && (h.rest != [] ==> Child(h.base, h.step).Some?)
      && (Retraced(T, t, p, q) <==>
            && SearchesAlike(T, t, p[0], q[0])
            && (h.rest != [] && g.rest != [] ==> Retraced(h.typ, Child(h.base, h.step).value, h.rest, g.rest)))
  {
    NextDescends(T, t, p);
  }

  lemma {:induction false} TraceAtHop(T: Type, t: Plain, p: seq<string>, a: Plain, q: seq<string>, b: Plain)
    requires |p| > 0 && |q| > 0 && Next(T, t, p).Ok? && Next(T, t, q).Ok?
    requires Next(T, t, p).value.step == Next(T, t, q).value.step
    requires Next(T, t, p).value.rest == [] && Next(T, t, q).value.rest == []
    ensures Write(T, Write(T, t, p, a), q, b) == Write(T, t, q, b) <==> SearchesAlike(T, t, p[0], q[0])
  {
    WritesTogether(T, t, p, a, q, b);
    WriteByHop(T, t, q, b);
    JoinedAlike(T, t, p, q, b);
  }

  lemma {:induction false} TraceBelow(T: Type, t: Plain, p: seq<string>, a: Plain, q: seq<string>, b: Plain)
    requires |p| > 0 && |q| > 0 && Next(T, t, p).Ok? && Next(T, t, q).Ok?
    requires var h, g := Next(T, t, p).value, Next(T, t, q).value;
      && h.step == g.step && h.rest != [] && g.rest != [] && Child(h.base, h.step).Some?
    ensures var h, g := Next(T, t, p).value, Next(T, t, q).value;
      var inner := Child(h.base, h.step).value;
      Write(T, Write(T, t, p, a), q, b) == Write(T, t, q, b)
      <==> SearchesAlike(T, t, p[0], q[0])
           && Write(h.typ, Write(h.typ, inner, h.rest, a), g.rest, b) == Write(h.typ, inner, g.rest, b)
  {
    var h, g := Next(T, t, p).value, Next(T, t, q).value;
    var inner := Child(h.base, h.step).value;
    var x, y := Write(h.typ, Write(h.typ, inner, h.rest, a), g.rest, b), Write(h.typ, inner, g.rest, b);
    SameStep(T, t, p, q);
    WritesTogether(T, t, p, a, q, b);
    WriteByHop(T, t, q, b);
    JoinedAlike(T, t, p, q, y);
    PutsDiffer(T, t, p, q, x, y);
  }

  lemma {:induction false} PutsDiffer(T: Type, t: Plain, p: seq<string>, q: seq<string>, x: Plain, y: Plain)
    requires |p| > 0 && |q| > 0 && Next(T, t, p).Ok? && Next(T, t, q).Ok?
    requires Next(T, t, p).value.step == Next(T, t, q).value.step
    ensures var g, j := Next(T, t, q).value, Joined(T, t, p, q);
      Put(j, g.step, x) == Put(g.base, g.step, y) ==> x == y
  {
    var g, j := Next(T, t, q).value, Joined(T, t, p, q);
    JoinedPart(T, t, p, q);
    NextAgain(T, t, q, y);
    PutThenChild(j, g.step, x, g.step);
  }

  /** Of two assignments to one place, however spelled, the earlier leaves no trace exactly if the later
      fails anyway or retraces its search. */
  lemma {:induction false} LastWriteWins(c: Codec, T: Type, t: Plain, p: seq<string>, x: string, q: seq<string>, y: string)
    requires |p| > 0 && |q| > 0 && Resolve(T, t, p).Ok? && Resolve(T, t, q).Ok?
    requires Resolve(T, t, p).value.loc == Resolve(T, t, q).value.loc
    requires Set(c, T, t, p, x).Ok?
    ensures Then(c, T, t, p, x, q, y).Ok? <==> Set(c, T, t, q, y).Ok?
    ensures Then(c, T, t, p, x, q, y) == Set(c, T, t, q, y) <==> Set(c, T, t, q, y).Err? || Retraced(T, t, p, q)
  {
    SetIsWrite(c, T, t, p, x);
    SetIsWrite(c, T, t, q, y);
    var a := Converted(c, T, t, p, x).value;
    SameSite(T, t, p, q);
    ResolveRespelled(T, t, p, a, q);
    SetIsWrite(c, T, Write(T, t, p, a), q, y);
    if Converted(c, T, t, q, y).Ok? {
      TraceIff(T, t, p, a, q, Converted(c, T, t, q, y).value);
    }
  }

  /** After a write, another spelling of its place still leads there. */
  lemma {:induction false} ResolveRespelled(T: Type, t: Plain, p: seq<string>, a: Plain, q: seq<string>)
    requires |p| > 0 && |q| > 0 && Resolve(T, t, p).Ok? && Resolve(T, t, q).Ok?
    requires Resolve(T, t, p).value.loc == Resolve(T, t, q).value.loc
    ensures Resolve(T, Write(T, t, p, a), q) == Resolve(T, t, q)
    decreases |p|, Wraps(T, t), T
  {
    NextDescends(T, t, p);
    SameByHop(T, t, p, q);
    var h, g := Next(T, t, p).value, Next(T, t, q).value;
    if h.rest != [] {
      ResolveRespelled(h.typ, Child(h.base, h.step).value, h.rest, a, g.rest);
      AfterTogether(T, t, p, a, q);
    } else {
      WriteByHop(T, t, p, a);
      HopAfter(T, t, p, q, a);
      ResolveByHop(T, t, q);
      ResolveByHop(T, Write(T, t, p, a), q);
    }
  }

  /** So of two assignments along one path, only the later leaves a trace, in every type. */
  lemma {:induction false} RewriteWins(c: Codec, T: Type, t: Plain, p: seq<string>, x: string, y: string)
    requires |p| > 0 && Set(c, T, t, p, x).Ok?
    ensures Then(c, T, t, p, x, p, y) == Set(c, T, t, p, y)
  {
    SetIsWrite(c, T, t, p, x);
    RetracesItself(T, t, p);
    LastWriteWins(c, T, t, p, x, p, y);
  }

  lemma {:induction false} RetracesItself(T: Type, t: Plain, p: seq<string>)
    requires |p| > 0
    ensures Retraced(T, t, p, p)
    decreases |p|, Wraps(T, t), T
  {
    NextDescends(T, t, p);
    if Next(T, t, p).Ok? && Next(T, t, p).value.rest != [] {
      var h := Next(T, t, p).value;
      RetracesItself(h.typ, Child(h.base, h.step).value, h.rest);
    }
  }

  // ---------- Types without embedded pointers ----------

  lemma {:induction false} TameFull(T: Type, v: Plain)
    requires Tame(T) && T.TStruct?
    ensures Full(T, v)
  {
    TameMiss(T, v);
    FullIff(T, v);
  }

  lemma {:induction false} TameUnder(T: Type, t: Plain, loc: seq<Step>)
    requires Tame(T) && T.TStruct?
    ensures Under(T, t, loc).Some? ==> Tame(Under(T, t, loc).value) && Under(T, t, loc).value.TStruct?
    decreases |loc|
  {
    if loc != [] && t.Block? && |t.items| == |T.fields| && loc[0].At? && loc[0].i < |T.fields| && Embeds(T.fields[loc[0].i]) {
      TameUnder(T.fields[loc[0].i].typ, t.items[loc[0].i], loc[1..]);
    }
  }

  lemma {:induction false} TamePassed(T: Type, t: Plain, parts: seq<string>, loc: seq<Step>, v: Plain)
    requires |parts| > 0 && Tame(T) && TameTree(t)
    ensures Settled(Passed(T, t, parts, loc), v)
    decreases |parts|, Wraps(T, t), T
  {
    NextDescends(T, t, parts);
    if loc != [] && Next(T, t, parts).Ok? {
      TameNext(T, t, parts);
      var h := Next(T, t, parts).value;
      if loc[0] == h.step && h.rest != [] {
        TamePassed(h.typ, Child(h.base, h.step).value, h.rest, loc[1..], v);
      } else if loc[0] != h.step && Over(T, parts, loc[0]).Some? && Child(t, loc[0]).Some? {
        TameUnder(Over(T, parts, loc[0]).value, Child(t, loc[0]).value, loc[1..]);
        if Passed(T, t, parts, loc).Some? {
          TameFull(Passed(T, t, parts, loc).value, v);
        }
      }
    }
  }

  /** Where no struct embeds a pointer, assignments to diverging places are always independent. */
  lemma {:induction false} TameIsIndependent(c: Codec, T: Type, t: Plain, p: seq<string>, x: string, q: seq<string>, y: string)
    requires |p| > 0 && |q| > 0 && Resolve(T, t, p).Ok? && Resolve(T, t, q).Ok?
    requires Tame(T) && TameTree(t)
    ensures Independent(c, T, t, p, x, q, y)
  {
    var a, b := Converted(c, T, t, p, x), Converted(c, T, t, q, y);
    if a.Ok? && b.Ok? {
      TamePassed(T, t, q, Resolve(T, t, p).value.loc, a.value);
      TamePassed(T, t, p, Resolve(T, t, q).value.loc, b.value);
    }
  }

  /** And every search is retraced. */
  lemma {:induction false} TameIsRetraced(T: Type, t: Plain, p: seq<string>, q: seq<string>)
    requires |p| > 0 && |q| > 0 && Tame(T) && TameTree(t)
    ensures Retraced(T, t, p, q)
    decreases |p|, Wraps(T, t), T
  {
    NextDescends(T, t, p);
    if Next(T, t, p).Ok? && Next(T, t, q).Ok? {
      RetracedByHop(T, t, p, q);
      TameNext(T, t, p);
      if T.TStruct? {
        TameSearches(T, t, p[0], q[0]);
      }
      var h, g := Next(T, t, p).value, Next(T, t, q).value;
      if h.rest != [] && g.rest != [] {
        TameIsRetraced(h.typ, Child(h.base, h.step).value, h.rest, g.rest);
      }
    }
  }

  lemma {:induction false} TameSearches(T: Type, t: Plain, first: string, second: string)
    requires Tame(T) && T.TStruct?
    ensures SearchesAlike(T, t, first, second)
  {
    if t.Block? && |t.items| == |T.fields| {
      forall i | Limit(T.fields, second) <= i < Limit(T.fields, first) && Embeds(T.fields[i])
        ensures Full(T.fields[i].typ, t.items[i])
      {
        TameFull(T.fields[i].typ, t.items[i]);
      }
    }
  }

  // ---------- Where a struct embeds pointers ----------

  // A struct that embeds two pointers, to a struct with a field A and to one with a field B.
  const INNER := TStruct([Field("A", "", "", true, false, TStr)])
  const OTHER := TStruct([Field("B", "", "", true, false, TStr)])
  const OUTER := TStruct([
    Field("E", "", "", true, true, TRef(Pointer, INNER)),
    Field("F", "", "", true, true, TRef(Pointer, OTHER))])
  const BLANK: Plain := Block([Leaf(Str(""))])

  lemma {:induction false} FindE(t: Plain)
    requires t.Block? && |t.items| == 2
    ensures Next(OUTER, t, ["E"]) == Ok(Hop(At(0), TRef(Pointer, INNER), t, []))
  {
    assert Answers(OUTER.fields[0], "E");
    assert ["E"][1..] == [];
  }

  lemma {:induction false} ConvertNull(c: Codec, T: Type)
    ensures Convert(c, TRef(Pointer, T), "null") == Ok(Nil)
  {
    NullIsTrimmed();
  }

  lemma NullIsTrimmed()
    ensures TrimSpace("null") == "null"
  {
    assert TrimLeft("null") == "null";
  }

  lemma {:induction false} ToNull(c: Codec, t: Plain)
    requires t.Block? && |t.items| == 2
    ensures Set(c, OUTER, t, ["E"], "null") == Ok(Block(t.items[0 := Nil]))
  {
    FindE(t);
    ConvertNull(c, INNER);
    SetByHop(c, OUTER, t, ["E"], "null");
  }

  lemma OnlyOtherHasB()
    ensures Has(OTHER, "B") && !Has(INNER, "B")
  {
    assert TagName("") == "";
    assert Answers(OTHER.fields[0], "B");
  }

  lemma {:induction false} SearchSecond(t: Plain)
    requires t == Block([Nil, Nil])
    ensures Next(OUTER, t, ["B"]) == Ok(Hop(At(1), TRef(Pointer, OTHER), Block([Ref((), BLANK), Nil]), ["B"]))
  {
    var fs := OUTER.fields;
    OnlyOtherHasB();
    assert FirstDirect(fs, "B", 0) == 2 && FirstEmbedded(fs, "B", 0) == 1;
    assert Zero(INNER) == BLANK;
    assert TouchBelow(INNER.fields, BLANK.items, 1) == BLANK.items;
    assert Miss(INNER, BLANK) == BLANK;
    assert TouchBelow(fs, t.items, 1) == [Ref((), BLANK), Nil];
  }

  lemma {:induction false} ToB(c: Codec)
    ensures Set(c, TRef(Pointer, OTHER), Nil, ["B"], "x") == Ok(Ref((), Block([Leaf(Str("x"))])))
  {
    assert Zero(OTHER) == BLANK && ["B"][1..] == [];
    assert FirstDirect(OTHER.fields, "B", 0) == 0;
    assert Next(OTHER, BLANK, ["B"]) == Ok(Hop(At(0), TStr, BLANK, []));
    assert BLANK.items[0 := Leaf(Str("x"))] == [Leaf(Str("x"))];
    SetByHop(c, OTHER, BLANK, ["B"], "x");
    SetByHop(c, TRef(Pointer, OTHER), Nil, ["B"], "x");
  }

  /** Where a struct embeds a pointer the order can matter: looking for a field in the second
      embedded struct first gives the first, just set to null, storage again. */
  lemma {:induction false} EmbeddedPointerOrder(c: Codec, T: Type, t: Plain, p: seq<string>, q: seq<string>)
    requires T == OUTER && t == Block([Nil, Nil]) && p == ["E"] && q == ["B"]
    ensures Resolve(T, t, p).Ok? && Resolve(T, t, q).Ok?
    ensures Diverge(Resolve(T, t, p).value.loc, Resolve(T, t, q).value.loc)
    ensures Then(c, T, t, p, "null", q, "x").Ok? && Then(c, T, t, q, "x", p, "null").Ok?
    ensures Then(c, T, t, p, "null", q, "x") != Then(c, T, t, q, "x", p, "null")
  {
    SetSecond(c, t, q);
    ToNull(c, t);
    ToNull(c, BOTH);
    assert t.items[0 := Nil] == t.items && BOTH.items[0 := Nil] == [Nil, BOTH.items[1]];
    FindE(t);
    SearchSecond(t);
    ReadBack(c, T, t, p, "null");
    ReadBack(c, T, t, q, "x");
    ResolveHead(T, t, p);
    ResolveHead(T, t, q);
  }

  const BOTH: Plain := Block([Ref((), BLANK), Ref((), Block([Leaf(Str("x"))]))])

  lemma {:induction false} SetSecond(c: Codec, t: Plain, q: seq<string>)
    requires t == Block([Nil, Nil]) && q == ["B"]
    ensures Set(c, OUTER, t, q, "x") == Ok(BOTH)
  {
    SearchSecond(t);
    ToB(c);
    SetByHop(c, OUTER, t, q, "x");
    assert [Ref((), BLANK), Nil][1 := BOTH.items[1]] == BOTH.items;
  }

  /** And a write can leave a trace: found through the search, a field's place is reached with storage
      given on the way that its full name would not give. */
  lemma {:induction false} SpellingLeavesTrace(c: Codec, t: Plain, p: seq<string>, q: seq<string>)
    requires t == Block([Nil, Nil]) && p == ["B"] && q == ["F", "B"]
    ensures Resolve(OUTER, t, p).Ok? && Resolve(OUTER, t, p) == Resolve(OUTER, t, q)
    ensures Set(c, OUTER, t, p, "x").Ok? && !Retraced(OUTER, t, p, q)
    ensures Then(c, OUTER, t, p, "x", q, "y") != Set(c, OUTER, t, q, "y")
  {
    SetSecond(c, t, p);
    ReadBack(c, OUTER, t, p, "x");
    SpellingsMeet(c, t, p, q);
    NotRetraced(t, p, q);
    SetIsWrite(c, OUTER, t, q, "y");
    LastWriteWins(c, OUTER, t, p, "x", q, "y");
  }

  lemma {:induction false} SpellingsMeet(c: Codec, t: Plain, p: seq<string>, q: seq<string>)
    requires t == Block([Nil, Nil]) && p == ["B"] && q == ["F", "B"]
    ensures Resolve(OUTER, t, p) == Resolve(OUTER, t, q) && Resolve(OUTER, t, p).Ok?
    ensures Resolve(OUTER, t, p).value.typ == TStr
  {
    SearchSecond(t);
    FindF(t);
    ResolveByHop(OUTER, t, p);
    ResolveByHop(OUTER, t, q);
    assert Child(Block([Ref((), BLANK), Nil]), At(1)) == Some(Nil) && Child(t, At(1)) == Some(Nil);
    ResolveInF(c);
  }

  lemma {:induction false} ResolveInF(c: Codec)
    ensures Resolve(TRef(Pointer, OTHER), Nil, ["B"]) == Ok(Site([Deref, At(0)], TStr))
  {
    assert Zero(OTHER) == BLANK && ["B"][1..] == [];
    assert FirstDirect(OTHER.fields, "B", 0) == 0;
    assert Next(OTHER, BLANK, ["B"]) == Ok(Hop(At(0), TStr, BLANK, []));
    ResolveByHop(OTHER, BLANK, ["B"]);
    ResolveByHop(TRef(Pointer, OTHER), Nil, ["B"]);
    assert [Deref] + [At(0)] == [Deref, At(0)];
  }

  lemma {:induction false} NotRetraced(t: Plain, p: seq<string>, q: seq<string>)
    requires t == Block([Nil, Nil]) && p == ["B"] && q == ["F", "B"]
    ensures !Retraced(OUTER, t, p, q)
  {
    SearchSecond(t);
    FindF(t);
    RetracedByHop(OUTER, t, p, q);
    LimitOfB();
    assert Embeds(OUTER.fields[0]) && !Full(OUTER.fields[0].typ, t.items[0]);
  }

  lemma {:induction false} FindF(t: Plain)
    requires t.Block? && |t.items| == 2
    ensures Next(OUTER, t, ["F", "B"]) == Ok(Hop(At(1), TRef(Pointer, OTHER), t, ["B"]))
  {
    assert TagName("") == "" && !Answers(OUTER.fields[0], "F") && Answers(OUTER.fields[1], "F");
    assert FirstDirect(OUTER.fields, "F", 0) == 1;
    assert ["F", "B"][1..] == ["B"];
  }

  lemma LimitOfB()
    ensures Limit(OUTER.fields, "B") == 1 && Limit(OUTER.fields, "F") == 0
  {
    SearchSecond(Block([Nil, Nil]));
    StructNext(OUTER.fields, Block([Nil, Nil]), ["B"]);
    FindF(Block([Nil, Nil]));
    OnlyOtherHasB();
    assert FirstDirect(OUTER.fields, "B", 0) == 2;
    assert FirstEmbedded(OUTER.fields, "B", 0) == 1;
    assert Answers(OUTER.fields[1], "F");
  }

  lemma {:induction false} ResolveHead(T: Type, t: Plain, parts: seq<string>)
    requires |parts| > 0 && Resolve(T, t, parts).Ok?
    ensures Next(T, t, parts).Ok? && Resolve(T, t, parts).value.loc != []
    ensures Resolve(T, t, parts).value.loc[0] == Next(T, t, parts).value.step
  {
  }

  // ---------- Lists of assignments ----------

  /** Both fail, or both succeed with one value. */
  predicate SameOutcome(r: Result<Plain>, s: Result<Plain>) {
    (r.Ok? <==> s.Ok?) && (r.Ok? ==> r == s)
  }

  /** The list with its first two assignments in either order. */
  predicate Exchanged(c: Codec, T: Type, t: Plain, x: Assign, y: Assign, rest: seq<Assign>) {
    SameOutcome(Apply(c, T, t, [x, y] + rest), Apply(c, T, t, [y, x] + rest))
  }

  function PathOf(a: Assign): seq<string> {
    Split(TrimSpace(a.path), '.')
  }

  /** Neighbours that name diverging places can be exchanged, whatever follows them, exactly if they are
      independent. */
  lemma {:induction false} ApplyExchange(c: Codec, T: Type, t: Plain, x: Assign, y: Assign)
    requires T.TRef? && T.kind != SliceHeader && t.Ref?
    requires TrimSpace(x.path) != "" && TrimSpace(y.path) != ""
    requires Resolve(T, t, PathOf(x)).Ok? && Resolve(T, t, PathOf(y)).Ok?
    requires Diverge(Resolve(T, t, PathOf(x)).value.loc, Resolve(T, t, PathOf(y)).value.loc)
    ensures (forall rest :: Exchanged(c, T, t, x, y, rest)) <==> Independent(c, T, t, PathOf(x), x.text, PathOf(y), y.text)
  {
    ExchangeTwo(c, T, t, x, y);
    var xy, yx := Apply(c, T, t, [x, y]), Apply(c, T, t, [y, x]);
    if SameOutcome(xy, yx) {
      forall rest ensures Exchanged(c, T, t, x, y, rest) {
        ExchangeMore(c, T, t, x, y, rest);
      }
    } else {
      assert [x, y] + [] == [x, y] && [y, x] + [] == [y, x];
      assert !Exchanged(c, T, t, x, y, []);
    }
  }

  lemma {:induction false} ExchangeTwo(c: Codec, T: Type, t: Plain, x: Assign, y: Assign)
    requires T.TRef? && T.kind != SliceHeader && t.Ref?
    requires TrimSpace(x.path) != "" && TrimSpace(y.path) != ""
    requires Resolve(T, t, PathOf(x)).Ok? && Resolve(T, t, PathOf(y)).Ok?
    requires Diverge(Resolve(T, t, PathOf(x)).value.loc, Resolve(T, t, PathOf(y)).value.loc)
    ensures SameOutcome(Apply(c, T, t, [x, y]), Apply(c, T, t, [y, x]))
       <==> Independent(c, T, t, PathOf(x), x.text, PathOf(y), y.text)
  {
    ApplyTwo(c, T, t, x, y);
    ApplyTwo(c, T, t, y, x);
    Commute(c, T, t, PathOf(x), x.text, PathOf(y), y.text);
    SetIsWrite(c, T, t, PathOf(x), x.text);
    SetIsWrite(c, T, t, PathOf(y), y.text);
  }

  lemma {:induction false} ExchangeMore(c: Codec, T: Type, t: Plain, x: Assign, y: Assign, rest: seq<Assign>)
    requires SameOutcome(Apply(c, T, t, [x, y]), Apply(c, T, t, [y, x]))
    ensures Exchanged(c, T, t, x, y, rest)
  {
    ApplyConcat(c, T, t, [x, y], rest);
    ApplyConcat(c, T, t, [y, x], rest);
  }

  lemma {:induction false} ApplyTwo(c: Codec, T: Type, t: Plain, x: Assign, y: Assign)
    requires T.TRef? && T.kind != SliceHeader && t.Ref?
    requires TrimSpace(x.path) != "" && TrimSpace(y.path) != ""
    ensures Apply(c, T, t, [x, y]) == Then(c, T, t, Split(TrimSpace(x.path), '.'), x.text, Split(TrimSpace(y.path), '.'), y.text)
  {
    var r := SetTop(c, T, t, x);
    assert [x, y][1..] == [y] && [y][1..] == [];
    if r.Ok? {
      SetByHop(c, T, t, Split(TrimSpace(x.path), '.'), x.text);
      assert Apply(c, T, r.value, [y]) == SetTop(c, T, r.value, y);
    }
  }
}
