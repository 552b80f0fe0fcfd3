/** Two assignments, one after the other: when their order matters, and when the earlier of two to
    one place leaves a trace. Both turn on what the search for a path does to the embedded pointers
    it passes. */
module AssignmentOrder {
  import opened Text
  import opened Assignment
  import opened AssignmentLaws

  // ---------- Searches ----------

  /** The embedded fields below this one are searched before the name is found. */
  function Limit(fs: seq<Field>, name: string): (r: nat)
    ensures r <= |fs|
  {
    if FirstDirect(fs, name, 0) < |fs| then 0 else FirstEmbedded(fs, name, 0)
  }

  /** What a search leaves of a value it passes under a type, if it does. */
  function Searched(o: Option<Type>, v: Plain): Plain {
    if o.Some? then Miss(o.value, v) else v
  }

  /** The type under which the first hop of a path searches a part in vain. */
  function Over(T: Type, parts: seq<string>, s: Step): Option<Type>
    requires |parts| > 0
  {
    if T.TStruct? && s.At? && s.i < Limit(T.fields, parts[0]) && Embeds(T.fields[s.i]) then Some(T.fields[s.i].typ)
    else None
  }

  lemma {:induction false} TouchMax(fs: seq<Field>, ts: seq<Plain>, a: nat, b: nat)
    requires |ts| == |fs|
    ensures TouchBelow(fs, TouchBelow(fs, ts, a), b) == TouchBelow(fs, ts, if a < b then b else a)
  {
    forall i | 0 <= i < |ts| && Embeds(fs[i]) ensures Miss(fs[i].typ, Miss(fs[i].typ, ts[i])) == Miss(fs[i].typ, ts[i]) {
      MissTwice(fs[i].typ, ts[i]);
    }
  }

  lemma {:induction false} TouchPut(fs: seq<Field>, ts: seq<Plain>, i: nat, x: Plain, b: nat)
    requires |ts| == |fs| && i < |fs|
    ensures TouchBelow(fs, ts[i := x], b)
         == TouchBelow(fs, ts, b)[i := if i < b && Embeds(fs[i]) then Miss(fs[i].typ, x) else x]
  {
  }

  /** A hop into a struct, by its limit. */
  lemma {:induction false} StructNext(fs: seq<Field>, t: Plain, parts: seq<string>)
    requires |parts| > 0 && Next(TStruct(fs), t, parts).Ok?
    ensures t.Block? && |t.items| == |fs|
    ensures var h, l := Next(TStruct(fs), t, parts).value, Limit(fs, parts[0]);
      && h.step.At? && l <= h.step.i < |fs| && h.typ == fs[h.step.i].typ
      && h.base == Block(TouchBelow(fs, t.items, l))
      && h.rest == (if FirstDirect(fs, parts[0], 0) < |fs| then parts[1..] else parts)
  {
    assert TouchBelow(fs, t.items, 0) == t.items;
  }

  /** Where the hop leads does not depend on the values in the struct. */
  lemma {:induction false} StructSame(fs: seq<Field>, t: Plain, t': Plain, parts: seq<string>)
    requires |parts| > 0 && Next(TStruct(fs), t, parts).Ok? && t'.Block? && |t'.items| == |fs|
    ensures var h := Next(TStruct(fs), t, parts).value;
      Next(TStruct(fs), t', parts) == Ok(h.(base := Block(TouchBelow(fs, t'.items, Limit(fs, parts[0])))))
  {
    assert TouchBelow(fs, t'.items, 0) == t'.items;
  }

  /** The value after both searches, no value written yet. */
  function Joined(T: Type, t: Plain, p: seq<string>, q: seq<string>): Plain
    requires |p| > 0 && |q| > 0
  {
    var h := Next(T, t, p);
    if h.Err? then t
    else
      var g := Next(T, h.value.base, q);
      if g.Err? then h.value.base else g.value.base
  }

  lemma {:induction false} JoinedStruct(fs: seq<Field>, t: Plain, p: seq<string>, q: seq<string>)
    requires |p| > 0 && |q| > 0 && Next(TStruct(fs), t, p).Ok? && Next(TStruct(fs), t, q).Ok?
    ensures t.Block? && |t.items| == |fs|
    ensures var a, b := Limit(fs, p[0]), Limit(fs, q[0]);
      Joined(TStruct(fs), t, p, q) == Block(TouchBelow(fs, t.items, if a < b then b else a))
  {
    StructNext(fs, t, p);
    StructNext(fs, t, q);
    StructSame(fs, t, Next(TStruct(fs), t, p).value.base, q);
    TouchMax(fs, t.items, Limit(fs, p[0]), Limit(fs, q[0]));
  }

  lemma {:induction false} JoinedSame(T: Type, t: Plain, p: seq<string>, q: seq<string>)
    requires |p| > 0 && |q| > 0 && Next(T, t, p).Ok? && Next(T, t, q).Ok?
    ensures Joined(T, t, p, q) == Joined(T, t, q, p)
  {
    if T.TStruct? {
      JoinedStruct(T.fields, t, p, q);
      JoinedStruct(T.fields, t, q, p);
    }
  }

  /** The hop of a path after a value was written one hop along another. */
  lemma {:induction false} HopAfter(T: Type, t: Plain, p: seq<string>, q: seq<string>, x: Plain)
    requires |p| > 0 && |q| > 0 && Next(T, t, p).Ok? && Next(T, t, q).Ok?
    ensures var h, g := Next(T, t, p).value, Next(T, t, q).value;
      Next(T, Put(h.base, h.step, x), q)
      == Ok(g.(base := Put(Joined(T, t, p, q), h.step, Searched(Over(T, q, h.step), x))))
  {
    if T.TStruct? {
      HopAfterStruct(T.fields, t, p, q, x);
    } else {
      HopAfterOther(T, t, p, q, x);
    }
  }

  lemma {:induction false} HopAfterOther(T: Type, t: Plain, p: seq<string>, q: seq<string>, x: Plain)
    requires !T.TStruct? && |p| > 0 && |q| > 0 && Next(T, t, p).Ok? && Next(T, t, q).Ok?
    ensures var h, g := Next(T, t, p).value, Next(T, t, q).value;
      Next(T, Put(h.base, h.step, x), q) == Ok(g.(base := Put(Joined(T, t, p, q), h.step, x)))
  {
  }

  lemma {:induction false} HopAfterStruct(fs: seq<Field>, t: Plain, p: seq<string>, q: seq<string>, x: Plain)
    requires |p| > 0 && |q| > 0 && Next(TStruct(fs), t, p).Ok? && Next(TStruct(fs), t, q).Ok?
    ensures var T := TStruct(fs);
      var h, g := Next(T, t, p).value, Next(T, t, q).value;
      Next(T, Put(h.base, h.step, x), q)
      == Ok(g.(base := Put(Joined(T, t, p, q), h.step, Searched(Over(T, q, h.step), x))))
  {
    var T := TStruct(fs);
    var h := Next(T, t, p).value;
    StructNext(fs, t, p);
    JoinedStruct(fs, t, p, q);
    StructSame(fs, t, Put(h.base, h.step, x), q);
    TouchPut(fs, h.base.items, h.step.i, x, Limit(fs, q[0]));
    TouchMax(fs, t.items, Limit(fs, p[0]), Limit(fs, q[0]));
  }

  /** The parts of the value after both searches. */
  lemma {:induction false} JoinedPart(T: Type, t: Plain, p: seq<string>, q: seq<string>)
    requires |p| > 0 && |q| > 0 && Next(T, t, p).Ok? && Next(T, t, q).Ok?
    ensures var g, j := Next(T, t, q).value, Joined(T, t, p, q);
      && (Child(j, g.step).Some? || (j.Entries? && g.step.Slot?))
      && (Child(g.base, g.step).Some? ==> Child(j, g.step) == Some(Searched(Over(T, p, g.step), Child(g.base, g.step).value)))
  {
    if T.TStruct? {
      StructPart(T.fields, t, p, q);
    } else {
      OtherPart(T, t, p, q);
    }
  }

  lemma {:induction false} StructPart(fs: seq<Field>, t: Plain, p: seq<string>, q: seq<string>)
    requires |p| > 0 && |q| > 0 && Next(TStruct(fs), t, p).Ok? && Next(TStruct(fs), t, q).Ok?
    ensures var T := TStruct(fs);
      var g, j := Next(T, t, q).value, Joined(T, t, p, q);
      && Child(j, g.step).Some? && Child(g.base, g.step).Some?
      && Child(j, g.step) == Some(Searched(Over(T, p, g.step), Child(g.base, g.step).value))
  {
    JoinedStruct(fs, t, p, q);
    StructNext(fs, t, q);
  }

  lemma {:induction false} OtherPart(T: Type, t: Plain, p: seq<string>, q: seq<string>)
    requires !T.TStruct? && |p| > 0 && |q| > 0 && Next(T, t, p).Ok? && Next(T, t, q).Ok?
    ensures var g, j := Next(T, t, q).value, Joined(T, t, p, q);
      j == g.base && (Child(j, g.step).Some? || (j.Entries? && g.step.Slot?))
  {
  }

  /** Two hops to one part: no search passes it, and both go on from one value. */
  lemma {:induction false} SameStep(T: Type, t: Plain, p: seq<string>, q: seq<string>)
    requires |p| > 0 && |q| > 0 && Next(T, t, p).Ok? && Next(T, t, q).Ok?
    requires Next(T, t, p).value.step == Next(T, t, q).value.step
    ensures var h, g := Next(T, t, p).value, Next(T, t, q).value;
      && g.typ == h.typ && Child(g.base, g.step) == Child(h.base, h.step)
      && Over(T, q, h.step).None? && Over(T, p, g.step).None?
  {
    if T.TStruct? {
      StructNext(T.fields, t, p);
      StructNext(T.fields, t, q);
    }
  }

  // ---------- Writing a value ----------

  /** The search for a path, and a value written where it leads. */
  function Write(T: Type, t: Plain, parts: seq<string>, v: Plain): Plain
    requires |parts| > 0
    decreases |parts|, Wraps(T, t), T
  {
    NextDescends(T, t, parts);
    var n := Next(T, t, parts);
    if n.Err? then t
    else
      var h := n.value;
      Put(h.base, h.step, if h.rest == [] then v else Write(h.typ, Child(h.base, h.step).value, h.rest, v))
  }

  /** An assignment writes the converted value, if its path resolves and its text converts. */
  lemma {:induction false} SetIsWrite(c: Codec, T: Type, t: Plain, parts: seq<string>, text: string)
    requires |parts| > 0
    ensures var r := Resolve(T, t, parts);
      Set(c, T, t, parts, text)
      == if r.Err? then Err(r.error)
         else var v := Convert(c, r.value.typ, text); if v.Ok? then Ok(Write(T, t, parts, v.value)) else v
    decreases |parts|, Wraps(T, t), T
  {
    NextDescends(T, t, parts);
    var n := Next(T, t, parts);
    if n.Ok? && n.value.rest != [] {
      SetIsWrite(c, n.value.typ, Child(n.value.base, n.value.step).value, n.value.rest, text);
    }
  }

  /** A write by its first hop. */
  function Part(h: Hop, v: Plain): Plain
    requires h.rest != [] ==> Child(h.base, h.step).Some?
  {
    if h.rest == [] then v else Write(h.typ, Child(h.base, h.step).value, h.rest, v)
  }

  lemma {:induction false} WriteByHop(T: Type, t: Plain, parts: seq<string>, v: Plain)
    requires |parts| > 0 && Next(T, t, parts).Ok?
    ensures var h := Next(T, t, parts).value;
      && (h.rest != [] ==> Child(h.base, h.step).Some?)
      && Write(T, t, parts, v) == Put(h.base, h.step, Part(h, v))
  {
    NextDescends(T, t, parts);
  }

  /** A resolved path by its first hop. */
  lemma {:induction false} ResolveByHop(T: Type, t: Plain, parts: seq<string>)
    requires |parts| > 0 && Next(T, t, parts).Ok?
    ensures var h := Next(T, t, parts).value;
      && (h.rest != [] ==> Child(h.base, h.step).Some?)
      && (h.rest == [] ==> Resolve(T, t, parts) == Ok(Site([h.step], h.typ)))
      && (h.rest != [] ==>
            var r := Resolve(h.typ, Child(h.base, h.step).value, h.rest);
            Resolve(T, t, parts) == if r.Ok? then Ok(Site([h.step] + r.value.loc, r.value.typ)) else r)
  {
    NextDescends(T, t, parts);
  }

  // ---------- Searched values ----------

  /** The type under which a search in vain passes a place inside what it searches. */
  function Under(T: Type, t: Plain, loc: seq<Step>): Option<Type>
    decreases |loc|
  {
    if loc == [] then Some(T)
    else
      match T
      case TStruct(fs) =>
        if t.Block? && |t.items| == |fs| && loc[0].At? && loc[0].i < |fs| && Embeds(fs[loc[0].i])
        then Under(fs[loc[0].i].typ, t.items[loc[0].i], loc[1..]) else None
      case TRef(_, target) =>
        if loc[0] != Deref then None
        else if t.Nil? then Under(target, Zero(target), loc[1..])
        else if t.Ref? then Under(target, t.to, loc[1..])
        else None
      case _ => None
  }

  /** The type under which the search for a path passes a place it does not lead to. */
  function Passed(T: Type, t: Plain, parts: seq<string>, loc: seq<Step>): Option<Type>
    requires |parts| > 0
    decreases |parts|, Wraps(T, t), T
  {
    NextDescends(T, t, parts);
    var n := Next(T, t, parts);
    if loc == [] || n.Err? then None
    else
      var h := n.value;
      if loc[0] == h.step then
        if h.rest == [] then None else Passed(h.typ, Child(h.base, h.step).value, h.rest, loc[1..])
      else if Over(T, parts, loc[0]).Some? && Child(t, loc[0]).Some? then
        Under(Over(T, parts, loc[0]).value, Child(t, loc[0]).value, loc[1..])
      else None
  }

  /** The type under which the search for one path passes the place another leads to. */
  function Sight(T: Type, t: Plain, searched: seq<string>, seen: seq<string>): Option<Type>
    requires |searched| > 0 && |seen| > 0 && Resolve(T, t, seen).Ok?
  {
    Passed(T, t, searched, Resolve(T, t, seen).value.loc)
  }

  /** A search in vain changes nothing about where a path leads. */
  lemma {:induction false} ResolveMissed(T: Type, t: Plain, parts: seq<string>)
    requires |parts| > 0
    ensures Resolve(T, Miss(T, t), parts) == Resolve(T, t, parts)
    decreases T
  {
    match T
    case TStruct(fs) =>
      if t.Block? && |t.items| == |fs| && Next(T, t, parts).Ok? {
        ResolveMissedStruct(fs, t, parts);
      } else if t.Block? && |t.items| == |fs| {
        assert Next(T, Miss(T, t), parts) == Next(T, t, parts);
      }
    case TRef(_, target) =>
      if t.Nil? {
        ResolveMissed(target, Zero(target), parts);
      } else if t.Ref? {
        ResolveMissed(target, t.to, parts);
      }
    case _ =>
  }

  lemma {:induction false} ResolveMissedStruct(fs: seq<Field>, t: Plain, parts: seq<string>)
    requires |parts| > 0 && Next(TStruct(fs), t, parts).Ok?
    ensures Resolve(TStruct(fs), Miss(TStruct(fs), t), parts) == Resolve(TStruct(fs), t, parts)
    decreases fs, 1
  {
    var T := TStruct(fs);
    var h := Next(T, t, parts).value;
    MissedHop(fs, t, parts);
    ResolveByHop(T, t, parts);
    ResolveByHop(T, Miss(T, t), parts);
    if h.rest != [] && Embeds(fs[h.step.i]) {
      ResolveMissed(fs[h.step.i].typ, t.items[h.step.i], h.rest);
    }
  }

  /** The hop into a struct searched in vain. */
  lemma {:induction false} MissedHop(fs: seq<Field>, t: Plain, parts: seq<string>)
    requires |parts| > 0 && Next(TStruct(fs), t, parts).Ok?
    ensures var T := TStruct(fs);
      var h, m := Next(T, t, parts).value, Miss(T, t);
      && t.Block? && |t.items| == |fs| && h.step.At? && h.step.i < |fs| && h.typ == fs[h.step.i].typ
      && Next(T, m, parts) == Ok(h.(base := m))
      && Child(h.base, h.step) == Some(t.items[h.step.i])
      && Child(m, h.step) == Some(if Embeds(fs[h.step.i]) then Miss(h.typ, t.items[h.step.i]) else t.items[h.step.i])
  {
    StructNext(fs, t, parts);
    StructSame(fs, t, Miss(TStruct(fs), t), parts);
    TouchMax(fs, t.items, |fs|, Limit(fs, parts[0]));
  }

  /** A write, then a search in vain: the search first, then the write of what it leaves. */
  lemma {:induction false} MissWrite(T: Type, t: Plain, parts: seq<string>, v: Plain)
    requires |parts| > 0 && Resolve(T, t, parts).Ok?
    ensures Miss(T, Write(T, t, parts, v)) == Write(T, Miss(T, t), parts, Searched(Under(T, t, Resolve(T, t, parts).value.loc), v))
    decreases T
  {
    WriteByHop(T, t, parts, v);
    ResolveByHop(T, t, parts);
    var h, loc := Next(T, t, parts).value, Resolve(T, t, parts).value.loc;
    assert loc[0] == h.step && h.rest != [] ==> loc[1..] == Resolve(h.typ, Child(h.base, h.step).value, h.rest).value.loc;
    match T
    case TStruct(fs) => MissWriteStruct(fs, t, parts, v);
    case TRef(_, target) => MissWriteRef(T, t, parts, v);
    case _ =>
  }

  lemma {:induction false} MissWriteRef(T: Type, t: Plain, parts: seq<string>, v: Plain)
    requires T.TRef? && |parts| > 0 && Resolve(T, t, parts).Ok?
    ensures Miss(T, Write(T, t, parts, v)) == Write(T, Miss(T, t), parts, Searched(Under(T, t, Resolve(T, t, parts).value.loc), v))
    decreases T, 0
  {
    var inner := if t.Nil? then Zero(T.target) else t.to;
    WriteByHop(T, t, parts, v);
    WriteByHop(T, Miss(T, t), parts, Searched(Under(T, t, Resolve(T, t, parts).value.loc), v));
    ResolveByHop(T, t, parts);
    var loc := Resolve(T, t, parts).value.loc;
    assert loc[1..] == Resolve(T.target, inner, parts).value.loc;
    MissWrite(T.target, inner, parts, v);
  }

  lemma {:induction false} MissWriteStruct(fs: seq<Field>, t: Plain, parts: seq<string>, v: Plain)
    requires |parts| > 0 && Resolve(TStruct(fs), t, parts).Ok?
    ensures var T := TStruct(fs);
      Miss(T, Write(T, t, parts, v)) == Write(T, Miss(T, t), parts, Searched(Under(T, t, Resolve(T, t, parts).value.loc), v))
    decreases fs, 1
  {
    var T := TStruct(fs);
    ResolveByHop(T, t, parts);
    var h, loc := Next(T, t, parts).value, Resolve(T, t, parts).value.loc;
    var v' := Searched(Under(T, t, loc), v);
    WriteByHop(T, t, parts, v);
    MissedHop(fs, t, parts);
    WriteByHop(T, Miss(T, t), parts, v');
    var i := h.step.i;
    MissAfterPut(fs, t, parts, Part(h, v));
    var inner := Under(fs[i].typ, t.items[i], loc[1..]);
    if h.rest != [] {
      assert loc[1..] == Resolve(h.typ, t.items[i], h.rest).value.loc;
      if Embeds(fs[i]) {
        MissWrite(fs[i].typ, t.items[i], h.rest, v);
      }
    }
  }

  lemma {:induction false} MissAfterPut(fs: seq<Field>, t: Plain, parts: seq<string>, x: Plain)
    requires |parts| > 0 && Next(TStruct(fs), t, parts).Ok?
    ensures var T := TStruct(fs);
      var h := Next(T, t, parts).value;
      && h.step.At? && h.step.i < |fs|
      && Miss(T, Put(h.base, h.step, x)) == Put(Miss(T, t), h.step, if Embeds(fs[h.step.i]) then Miss(fs[h.step.i].typ, x) else x)
  {
    var h := Next(TStruct(fs), t, parts).value;
    StructNext(fs, t, parts);
    TouchPut(fs, h.base.items, h.step.i, x, |fs|);
    TouchMax(fs, t.items, Limit(fs, parts[0]), |fs|);
  }

  // ---------- Two writes ----------

  /** Diverging paths, by their first hops. */
  lemma {:induction false} DivergeByHop(T: Type, t: Plain, p: seq<string>, q: seq<string>)
    requires |p| > 0 && |q| > 0 && Resolve(T, t, p).Ok? && Resolve(T, t, q).Ok?
    requires Diverge(Resolve(T, t, p).value.loc, Resolve(T, t, q).value.loc)
    ensures Next(T, t, p).Ok? && Next(T, t, q).Ok?
    ensures var h, g := Next(T, t, p).value, Next(T, t, q).value;
      h.step == g.step ==>
        && h.rest != [] && g.rest != [] && Child(h.base, h.step).Some? && Child(g.base, g.step) == Child(h.base, h.step) && g.typ == h.typ
        && Resolve(h.typ, Child(h.base, h.step).value, h.rest).Ok? && Resolve(h.typ, Child(h.base, h.step).value, g.rest).Ok?
        && Diverge(Resolve(h.typ, Child(h.base, h.step).value, h.rest).value.loc, Resolve(h.typ, Child(h.base, h.step).value, g.rest).value.loc)
  {
    ResolveByHop(T, t, p);
    ResolveByHop(T, t, q);
    if Next(T, t, p).value.step == Next(T, t, q).value.step {
      SameStep(T, t, p, q);
    }
  }

  /** Writing along one path does not change where a diverging one leads. */
  lemma {:induction false} ResolveAfter(T: Type, t: Plain, p: seq<string>, v: Plain, q: seq<string>)
    requires |p| > 0 && |q| > 0 && Resolve(T, t, p).Ok? && Resolve(T, t, q).Ok?
    requires Diverge(Resolve(T, t, p).value.loc, Resolve(T, t, q).value.loc)
    ensures Resolve(T, Write(T, t, p, v), q) == Resolve(T, t, q)
    decreases |p|, Wraps(T, t), T
  {
    NextDescends(T, t, p);
    DivergeByHop(T, t, p, q);
    var h, g := Next(T, t, p).value, Next(T, t, q).value;
    if h.step == g.step {
      ResolveAfter(h.typ, Child(h.base, h.step).value, h.rest, v, g.rest);
      AfterTogether(T, t, p, v, q);
    } else {
      AfterApart(T, t, p, v, q);
    }
  }

  lemma {:induction false} AfterTogether(T: Type, t: Plain, p: seq<string>, v: Plain, q: seq<string>)
    requires |p| > 0 && |q| > 0 && Next(T, t, p).Ok? && Next(T, t, q).Ok?
    requires var h, g := Next(T, t, p).value, Next(T, t, q).value;
      && h.step == g.step && h.rest != [] && g.rest != [] && Child(h.base, h.step).Some?
      && var inner := Child(h.base, h.step).value;
      Resolve(h.typ, Write(h.typ, inner, h.rest, v), g.rest) == Resolve(h.typ, inner, g.rest)
    ensures Resolve(T, Write(T, t, p, v), q) == Resolve(T, t, q)
  {
    var h := Next(T, t, p).value;
    WriteByHop(T, t, p, v);
    HopAfter(T, t, p, q, Part(h, v));
    ResolveByHop(T, t, q);
    ResolveByHop(T, Write(T, t, p, v), q);
    SameStep(T, t, p, q);
    JoinedPart(T, t, p, q);
    PutThenChild(Joined(T, t, p, q), h.step, Part(h, v), h.step);
  }

  lemma {:induction false} AfterApart(T: Type, t: Plain, p: seq<string>, v: Plain, q: seq<string>)
    requires |p| > 0 && |q| > 0 && Next(T, t, p).Ok? && Next(T, t, q).Ok?
    requires Next(T, t, p).value.step != Next(T, t, q).value.step
    ensures Resolve(T, Write(T, t, p, v), q) == Resolve(T, t, q)
  {
    var h, g, j := Next(T, t, p).value, Next(T, t, q).value, Joined(T, t, p, q);
    WriteByHop(T, t, p, v);
    HopAfter(T, t, p, q, Part(h, v));
    ResolveByHop(T, t, q);
    ResolveByHop(T, Write(T, t, p, v), q);
    JoinedPart(T, t, p, q);
    JoinedPart(T, t, q, p);
    JoinedSame(T, t, p, q);
    PutThenChild(j, h.step, Searched(Over(T, q, h.step), Part(h, v)), g.step);
    if g.rest != [] && Over(T, p, g.step).Some? {
      OverIsType(T, t, p, q);
      ResolveMissed(g.typ, Child(g.base, g.step).value, g.rest);
    }
  }

  /** A search that passes the part another path enters passes it under its type. */
  lemma {:induction false} OverIsType(T: Type, t: Plain, p: seq<string>, q: seq<string>)
    requires |p| > 0 && |q| > 0 && Next(T, t, p).Ok? && Next(T, t, q).Ok?
    requires Over(T, p, Next(T, t, q).value.step).Some?
    ensures Over(T, p, Next(T, t, q).value.step).value == Next(T, t, q).value.typ
    ensures Child(t, Next(T, t, q).value.step).Some? && Child(t, Next(T, t, q).value.step) == Child(Next(T, t, q).value.base, Next(T, t, q).value.step)
  {
    StructNext(T.fields, t, q);
  }

  /** A part another path enters, under the search of a path that passes it by: the part is written
      as the search leaves it. */
  lemma {:induction false} PassedPart(T: Type, t: Plain, p: seq<string>, q: seq<string>, v: Plain)
    requires |p| > 0 && |q| > 0 && Next(T, t, p).Ok? && Resolve(T, t, q).Ok?
    requires Next(T, t, p).value.step != Next(T, t, q).value.step
    ensures var g, j := Next(T, t, q).value, Joined(T, t, p, q);
      var v' := Searched(Sight(T, t, p, q), v);
      && (g.rest != [] ==> Child(g.base, g.step).Some? && Child(j, g.step).Some?)
      && (if g.rest == [] then v' else Write(g.typ, Child(j, g.step).value, g.rest, v')) == Searched(Over(T, p, g.step), Part(g, v))
  {
    ResolveByHop(T, t, q);
    JoinedPart(T, t, p, q);
    PassedOver(T, t, p, q);
    var g, loc := Next(T, t, q).value, Resolve(T, t, q).value.loc;
    if Over(T, p, g.step).Some? && g.rest != [] {
      OverIsType(T, t, p, q);
      assert loc[1..] == Resolve(g.typ, Child(g.base, g.step).value, g.rest).value.loc;
      MissWrite(g.typ, Child(g.base, g.step).value, g.rest, v);
    }
  }

  lemma {:induction false} PassedOver(T: Type, t: Plain, p: seq<string>, q: seq<string>)
    requires |p| > 0 && |q| > 0 && Next(T, t, p).Ok? && Resolve(T, t, q).Ok?
    requires Next(T, t, p).value.step != Next(T, t, q).value.step
    ensures var g, loc := Next(T, t, q).value, Resolve(T, t, q).value.loc;
      && loc != [] && loc[0] == g.step
      && (Over(T, p, g.step).None? ==> Passed(T, t, p, loc) == None)
      && (Over(T, p, g.step).Some? ==>
            Child(g.base, g.step).Some? && Passed(T, t, p, loc) == Under(g.typ, Child(g.base, g.step).value, loc[1..]))
  {
    ResolveByHop(T, t, q);
    if Over(T, p, Next(T, t, q).value.step).Some? {
      OverIsType(T, t, p, q);
    }
  }

  /** Two writes that part at once: both searches, and both parts as the other's search leaves them. */
  lemma {:induction false} WritesApart(T: Type, t: Plain, p: seq<string>, a: Plain, q: seq<string>, b: Plain)
    requires |p| > 0 && |q| > 0 && Resolve(T, t, p).Ok? && Resolve(T, t, q).Ok?
    requires Next(T, t, p).value.step != Next(T, t, q).value.step
    ensures var h, g, j := Next(T, t, p).value, Next(T, t, q).value, Joined(T, t, p, q);
      && (h.rest != [] ==> Child(h.base, h.step).Some?) && (g.rest != [] ==> Child(g.base, g.step).Some?)
      && Write(T, Write(T, t, p, a), q, Searched(Sight(T, t, p, q), b))
         == Put(Put(j, h.step, Searched(Over(T, q, h.step), Part(h, a))), g.step, Searched(Over(T, p, g.step), Part(g, b)))
  {
    var h, g, j := Next(T, t, p).value, Next(T, t, q).value, Joined(T, t, p, q);
    var b' := Searched(Sight(T, t, p, q), b);
    WriteByHop(T, t, p, a);
    WriteByHop(T, t, q, b);
    HopAfter(T, t, p, q, Part(h, a));
    WriteByHop(T, Write(T, t, p, a), q, b');
    PassedPart(T, t, p, q, b);
    JoinedPart(T, t, q, p);
    JoinedSame(T, t, p, q);
    PutThenChild(j, h.step, Searched(Over(T, q, h.step), Part(h, a)), g.step);
  }

  /** Two writes that go on together. */
  lemma {:induction false} WritesTogether(T: Type, t: Plain, p: seq<string>, a: Plain, q: seq<string>, b: Plain)
    requires |p| > 0 && |q| > 0 && Next(T, t, p).Ok? && Next(T, t, q).Ok?
    requires Next(T, t, p).value.step == Next(T, t, q).value.step
    ensures var h, g, j := Next(T, t, p).value, Next(T, t, q).value, Joined(T, t, p, q);
      && (h.rest != [] ==> Child(h.base, h.step).Some?)
      && Write(T, Write(T, t, p, a), q, b)
         == Put(j, h.step, if g.rest == [] then b else Write(h.typ, Part(h, a), g.rest, b))
  {
    var h, g, j := Next(T, t, p).value, Next(T, t, q).value, Joined(T, t, p, q);
    WriteByHop(T, t, p, a);
    HopAfter(T, t, p, q, Part(h, a));
    WriteByHop(T, Write(T, t, p, a), q, b);
    SameStep(T, t, p, q);
    JoinedPart(T, t, q, p);
    JoinedSame(T, t, p, q);
    PutThenChild(j, h.step, Part(h, a), h.step);
    PutTwice(j, h.step, Part(h, a), h.step, if g.rest == [] then b else Write(h.typ, Part(h, a), g.rest, b));
  }

  /** Two writes to diverging places meet, in either order, when each second one is written as the
      first one's search leaves it. */
  lemma {:induction false} WritesMeet(T: Type, t: Plain, p: seq<string>, a: Plain, q: seq<string>, b: Plain)
    requires |p| > 0 && |q| > 0 && Resolve(T, t, p).Ok? && Resolve(T, t, q).Ok?
    requires Diverge(Resolve(T, t, p).value.loc, Resolve(T, t, q).value.loc)
    ensures Write(T, Write(T, t, p, a), q, Searched(Sight(T, t, p, q), b))
         == Write(T, Write(T, t, q, b), p, Searched(Sight(T, t, q, p), a))
    decreases |p|, Wraps(T, t), T
  {
    NextDescends(T, t, p);
    DivergeByHop(T, t, p, q);
    var h, g := Next(T, t, p).value, Next(T, t, q).value;
    if h.step == g.step {
      WritesMeet(h.typ, Child(h.base, h.step).value, h.rest, a, g.rest, b);
      MeetTogether(T, t, p, a, q, b);
    } else {
      MeetApart(T, t, p, a, q, b);
    }
  }

  lemma {:induction false} MeetApart(T: Type, t: Plain, p: seq<string>, a: Plain, q: seq<string>, b: Plain)
    requires |p| > 0 && |q| > 0 && Resolve(T, t, p).Ok? && Resolve(T, t, q).Ok?
    requires Next(T, t, p).value.step != Next(T, t, q).value.step
    ensures Write(T, Write(T, t, p, a), q, Searched(Sight(T, t, p, q), b))
         == Write(T, Write(T, t, q, b), p, Searched(Sight(T, t, q, p), a))
  {
    var h, g, j := Next(T, t, p).value, Next(T, t, q).value, Joined(T, t, p, q);
    WritesApart(T, t, p, a, q, b);
    WritesApart(T, t, q, b, p, a);
    JoinedSame(T, t, p, q);
    JoinedPart(T, t, p, q);
    JoinedPart(T, t, q, p);
    PutTwice(j, h.step, Searched(Over(T, q, h.step), Part(h, a)), g.step, Searched(Over(T, p, g.step), Part(g, b)));
  }

  /** One search passes the place of the other inside the part they share. */
  lemma {:induction false} SightInside(T: Type, t: Plain, p: seq<string>, q: seq<string>)
    requires |p| > 0 && |q| > 0 && Resolve(T, t, p).Ok? && Resolve(T, t, q).Ok?
    requires Diverge(Resolve(T, t, p).value.loc, Resolve(T, t, q).value.loc)
    requires Next(T, t, p).value.step == Next(T, t, q).value.step
    ensures var h, g := Next(T, t, p).value, Next(T, t, q).value;
      && h.rest != [] && g.rest != [] && Child(h.base, h.step).Some?
      && var inner := Child(h.base, h.step).value;
      && Resolve(h.typ, inner, g.rest).Ok?
      && Sight(T, t, p, q) == Sight(h.typ, inner, h.rest, g.rest)
  {
    DivergeByHop(T, t, p, q);
    ResolveByHop(T, t, q);
    var h, g := Next(T, t, p).value, Next(T, t, q).value;
    var loc := Resolve(T, t, q).value.loc;
    assert loc[0] == h.step && loc[1..] == Resolve(h.typ, Child(h.base, h.step).value, g.rest).value.loc;
  }

  lemma {:induction false} MeetTogether(T: Type, t: Plain, p: seq<string>, a: Plain, q: seq<string>, b: Plain)
    requires |p| > 0 && |q| > 0 && Resolve(T, t, p).Ok? && Resolve(T, t, q).Ok?
    requires Diverge(Resolve(T, t, p).value.loc, Resolve(T, t, q).value.loc)
    requires Next(T, t, p).value.step == Next(T, t, q).value.step
    requires var h, g := Next(T, t, p).value, Next(T, t, q).value;
      && h.rest != [] && g.rest != [] && Child(h.base, h.step).Some?
      && var inner := Child(h.base, h.step).value;
      && Resolve(h.typ, inner, h.rest).Ok? && Resolve(h.typ, inner, g.rest).Ok?
      && Write(h.typ, Write(h.typ, inner, h.rest, a), g.rest, Searched(Sight(h.typ, inner, h.rest, g.rest), b))
         == Write(h.typ, Write(h.typ, inner, g.rest, b), h.rest, Searched(Sight(h.typ, inner, g.rest, h.rest), a))
    ensures Write(T, Write(T, t, p, a), q, Searched(Sight(T, t, p, q), b))
         == Write(T, Write(T, t, q, b), p, Searched(Sight(T, t, q, p), a))
  {
    SameStep(T, t, p, q);
    SightInside(T, t, p, q);
    SightInside(T, t, q, p);
    JoinedSame(T, t, p, q);
    WritesTogether(T, t, p, a, q, Searched(Sight(T, t, p, q), b));
    WritesTogether(T, t, q, b, p, Searched(Sight(T, t, q, p), a));
  }

  // ---------- Reading after a write ----------

  /** A write reads back, and its path leads to the same place. */
  lemma {:induction false} WriteReads(T: Type, t: Plain, parts: seq<string>, v: Plain)
    requires |parts| > 0 && Resolve(T, t, parts).Ok?
    ensures Resolve(T, Write(T, t, parts, v), parts) == Resolve(T, t, parts)
    ensures Read(Write(T, t, parts, v), Resolve(T, t, parts).value.loc) == Some(v)
    decreases |parts|, Wraps(T, t), T
  {
    NextDescends(T, t, parts);
    ResolveByHop(T, t, parts);
    WriteByHop(T, t, parts, v);
    var h := Next(T, t, parts).value;
    NextAgain(T, t, parts, Part(h, v));
    ResolveByHop(T, Write(T, t, parts, v), parts);
    if h.rest != [] {
      var inner := Child(h.base, h.step).value;
      WriteReads(h.typ, inner, h.rest, v);
      var loc := Resolve(h.typ, inner, h.rest).value.loc;
      assert ([h.step] + loc)[1..] == loc;
    }
  }

  /** What is read at a diverging place does not depend on the value written. */
  lemma {:induction false} ReadAside(T: Type, t: Plain, parts: seq<string>, v: Plain, w: Plain, loc: seq<Step>)
    requires |parts| > 0 && Resolve(T, t, parts).Ok? && Diverge(loc, Resolve(T, t, parts).value.loc)
    ensures Read(Write(T, t, parts, v), loc) == Read(Write(T, t, parts, w), loc)
    decreases |parts|, Wraps(T, t), T
  {
    NextDescends(T, t, parts);
    ResolveByHop(T, t, parts);
    DivergeTail(loc, Resolve(T, t, parts).value.loc);
    ReadByHop(T, t, parts, v, loc);
    ReadByHop(T, t, parts, w, loc);
    var h := Next(T, t, parts).value;
    if loc[0] == h.step {
      ReadAside(h.typ, Child(h.base, h.step).value, h.rest, v, w, loc[1..]);
    }
  }

  lemma DivergeTail(a: seq<Step>, b: seq<Step>)
    requires Diverge(a, b)
    ensures a != [] && b != [] && (a[0] == b[0] ==> a[1..] != [] && b[1..] != [] && Diverge(a[1..], b[1..]))
  {
    if a[0] == b[0] {
      assert a == [a[0]] + a[1..] && b == [b[0]] + b[1..];
    }
  }

  /** Reading after a write, by its first hop. */
  lemma {:induction false} ReadByHop(T: Type, t: Plain, parts: seq<string>, v: Plain, loc: seq<Step>)
    requires |parts| > 0 && Next(T, t, parts).Ok? && loc != []
    ensures var h := Next(T, t, parts).value;
      && (h.rest != [] ==> Child(h.base, h.step).Some?)
      && Read(Write(T, t, parts, v), loc)
         == if loc[0] == h.step then Read(Part(h, v), loc[1..]) else Read(h.base, loc)
  {
    var h := Next(T, t, parts).value;
    WriteByHop(T, t, parts, v);
    NextAgain(T, t, parts, Part(h, v));
    PutThenChild(h.base, h.step, Part(h, v), loc[0]);
  }

  // ---------- When order matters ----------

  /** No pointer to an embedded struct is nil, in embedded structs all the way down. */
  predicate Full(T: Type, v: Plain)
    decreases T
  {
    match T
    case TStruct(fs) =>
      v.Block? && |v.items| == |fs| ==> forall i :: 0 <= i < |fs| && Embeds(fs[i]) ==> Full(fs[i].typ, v.items[i])
    case TRef(_, target) => !v.Nil? && (v.Ref? ==> Full(target, v.to))
    case _ => true
  }

  /** Those are the values a search in vain leaves alone. */
  lemma {:induction false} FullIff(T: Type, v: Plain)
    ensures Miss(T, v) == v <==> Full(T, v)
    decreases T
  {
    match T
    case TStruct(fs) =>
      if v.Block? && |v.items| == |fs| {
        FullStruct(fs, v.items);
      }
    case TRef(_, target) =>
      if v.Ref? {
        FullIff(target, v.to);
      }
    case _ =>
  }

  lemma {:induction false} FullStruct(fs: seq<Field>, ts: seq<Plain>)
    requires |ts| == |fs|
    ensures TouchBelow(fs, ts, |fs|) == ts <==> forall i :: 0 <= i < |fs| && Embeds(fs[i]) ==> Full(fs[i].typ, ts[i])
    decreases fs
  {
    forall i | 0 <= i < |fs| && Embeds(fs[i]) ensures Miss(fs[i].typ, ts[i]) == ts[i] <==> Full(fs[i].typ, ts[i]) {
      FullIff(fs[i].typ, ts[i]);
    }
    var us := TouchBelow(fs, ts, |fs|);
    forall i | 0 <= i < |fs| ensures us[i] == if Embeds(fs[i]) then Miss(fs[i].typ, ts[i]) else ts[i] {
    }
  }

  /** A value that keeps still under a search, if one passes it. */
  predicate Settled(o: Option<Type>, v: Plain) {
    o.Some? ==> Full(o.value, v)
  }

  /** Two writes to diverging places commute exactly if neither value has an embedded pointer, nil, that
      the search for the other place goes through. */
  lemma {:induction false} WritesCommute(T: Type, t: Plain, p: seq<string>, a: Plain, q: seq<string>, b: Plain)
    requires |p| > 0 && |q| > 0 && Resolve(T, t, p).Ok? && Resolve(T, t, q).Ok?
    requires Diverge(Resolve(T, t, p).value.loc, Resolve(T, t, q).value.loc)
    ensures Write(T, Write(T, t, p, a), q, b) == Write(T, Write(T, t, q, b), p, a)
       <==> Settled(Sight(T, t, q, p), a) && Settled(Sight(T, t, p, q), b)
  {
    WritesMeet(T, t, p, a, q, b);
    SettledIff(Sight(T, t, q, p), a);
    SettledIff(Sight(T, t, p, q), b);
    if Write(T, Write(T, t, p, a), q, b) == Write(T, Write(T, t, q, b), p, a) {
      SeenAfter(T, t, p, a, q, b);
      SeenAfter(T, t, q, b, p, a);
    }
  }

  lemma SettledIff(o: Option<Type>, v: Plain)
    ensures Searched(o, v) == v <==> Settled(o, v)
  {
    if o.Some? {
      FullIff(o.value, v);
    }
  }

  /** After both writes the first place holds its value as the other search leaves it. */
  lemma {:induction false} SeenAfter(T: Type, t: Plain, p: seq<string>, a: Plain, q: seq<string>, b: Plain)
    requires |p| > 0 && |q| > 0 && Resolve(T, t, p).Ok? && Resolve(T, t, q).Ok?
    requires Diverge(Resolve(T, t, p).value.loc, Resolve(T, t, q).value.loc)
    ensures Read(Write(T, Write(T, t, p, a), q, b), Resolve(T, t, q).value.loc) == Some(b)
    ensures Read(Write(T, Write(T, t, p, a), q, b), Resolve(T, t, p).value.loc) == Some(Searched(Sight(T, t, q, p), a))
  {
    var b' := Searched(Sight(T, t, p, q), b);
    LastReads(T, t, p, a, q, b);
    LastReads(T, t, q, b, p, Searched(Sight(T, t, q, p), a));
    WritesMeet(T, t, p, a, q, b);
    ResolveAfter(T, t, p, a, q);
    ReadAside(T, Write(T, t, p, a), q, b, b', Resolve(T, t, p).value.loc);
  }

  lemma {:induction false} LastReads(T: Type, t: Plain, p: seq<string>, a: Plain, q: seq<string>, b: Plain)
    requires |p| > 0 && |q| > 0 && Resolve(T, t, p).Ok? && Resolve(T, t, q).Ok?
    requires Diverge(Resolve(T, t, p).value.loc, Resolve(T, t, q).value.loc)
    ensures Read(Write(T, Write(T, t, p, a), q, b), Resolve(T, t, q).value.loc) == Some(b)
  {
    ResolveAfter(T, t, p, a, q);
    WriteReads(T, Write(T, t, p, a), q, b);
  }
}
