/** Laws of assignment on value trees: read-back, frame, overwriting, commutation and
    composition of lists. */
module AssignmentLaws {
  import opened Text
  import opened Assignment

  // ---------- Hops ----------

  lemma {:induction false} PutThenChild(t: Plain, s: Step, x: Plain, s': Step)
    requires Child(t, s).Some? || (t.Entries? && s.Slot?)
    ensures Child(Put(t, s, x), s) == Some(x)
    ensures s' != s ==> Child(Put(t, s, x), s') == Child(t, s')
  {
  }

  lemma {:induction false} PutTwice(t: Plain, s: Step, x: Plain, s': Step, y: Plain)
    requires Child(t, s).Some? || (t.Entries? && s.Slot?)
    requires Child(t, s').Some? || (t.Entries? && s'.Slot?)
    ensures s == s' ==> Put(Put(t, s, x), s', y) == Put(t, s', y)
    ensures s != s' ==> Put(Put(t, s, x), s', y) == Put(Put(t, s', y), s, x)
  {
    if t.Block? {
      assert s == s' ==> t.items[s.i := x][s'.i := y] == t.items[s'.i := y];
      assert s != s' ==> t.items[s.i := x][s'.i := y] == t.items[s'.i := y][s.i := x];
    } else if t.Entries? {
      assert s == s' ==> t.slots[s.k := x][s'.k := y] == t.slots[s'.k := y];
      assert s != s' ==> t.slots[s.k := x][s'.k := y] == t.slots[s'.k := y][s.k := x];
    }
  }

  /** Searching again changes nothing more. */
  lemma {:induction false} MissTwice(T: Type, t: Plain)
    ensures Miss(T, Miss(T, t)) == Miss(T, t)
    decreases T
  {
    match T
    case TStruct(fs) =>
      if t.Block? && |t.items| == |fs| {
        TouchTwice(fs, t.items, |fs|);
      }
    case TRef(_, target) =>
      if t.Nil? {
        MissTwice(target, Zero(target));
      } else if t.Ref? {
        MissTwice(target, t.to);
      }
    case _ =>
  }

  lemma {:induction false} TouchTwice(fs: seq<Field>, ts: seq<Plain>, limit: nat)
    requires |ts| == |fs|
    ensures TouchBelow(fs, TouchBelow(fs, ts, limit), limit) == TouchBelow(fs, ts, limit)
    decreases fs
  {
    forall i | 0 <= i < |ts| && i < limit && Embeds(fs[i])
      ensures Miss(fs[i].typ, Miss(fs[i].typ, ts[i])) == Miss(fs[i].typ, ts[i])
    {
      MissTwice(fs[i].typ, ts[i]);
    }
  }

  /** Having written where a path leads, the path leads there again. */
  lemma {:induction false} NextAgain(T: Type, t: Plain, parts: seq<string>, x: Plain)
    requires |parts| > 0 && Next(T, t, parts).Ok?
    ensures var h := Next(T, t, parts).value;
      var t' := Put(h.base, h.step, x);
      && Next(T, t', parts) == Ok(h.(base := t'))
      && Child(t', h.step) == Some(x)
      && (Child(h.base, h.step).Some? || (h.base.Entries? && h.step.Slot?))
  {
    if T.TStruct? {
      var fs, ts := T.fields, t.items;
      var j := FirstEmbedded(fs, parts[0], 0);
      if FirstDirect(fs, parts[0], 0) == |fs| {
        TouchTwice(fs, ts, j);
        assert TouchBelow(fs, TouchBelow(fs, ts, j)[j := x], j) == TouchBelow(fs, ts, j)[j := x];
      }
    }
  }

  // ---------- Success and read-back ----------

  /** An assignment succeeds exactly when its path resolves and its text converts to the type
      found there; it then reads back, and the path still names the same place. */
  lemma {:induction false} ReadBack(c: Codec, T: Type, t: Plain, parts: seq<string>, text: string)
    requires |parts| > 0
    ensures Set(c, T, t, parts, text).Ok? <==>
              Resolve(T, t, parts).Ok? && Convert(c, Resolve(T, t, parts).value.typ, text).Ok?
    ensures Set(c, T, t, parts, text).Ok? ==>
              var t' := Set(c, T, t, parts, text).value;
              var site := Resolve(T, t, parts).value;
              && Resolve(T, t', parts) == Ok(site)
              && Read(t', site.loc) == Some(Convert(c, site.typ, text).value)
    decreases |parts|, Wraps(T, t), T
  {
    NextDescends(T, t, parts);
    if Next(T, t, parts).Ok? {
      var h := Next(T, t, parts).value;
      if h.rest == [] {
        if Convert(c, h.typ, text).Ok? {
          NextAgain(T, t, parts, Convert(c, h.typ, text).value);
        }
      } else {
        var inner := Child(h.base, h.step).value;
        ReadBack(c, h.typ, inner, h.rest, text);
        var r := Set(c, h.typ, inner, h.rest, text);
        if r.Ok? {
          NextAgain(T, t, parts, r.value);
          var site := Resolve(h.typ, inner, h.rest).value;
          assert ([h.step] + site.loc)[1..] == site.loc;
        }
      }
    }
  }

  // ---------- Frame ----------

  predicate Diverge(a: seq<Step>, b: seq<Step>) {
    !(a <= b) && !(b <= a)
  }

  /** y is x with some nil references given storage, and nothing else changed. */
  predicate Grown(x: Plain, y: Plain)
    decreases x
  {
    || x == y
    || (x.Nil? && y.Ref?)
    || (x.Ref? && y.Ref? && Grown(x.to, y.to))
    || (x.Block? && y.Block? && |x.items| == |y.items| && forall i :: 0 <= i < |x.items| ==> Grown(x.items[i], y.items[i]))
  }

  lemma {:induction false} MissGrows(T: Type, t: Plain)
    ensures Grown(t, Miss(T, t))
    decreases T
  {
    match T
    case TStruct(fs) =>
      if t.Block? && |t.items| == |fs| {
        TouchGrows(fs, t.items, |fs|);
      }
    case TRef(_, target) =>
      if t.Ref? {
        MissGrows(target, t.to);
      }
    case _ =>
  }

  lemma {:induction false} TouchGrows(fs: seq<Field>, ts: seq<Plain>, limit: nat)
    requires |ts| == |fs|
    ensures Grown(Block(ts), Block(TouchBelow(fs, ts, limit)))
    decreases fs
  {
    forall i | 0 <= i < |ts| ensures Grown(ts[i], TouchBelow(fs, ts, limit)[i]) {
      if i < limit && Embeds(fs[i]) {
        MissGrows(fs[i].typ, ts[i]);
      }
    }
  }

  lemma {:induction false} GrownRead(x: Plain, y: Plain, loc: seq<Step>)
    requires Grown(x, y) && Read(x, loc).Some?
    ensures Read(y, loc).Some? && Grown(Read(x, loc).value, Read(y, loc).value)
    decreases loc
  {
    if loc != [] && x != y {
      GrownRead(Child(x, loc[0]).value, Child(y, loc[0]).value, loc[1..]);
    }
  }

  // ---------- Types without embedded pointers ----------

  /** No struct anywhere in the type embeds a pointer to a struct. */
  predicate Tame(T: Type) {
    match T
    case TRef(_, target) => Tame(target)
    case TStruct(fs) => forall i :: 0 <= i < |fs| ==> !EmbedsPointer(fs[i]) && Tame(fs[i].typ)
    case TElems(e) => Tame(e)
    case TArray(_, e) => Tame(e)
    case TEntries(_, e) => Tame(e)
    case _ => true
  }

  /** The same of every type found inside an interface. */
  predicate TameTree(t: Plain) {
    match t
    case Block(ts) => forall i :: 0 <= i < |ts| ==> TameTree(ts[i])
    case Entries(m) => forall k :: k in m ==> TameTree(m[k])
    case Ref(_, to) => TameTree(to)
    case Dyn(d, v) => Tame(d) && TameTree(v)
    case _ => true
  }

  lemma {:induction false} ZeroIsTame(T: Type)
    ensures TameTree(Zero(T))
  {
    match T
    case TStruct(fs) =>
      forall i | 0 <= i < |fs| ensures TameTree(Zero(fs[i].typ)) {
        ZeroIsTame(fs[i].typ);
      }
    case TArray(_, e) => ZeroIsTame(e);
    case _ =>
  }

  lemma {:induction false} TameMiss(T: Type, t: Plain)
    requires Tame(T) && T.TStruct?
    ensures Miss(T, t) == t
    decreases T
  {
    if t.Block? && |t.items| == |T.fields| {
      TameTouch(T.fields, t.items, |T.fields|);
    }
  }

  lemma {:induction false} TameTouch(fs: seq<Field>, ts: seq<Plain>, limit: nat)
    requires |ts| == |fs| && forall i :: 0 <= i < |fs| ==> !EmbedsPointer(fs[i]) && Tame(fs[i].typ)
    ensures TouchBelow(fs, ts, limit) == ts
    decreases fs
  {
    forall i | 0 <= i < |ts| && Embeds(fs[i]) ensures Miss(fs[i].typ, ts[i]) == ts[i] {
      TameMiss(fs[i].typ, ts[i]);
    }
  }

  lemma {:induction false} TameNext(T: Type, t: Plain, parts: seq<string>)
    requires |parts| > 0 && Tame(T) && TameTree(t) && Next(T, t, parts).Ok?
    ensures var h := Next(T, t, parts).value;
      && Tame(h.typ)
      && h.base == (if t.Nil? then Ref((), Zero(h.typ)) else t)
      && (Child(h.base, h.step).Some? ==> TameTree(Child(h.base, h.step).value))
  {
    if t.Nil? && T.TRef? {
      ZeroIsTame(T.target);
    }
    if T.TStruct? {
      TameTouch(T.fields, t.items, FirstEmbedded(T.fields, parts[0], 0));
    }
  }

  /** A successful assignment leaves every other place as it was: one that is neither on the way
      to the place assigned nor inside it. Search through embedded pointers may give a nil one
      storage; without embedded pointers nothing at all changes there. */
  lemma {:induction false} Frame(c: Codec, T: Type, t: Plain, parts: seq<string>, text: string, loc: seq<Step>)
    requires |parts| > 0 && Set(c, T, t, parts, text).Ok?
    requires Resolve(T, t, parts).Ok? && Diverge(loc, Resolve(T, t, parts).value.loc)
    requires Read(t, loc).Some?
    ensures var t' := Set(c, T, t, parts, text).value;
      && Read(t', loc).Some?
      && Grown(Read(t, loc).value, Read(t', loc).value)
      && (Tame(T) && TameTree(t) ==> Read(t', loc) == Read(t, loc))
    decreases |parts|, Wraps(T, t), T
  {
    NextDescends(T, t, parts);
    SetByHop(c, T, t, parts, text);
    var h := Next(T, t, parts).value;
    var site := Resolve(T, t, parts).value;
    assert site.loc[0] == h.step;
    if Tame(T) && TameTree(t) {
      TameNext(T, t, parts);
    }
    if loc[0] == h.step {
      var inner := Child(h.base, h.step).value;
      assert Child(t, h.step) == Some(inner);
      NextAgain(T, t, parts, Written(c, h, text).value);
      assert site.loc == [h.step] + site.loc[1..] && loc == [h.step] + loc[1..];
      Frame(c, h.typ, inner, h.rest, text, loc[1..]);
    } else {
      FrameAside(T, t, parts, Written(c, h, text).value, loc);
    }
  }

  lemma {:induction false} FrameAside(T: Type, t: Plain, parts: seq<string>, x: Plain, loc: seq<Step>)
    requires |parts| > 0 && Next(T, t, parts).Ok? && loc != [] && Read(t, loc).Some?
    requires loc[0] != Next(T, t, parts).value.step
    ensures var h := Next(T, t, parts).value;
      var t' := Put(h.base, h.step, x);
      && Read(t', loc).Some?
      && Grown(Read(t, loc).value, Read(t', loc).value)
      && (h.base == t ==> Read(t', loc) == Read(t, loc))
  {
    var h := Next(T, t, parts).value;
    NextGrows(T, t, parts);
    NextAgain(T, t, parts, x);
    PutThenChild(h.base, h.step, x, loc[0]);
    GrownRead(t, h.base, loc);
  }

  lemma {:induction false} NextGrows(T: Type, t: Plain, parts: seq<string>)
    requires |parts| > 0 && Next(T, t, parts).Ok?
    ensures Grown(t, Next(T, t, parts).value.base)
  {
    if T.TStruct? {
      TouchGrows(T.fields, t.items, FirstEmbedded(T.fields, parts[0], 0));
    }
  }

  // ---------- Lists of assignments ----------

  /** A list in two parts means the first part, then the second. */
  lemma {:induction false} ApplyConcat(c: Codec, T: Type, t: Plain, a: seq<Assign>, b: seq<Assign>)
    ensures Apply(c, T, t, a + b) ==
            (var r := Apply(c, T, t, a); if r.Ok? then Apply(c, T, r.value, b) else r)
    decreases |a|
  {
    if a == [] {
      assert a + b == b;
    } else {
      var r := SetTop(c, T, t, a[0]);
      assert (a + b)[0] == a[0] && (a + b)[1..] == a[1..] + b;
      if r.Ok? {
        ApplyConcat(c, T, r.value, a[1..], b);
      }
    }
  }
}
