/** Which texts name which place: the spelling of a location, written down from the value's shape, and
    what an assignment makes of the value there. */
module AssignmentPaths {
  import opened Text
  import opened Numerals
  import opened StringOrder
  import opened Assignment

  // ---------- How places are spelled ----------

  /** A text for a map key: the key itself, or its digits. */
  predicate SpellsKey(kind: KeyKind, k: Key, s: string) {
    match (kind, k)
    case (StrKey, KStr(name)) => s == name
    case (IntKey(bits), KInt(i)) => InRange(i, bits) && Numeral(s, i)
    case (UintKey(bits), KInt(i)) => 0 <= i < Pow2(bits) && DigitsOf(s, i)
    case _ => false
  }

  /** The first field that answers to a name. */
  predicate FirstNamed(fs: seq<Field>, i: nat, name: string) {
    i < |fs| && Answers(fs[i], name) && forall j :: 0 <= j < i ==> !Answers(fs[j], name)
  }

  /** No field answers to it, and this is the first embedded one below which it is found. */
  predicate FirstHolding(fs: seq<Field>, i: nat, name: string) {
    && i < |fs| && Embeds(fs[i]) && Has(fs[i].typ, name)
    && (forall j :: 0 <= j < |fs| ==> !Answers(fs[j], name))
    && (forall j :: 0 <= j < i ==> !(Embeds(fs[j]) && Has(fs[j].typ, name)))
  }

  /** The parts of a path spell a location: an element by its number, a field by its name, an entry by
      its key; pointers, slice and map headers and interfaces are entered without a name, and so are
      embedded fields if search is set. A nil pointer counts as one to a zero value. */
  predicate Spells(T: Type, t: Plain, loc: seq<Step>, parts: seq<string>, search: bool)
    decreases |loc|
  {
    && loc != [] && parts != []
    && match (T, loc[0])
       case (TRef(_, target), Deref) =>
         (t.Nil? || t.Ref?) && Spells(target, if t.Ref? then t.to else Zero(target), loc[1..], parts, search)
       case (TIface(_), Inside) => t.Dyn? && Spells(t.typ, t.held, loc[1..], parts, search)
       case (TStruct(fs), At(i)) =>
         && t.Block? && |t.items| == |fs|
         && ((FirstNamed(fs, i, parts[0]) && Onward(fs[i].typ, t.items[i], loc, parts, search))
             || (search && FirstHolding(fs, i, parts[0]) && Spells(fs[i].typ, t.items[i], loc[1..], parts, search)))
       case (TElems(e), At(i)) =>
         t.Block? && i < |t.items| && InRange(i, 64) && Numeral(parts[0], i) && Onward(e, t.items[i], loc, parts, search)
       case (TArray(_, e), At(i)) =>
         t.Block? && i < |t.items| && InRange(i, 64) && Numeral(parts[0], i) && Onward(e, t.items[i], loc, parts, search)
       case (TEntries(kind, e), Slot(k)) =>
         && t.Entries? && SpellsKey(kind, k, parts[0])
         && (if k in t.slots then Onward(e, t.slots[k], loc, parts, search) else |loc| == |parts| == 1)
       case _ => false
  }

  /** After a part that names a step: both end here, or the rest spells the rest. */
  predicate Onward(T: Type, t: Plain, loc: seq<Step>, parts: seq<string>, search: bool)
    requires loc != [] && parts != []
    decreases |loc|, 0
  {
    if |parts| == 1 then |loc| == 1 else |loc| > 1 && Spells(T, t, loc[1..], parts[1..], search)
  }

  /** The type of what is at a location. */
  function TypeAt(T: Type, t: Plain, loc: seq<Step>): Type
    decreases |loc|
  {
    if loc == [] then T
    else
      match (T, loc[0])
      case (TRef(_, target), Deref) => TypeAt(target, if t.Ref? then t.to else Zero(target), loc[1..])
      case (TIface(_), Inside) => if t.Dyn? then TypeAt(t.typ, t.held, loc[1..]) else T
      case (TStruct(fs), At(i)) =>
        if t.Block? && i < |t.items| == |fs| then TypeAt(fs[i].typ, t.items[i], loc[1..]) else T
      case (TElems(e), At(i)) => if t.Block? && i < |t.items| then TypeAt(e, t.items[i], loc[1..]) else T
      case (TArray(_, e), At(i)) => if t.Block? && i < |t.items| then TypeAt(e, t.items[i], loc[1..]) else T
      case (TEntries(_, e), Slot(k)) => if t.Entries? && k in t.slots then TypeAt(e, t.slots[k], loc[1..]) else e
      case _ => T
  }

  /** A chain of embedded fields down to a struct with a field that answers to a name. */
  predicate Leads(T: Type, chain: seq<nat>, name: string)
    decreases T
  {
    match T
    case TRef(_, target) => target.TStruct? && Leads(target, chain, name)
    case TStruct(fs) =>
      if chain == [] then exists i :: 0 <= i < |fs| && Answers(fs[i], name)
      else chain[0] < |fs| && Embeds(fs[chain[0]]) && Leads(fs[chain[0]].typ, chain[1..], name)
    case _ => false
  }

  ghost predicate Reached(T: Type, name: string) {
    exists chain: seq<nat> :: Leads(T, chain, name)
  }

  /** A name is found below a type exactly if such a chain leads to it. */
  lemma {:induction false} HasIff(T: Type, name: string)
    ensures Has(T, name) <==> Reached(T, name)
  {
    if Has(T, name) {
      var chain := ChainOf(T, name);
      assert Reached(T, name);
    }
    if Reached(T, name) {
      var chain: seq<nat> :| Leads(T, chain, name);
      ChainHas(T, chain, name);
    }
  }

  lemma {:induction false} ChainOf(T: Type, name: string) returns (chain: seq<nat>)
    requires Has(T, name)
    ensures Leads(T, chain, name)
    decreases T
  {
    match T
    case TRef(_, target) => chain := ChainOf(target, name);
    case TStruct(fs) =>
      chain := [];
      if i :| 0 <= i < |fs| && Embeds(fs[i]) && Has(fs[i].typ, name) {
        var more := ChainOf(fs[i].typ, name);
        chain := [i] + more;
        assert chain[1..] == more;
      }
  }

  lemma {:induction false} ChainHas(T: Type, chain: seq<nat>, name: string)
    requires Leads(T, chain, name)
    ensures Has(T, name)
    decreases T
  {
    match T
    case TRef(_, target) => ChainHas(target, chain, name);
    case TStruct(fs) =>
      if chain != [] {
        ChainHas(fs[chain[0]].typ, chain[1..], name);
      }
  }

  /** The name in a tag is what stands before its first comma. */
  lemma {:induction false} TagNameIff(tag: string, name: string)
    ensures TagName(tag) == name <==> ',' !in name && (tag == name || name + [','] <= tag)
  {
    if ',' !in name && tag == name {
      SplitPrefix(name, [], ',');
    } else if ',' !in name && name + [','] <= tag {
      var rest := tag[|name| + 1..];
      assert tag == name + [','] + rest;
      SplitPrefix(name, rest, ',');
    }
    var own := TagName(tag);
    TagStarts(tag);
    assert own == name ==> ',' !in name && (tag == name || name + [','] <= tag);
  }

  lemma {:induction false} TagStarts(tag: string)
    ensures tag == TagName(tag) || TagName(tag) + [','] <= tag
  {
    if tag != [] && tag[0] != ',' {
      TagStarts(tag[1..]);
      assert TagName(tag) == [tag[0]] + TagName(tag[1..]);
      assert tag == [tag[0]] + tag[1..];
    }
  }

  // ---------- Paths lead where they are spelled ----------

  lemma {:induction false} KeyIff(kind: KeyKind, k: Key, s: string)
    ensures SpellsKey(kind, k, s) <==> MapKey(kind, s) == Some(k)
  {
    match (kind, k)
    case (IntKey(bits), KInt(i)) => ParseIntIff(s, bits, i);
    case (UintKey(bits), KInt(i)) => ParseUintIff(s, bits, i);
    case _ =>
  }

  /** What a hop says of the rest of a location. */
  predicate Follows(h: Hop, loc: seq<Step>) {
    && loc != [] && loc[0] == h.step
    && (if h.rest == [] then |loc| == 1
        else Child(h.base, h.step).Some? && Spells(h.typ, Child(h.base, h.step).value, loc[1..], h.rest, true))
  }

  predicate Hops(T: Type, t: Plain, loc: seq<Step>, parts: seq<string>)
    requires |parts| > 0
  {
    Next(T, t, parts).Ok? && Follows(Next(T, t, parts).value, loc)
  }

  lemma {:induction false} StructHops(T: Type, t: Plain, loc: seq<Step>, parts: seq<string>)
    requires |parts| > 0 && T.TStruct?
    ensures Spells(T, t, loc, parts, true) <==> Hops(T, t, loc, parts)
  {
    if t.Block? && |t.items| == |T.fields| {
      var fs := T.fields;
      var i, j := FirstDirect(fs, parts[0], 0), FirstEmbedded(fs, parts[0], 0);
      if loc != [] && loc[0].At? {
        assert FirstNamed(fs, loc[0].i, parts[0]) <==> i < |fs| && loc[0].i == i;
        assert FirstHolding(fs, loc[0].i, parts[0]) <==> i == |fs| && j < |fs| && loc[0].i == j;
      }
    }
  }

  lemma NumbersAre(s: string)
    ensures forall i: int :: ParseInt(s, 64) == Some(i) <==> InRange(i, 64) && Numeral(s, i)
  {
    forall i: int ensures ParseInt(s, 64) == Some(i) <==> InRange(i, 64) && Numeral(s, i) {
      ParseIntIff(s, 64, i);
    }
  }

  lemma {:induction false} ElemsHops(T: Type, t: Plain, loc: seq<Step>, parts: seq<string>)
    requires |parts| > 0 && T.TElems?
    ensures Spells(T, t, loc, parts, true) <==> Hops(T, t, loc, parts)
  {
    NumbersAre(parts[0]);
  }

  lemma {:induction false} ArrayHops(T: Type, t: Plain, loc: seq<Step>, parts: seq<string>)
    requires |parts| > 0 && T.TArray?
    ensures Spells(T, t, loc, parts, true) <==> Hops(T, t, loc, parts)
  {
    NumbersAre(parts[0]);
  }

  lemma {:induction false} SlotHops(T: Type, t: Plain, loc: seq<Step>, parts: seq<string>)
    requires |parts| > 0 && T.TEntries?
    ensures Spells(T, t, loc, parts, true) <==> Hops(T, t, loc, parts)
  {
    if loc != [] && loc[0].Slot? {
      KeyIff(T.key, loc[0].k, parts[0]);
    }
    var k := MapKey(T.key, parts[0]);
    if k.Some? {
      KeyIff(T.key, k.value, parts[0]);
    }
  }

  lemma {:induction false} SpellsByHop(T: Type, t: Plain, loc: seq<Step>, parts: seq<string>)
    requires |parts| > 0
    ensures Spells(T, t, loc, parts, true) <==> Hops(T, t, loc, parts)
  {
    match T
    case TStruct(_) => StructHops(T, t, loc, parts);
    case TElems(_) => ElemsHops(T, t, loc, parts);
    case TArray(_, _) => ArrayHops(T, t, loc, parts);
    case TEntries(_, _) => SlotHops(T, t, loc, parts);
    case _ =>
  }

  lemma {:induction false} TypeByHop(T: Type, t: Plain, loc: seq<Step>, parts: seq<string>)
    requires |parts| > 0 && Hops(T, t, loc, parts)
    ensures var h := Next(T, t, parts).value;
      TypeAt(T, t, loc) == if h.rest == [] then h.typ else TypeAt(h.typ, Child(h.base, h.step).value, loc[1..])
  {
  }

  /** A path leads to a location exactly if it spells it, in every type and value. */
  lemma {:induction false} ResolveIff(T: Type, t: Plain, parts: seq<string>, loc: seq<Step>)
    requires |parts| > 0
    ensures Resolve(T, t, parts).Ok? && Resolve(T, t, parts).value.loc == loc <==> Spells(T, t, loc, parts, true)
    ensures Spells(T, t, loc, parts, true) ==> Resolve(T, t, parts).value.typ == TypeAt(T, t, loc)
    decreases |parts|, Wraps(T, t), T
  {
    NextDescends(T, t, parts);
    SpellsByHop(T, t, loc, parts);
    if Next(T, t, parts).Ok? && loc != [] {
      var h := Next(T, t, parts).value;
      assert loc == [loc[0]] + loc[1..];
      if h.rest != [] {
        var inner := Child(h.base, h.step).value;
        ResolveIff(h.typ, inner, h.rest, loc[1..]);
        var r := Resolve(h.typ, inner, h.rest);
        assert r.Ok? ==> ([h.step] + r.value.loc)[1..] == r.value.loc;
      }
      if Hops(T, t, loc, parts) {
        TypeByHop(T, t, loc, parts);
      }
    }
  }

  // ---------- What an assignment makes of the value ----------

  /** The value with x at a location: storage on the way that is nil becomes that of a zero value, and a
      map gains the key it lacks. */
  function Replaced(T: Type, t: Plain, loc: seq<Step>, x: Plain): Plain
    decreases |loc|
  {
    if loc == [] then x
    else
      match (T, loc[0])
      case (TRef(_, target), Deref) => Ref((), Replaced(target, if t.Ref? then t.to else Zero(target), loc[1..], x))
      case (TIface(_), Inside) => if t.Dyn? then Dyn(t.typ, Replaced(t.typ, t.held, loc[1..], x)) else t
      case (TStruct(fs), At(i)) =>
        if t.Block? && i < |t.items| == |fs| then Block(t.items[i := Replaced(fs[i].typ, t.items[i], loc[1..], x)]) else t
      case (TElems(e), At(i)) => if t.Block? && i < |t.items| then Block(t.items[i := Replaced(e, t.items[i], loc[1..], x)]) else t
      case (TArray(_, e), At(i)) => if t.Block? && i < |t.items| then Block(t.items[i := Replaced(e, t.items[i], loc[1..], x)]) else t
      case (TEntries(_, e), Slot(k)) =>
        if t.Entries? then Entries(t.slots[k := if k in t.slots then Replaced(e, t.slots[k], loc[1..], x) else x]) else t
      case _ => t
  }

  lemma {:induction false} WithoutSearch(T: Type, t: Plain, loc: seq<Step>, parts: seq<string>)
    requires Spells(T, t, loc, parts, false)
    ensures Spells(T, t, loc, parts, true)
    decreases |loc|
  {
    match (T, loc[0])
    case (TRef(_, target), Deref) => WithoutSearch(target, if t.Ref? then t.to else Zero(target), loc[1..], parts);
    case (TIface(_), Inside) => WithoutSearch(t.typ, t.held, loc[1..], parts);
    case (TStruct(fs), At(i)) => OnwardWithoutSearch(fs[i].typ, t.items[i], loc, parts);
    case (TElems(e), At(i)) => OnwardWithoutSearch(e, t.items[i], loc, parts);
    case (TArray(_, e), At(i)) => OnwardWithoutSearch(e, t.items[i], loc, parts);
    case (TEntries(_, e), Slot(k)) =>
      if k in t.slots {
        OnwardWithoutSearch(e, t.slots[k], loc, parts);
      }
  }

  lemma {:induction false} OnwardWithoutSearch(T: Type, t: Plain, loc: seq<Step>, parts: seq<string>)
    requires loc != [] && parts != [] && Onward(T, t, loc, parts, false)
    ensures Onward(T, t, loc, parts, true)
    decreases |loc|, 0
  {
    if |parts| > 1 {
      WithoutSearch(T, t, loc[1..], parts[1..]);
    }
  }

  /** One hop of the replacement, where no field is found through an embedded one. */
  lemma {:induction false} ReplacedByHop(T: Type, t: Plain, loc: seq<Step>, parts: seq<string>, x: Plain)
    requires Spells(T, t, loc, parts, false)
    ensures Hops(T, t, loc, parts)
    ensures var h := Next(T, t, parts).value;
      && (h.rest != [] ==> Spells(h.typ, Child(h.base, h.step).value, loc[1..], h.rest, false))
      && Replaced(T, t, loc, x) ==
         Put(h.base, h.step, if h.rest == [] then x else Replaced(h.typ, Child(h.base, h.step).value, loc[1..], x))
  {
    WithoutSearch(T, t, loc, parts);
    SpellsByHop(T, t, loc, parts);
    var h := Next(T, t, parts).value;
    if |loc| == 1 {
      assert loc[1..] == [];
    }
    if T.TStruct? {
      var i := loc[0].i;
      assert FirstDirect(T.fields, parts[0], 0) == i;
    } else if T.TRef? && t.Ref? {
      assert t.at == ();
    }
  }

  /** An assignment whose path spells a location by full names puts the converted text there and leaves
      all else as it is; it fails exactly if the text does not convert to the type of the location. */
  lemma {:induction false} AssignsThere(c: Codec, T: Type, t: Plain, loc: seq<Step>, parts: seq<string>, text: string)
    requires Spells(T, t, loc, parts, false)
    ensures var x := Convert(c, TypeAt(T, t, loc), text);
      Set(c, T, t, parts, text) == if x.Ok? then Ok(Replaced(T, t, loc, x.value)) else x
    decreases |loc|
  {
    var x := Convert(c, TypeAt(T, t, loc), text);
    var y := if x.Ok? then x.value else Nil;
    ReplacedByHop(T, t, loc, parts, y);
    TypeByHop(T, t, loc, parts);
    SetByHop(c, T, t, parts, text);
    var h := Next(T, t, parts).value;
    if h.rest != [] {
      AssignsThere(c, h.typ, Child(h.base, h.step).value, loc[1..], h.rest, text);
    }
  }

  // ---------- Every place has a path ----------

  /** A location all of whose fields are exported and hidden by no earlier one, that ends at an element, a
      field or an entry. */
  predicate Nameable(T: Type, t: Plain, loc: seq<Step>)
    decreases |loc|
  {
    && loc != []
    && match (T, loc[0])
       case (TRef(_, target), Deref) =>
         (t.Nil? || t.Ref?) && Nameable(target, if t.Ref? then t.to else Zero(target), loc[1..])
       case (TIface(_), Inside) => t.Dyn? && Nameable(t.typ, t.held, loc[1..])
       case (TStruct(fs), At(i)) =>
         && t.Block? && i < |t.items| == |fs| && FirstNamed(fs, i, fs[i].name)
         && (|loc| == 1 || Nameable(fs[i].typ, t.items[i], loc[1..]))
       case (TElems(e), At(i)) =>
         t.Block? && i < |t.items| && InRange(i, 64) && (|loc| == 1 || Nameable(e, t.items[i], loc[1..]))
       case (TArray(_, e), At(i)) =>
         t.Block? && i < |t.items| && InRange(i, 64) && (|loc| == 1 || Nameable(e, t.items[i], loc[1..]))
       case (TEntries(kind, e), Slot(k)) =>
         && t.Entries? && SpellsKey(kind, k, KeyText(k))
         && (|loc| == 1 || (k in t.slots && Nameable(e, t.slots[k], loc[1..])))
       case _ => false
  }

  function KeyText(k: Key): string {
    match k
    case KStr(s) => s
    case KInt(i) => Signed(i)
  }

  /** Its path: decimal numbers, Go names and keys. */
  function PathOf(T: Type, t: Plain, loc: seq<Step>): seq<string>
    requires Nameable(T, t, loc)
    decreases |loc|
  {
    match (T, loc[0])
    case (TRef(_, target), Deref) => PathOf(target, if t.Ref? then t.to else Zero(target), loc[1..])
    case (TIface(_), Inside) => PathOf(t.typ, t.held, loc[1..])
    case (TStruct(fs), At(i)) => [fs[i].name] + if |loc| == 1 then [] else PathOf(fs[i].typ, t.items[i], loc[1..])
    case (TElems(e), At(i)) => [Decimal(i)] + if |loc| == 1 then [] else PathOf(e, t.items[i], loc[1..])
    case (TArray(_, e), At(i)) => [Decimal(i)] + if |loc| == 1 then [] else PathOf(e, t.items[i], loc[1..])
    case (TEntries(_, e), Slot(k)) => [KeyText(k)] + if |loc| == 1 then [] else PathOf(e, t.slots[k], loc[1..])
  }

  lemma {:induction false} PathSpells(T: Type, t: Plain, loc: seq<Step>)
    requires Nameable(T, t, loc)
    ensures Spells(T, t, loc, PathOf(T, t, loc), false)
    decreases |loc|
  {
    var parts := PathOf(T, t, loc);
    match (T, loc[0])
    case (TRef(_, target), Deref) => PathSpells(target, if t.Ref? then t.to else Zero(target), loc[1..]);
    case (TIface(_), Inside) => PathSpells(t.typ, t.held, loc[1..]);
    case (TStruct(fs), At(i)) => PathOnward(fs[i].typ, t.items[i], loc, parts);
    case (TElems(e), At(i)) =>
      SignedIsNumeral(i);
      PathOnward(e, t.items[i], loc, parts);
    case (TArray(_, e), At(i)) =>
      SignedIsNumeral(i);
      PathOnward(e, t.items[i], loc, parts);
    case (TEntries(_, e), Slot(k)) =>
      if k in t.slots {
        PathOnward(e, t.slots[k], loc, parts);
      }
  }

  lemma {:induction false} PathOnward(T: Type, t: Plain, loc: seq<Step>, parts: seq<string>)
    requires loc != [] && parts != [] && (|loc| == 1 || Nameable(T, t, loc[1..]))
    requires parts[1..] == if |loc| == 1 then [] else PathOf(T, t, loc[1..])
    ensures Onward(T, t, loc, parts, false)
    decreases |loc|, 0
  {
    if |loc| > 1 {
      PathSpells(T, t, loc[1..]);
    }
  }

  /** Every such location is where its path leads, and an assignment there changes it alone. */
  lemma {:induction false} PathLeadsThere(c: Codec, T: Type, t: Plain, loc: seq<Step>, text: string)
    requires Nameable(T, t, loc)
    ensures var parts := PathOf(T, t, loc); var x := Convert(c, TypeAt(T, t, loc), text);
      && parts != []
      && Resolve(T, t, parts) == Ok(Site(loc, TypeAt(T, t, loc)))
      && Set(c, T, t, parts, text) == if x.Ok? then Ok(Replaced(T, t, loc, x.value)) else x
  {
    var parts := PathOf(T, t, loc);
    PathSpells(T, t, loc);
    WithoutSearch(T, t, loc, parts);
    ResolveIff(T, t, parts, loc);
    AssignsThere(c, T, t, loc, parts, text);
  }

  /** In particular of an element of a list. */
  lemma {:induction false} ElementAssigned(c: Codec, e: Type, ts: seq<Plain>, i: nat, text: string, x: Plain)
    requires i < |ts| && InRange(i, 64) && Convert(c, e, text) == Ok(x)
    ensures Set(c, TElems(e), Block(ts), [Decimal(i)], text) == Ok(Block(ts[i := x]))
  {
    var T, t, loc := TElems(e), Block(ts), [At(i)];
    SignedIsNumeral(i);
    assert loc[1..] == [];
    PathLeadsThere(c, T, t, loc, text);
  }

  /** The same through the dotted text of a whole assignment, for names without dots that no trimming
      changes. */
  lemma {:induction false} DottedPath(c: Codec, T: Type, t: Plain, loc: seq<Step>, text: string)
    requires T.TRef? && T.kind != SliceHeader && t.Ref? && Nameable(T, t, loc)
    requires Free(PathOf(T, t, loc), '.')
    requires var path := Join(PathOf(T, t, loc), '.'); path != "" && TrimSpace(path) == path
    ensures var x := Convert(c, TypeAt(T, t, loc), text);
      Apply(c, T, t, [Assign(Join(PathOf(T, t, loc), '.'), text)])
        == if x.Ok? then Ok(Replaced(T, t, loc, x.value)) else x
  {
    var parts := PathOf(T, t, loc);
    var a := Assign(Join(parts, '.'), text);
    PathLeadsThere(c, T, t, loc, text);
    SplitJoin(parts, '.');
    assert [a][1..] == [];
    var r := SetTop(c, T, t, a);
    assert r.Ok? ==> Apply(c, T, r.value, []) == r;
  }

  // ---------- Refusals ----------

  /** Why a list refuses the next part of a path: it is no number, or none of the list's. */
  lemma {:induction false} ElementRefused(e: Type, ts: seq<Plain>, parts: seq<string>, T: Type)
    requires |parts| > 0 && (T == TElems(e) || exists n :: T == TArray(n, e))
    ensures Next(T, Block(ts), parts) == Err(ExpectedIndex) <==> forall i: int :: !(InRange(i, 64) && Numeral(parts[0], i))
    ensures Next(T, Block(ts), parts) == Err(OutOfRange)
       <==> exists i: int :: InRange(i, 64) && Numeral(parts[0], i) && (i < 0 || i >= |ts|)
  {
    NumbersAre(parts[0]);
    var n := ParseInt(parts[0], 64);
    if n.Some? {
      assert InRange(n.value, 64) && Numeral(parts[0], n.value);
    }
  }

  /** Why a map does: the part spells no key, or one that is not there and should lead on. */
  lemma {:induction false} EntryRefused(kind: KeyKind, e: Type, m: map<Key, Plain>, parts: seq<string>)
    requires |parts| > 0
    ensures Next(TEntries(kind, e), Entries(m), parts) == Err(BadKey) <==> forall k :: !SpellsKey(kind, k, parts[0])
    ensures Next(TEntries(kind, e), Entries(m), parts) == Err(KeyNotFound)
       <==> |parts| > 1 && exists k :: SpellsKey(kind, k, parts[0]) && k !in m
  {
    forall k ensures SpellsKey(kind, k, parts[0]) <==> MapKey(kind, parts[0]) == Some(k) {
      KeyIff(kind, k, parts[0]);
    }
    var k := MapKey(kind, parts[0]);
    if k.Some? {
      assert SpellsKey(kind, k.value, parts[0]);
    }
  }

  /** Why a struct does: no field answers, nor any below its embedded ones. */
  lemma {:induction false} FieldRefused(fs: seq<Field>, ts: seq<Plain>, parts: seq<string>)
    requires |parts| > 0 && |ts| == |fs|
    ensures Next(TStruct(fs), Block(ts), parts) == Err(FieldNotFound) <==> !Has(TStruct(fs), parts[0])
  {
    var i, j := FirstDirect(fs, parts[0], 0), FirstEmbedded(fs, parts[0], 0);
    assert i < |fs| ==> Answers(fs[i], parts[0]);
    assert j < |fs| ==> Embeds(fs[j]) && Has(fs[j].typ, parts[0]);
  }

  /** What else refuses: a nil interface, and every value that has no parts. */
  lemma OthersRefused(T: Type, t: Plain, parts: seq<string>)
    requires |parts| > 0
    ensures T.TIface? && t.Nil? ==> Next(T, t, parts) == Err(NilInterface)
    ensures T.TStr? || T.TInt? || T.TUint? || T.TFloat? || T.TBool? || T.TOther? ==> Next(T, t, parts) == Err(NotTraversable)
  {
  }

  /** Why an assignment is refused before its path is followed. */
  lemma {:induction false} TopRefused(c: Codec, T: Type, t: Plain, a: Assign)
    ensures !(T.TRef? && (T.kind == Pointer || T.kind == MapHeader)) ==> SetTop(c, T, t, a) == Err(UnsupportedTarget)
    ensures T.TRef? && (T.kind == Pointer || T.kind == MapHeader) ==>
              && (t.Nil? ==> SetTop(c, T, t, a) == Err(NilTarget))
              && (!t.Nil? && TrimSpace(a.path) == "" ==> SetTop(c, T, t, a) == Err(EmptyPath))
              && (!t.Nil? && TrimSpace(a.path) != "" ==> SetTop(c, T, t, a) == Set(c, T, t, Split(TrimSpace(a.path), '.'), a.text))
  {
  }
}
