/** The configuration assignment engine of cmd/config_assignment.go on value trees:
    what one dotted assignment means, and what a list of them means. */
module Assignment {
  import opened Text

  // ---------- Go types and values ----------

  /** The three kinds of value that refer to storage of their own. */
  datatype RefKind = Pointer | SliceHeader | MapHeader

  datatype KeyKind = StrKey | IntKey(bits: nat) | UintKey(bits: nat) | OtherKey

  /** A slice type is a reference to TElems, a map type a reference to TEntries. */
  datatype Type =
    | TStr | TInt(bits: nat) | TUint(bits: nat) | TFloat(bits: nat) | TBool
    | TIface(empty: bool)
    | TRef(kind: RefKind, target: Type)
    | TStruct(fields: seq<Field>)
    | TElems(elem: Type)
    | TArray(len: nat, elem: Type)
    | TEntries(key: KeyKind, elem: Type)
    | TOther

  datatype Field = Field(name: string, yamlTag: string, jsonTag: string, exported: bool, anonymous: bool, typ: Type)

  datatype Scalar = Str(s: string) | Int(i: int) | Bool(b: bool) | Float(ieee: nat)

  datatype Key = KStr(s: string) | KInt(i: int)

  /** A value unfolded into a tree. A is what is known of the identity of referenced
      storage: nothing, (), in the meaning of an assignment; the object, in the heap model.
      Hidden is an unexported field: copied as it is, never entered. */
  datatype Tree<+A> =
    | Leaf(scalar: Scalar)
    | Nil
    | Block(items: seq<Tree<A>>)
    | Entries(slots: map<Key, Tree<A>>)
    | Ref(at: A, to: Tree<A>)
    | Dyn(typ: Type, held: Tree<A>)
    | Hidden(id: int)

  type Plain = Tree<()>

  datatype Error =
    | EmptyPath | NilTarget | UnsupportedTarget | NilInterface | ExpectedIndex | OutOfRange
    | FieldNotFound | BadKey | KeyNotFound | NotTraversable | BadValue

  datatype Result<+T> = Ok(value: T) | Err(error: Error)

  /** reflect.Zero. */
  function Zero(T: Type): Plain {
    match T
    case TStr => Leaf(Str(""))
    case TInt(_) => Leaf(Int(0))
    case TUint(_) => Leaf(Int(0))
    case TFloat(_) => Leaf(Float(0))
    case TBool => Leaf(Bool(false))
    case TStruct(fs) => Block(seq(|fs|, i requires 0 <= i < |fs| => if fs[i].exported then Zero(fs[i].typ) else Hidden(0)))
    case TElems(_) => Block([])
    case TArray(n, e) => var z := Zero(e); Block(seq(n, _ => z))
    case TEntries(_, _) => Entries(map[])
    case _ => Nil
  }

  // ---------- Text to value ----------

  /** The two conversions whose code is a library's: JSON decoding and float parsing. */
  datatype Codec = Codec(unmarshal: (Type, string) -> Option<Plain>, parseFloat: (nat, string) -> Option<nat>)

  function OrBad(o: Option<Plain>): Result<Plain> {
    if o.Some? then Ok(o.value) else Err(BadValue)
  }

  function TrimAll(items: seq<string>): seq<Plain> {
    seq(|items|, i requires 0 <= i < |items| => Leaf(Str(TrimSpace(items[i]))))
  }

  /** parseInterfaceValue: text for an empty interface. */
  function InterfaceValue(c: Codec, text: string): Result<Plain> {
    var trimmed := TrimSpace(text);
    if HasPrefix(trimmed, "{") || HasPrefix(trimmed, "[") then OrBad(c.unmarshal(TIface(true), text))
    else if ParseBool(text).Some? then Ok(Dyn(TBool, Leaf(Bool(ParseBool(text).value))))
    else if ParseInt(text, 64).Some? then Ok(Dyn(TInt(64), Leaf(Int(ParseInt(text, 64).value))))
    else Ok(Dyn(TStr, Leaf(Str(text))))
  }

  /** reflectValueFromString. No parsed value implements a non-empty interface. */
  function Convert(c: Codec, T: Type, text: string): Result<Plain> {
    var trimmed := TrimSpace(text);
    match T
    case TRef(Pointer, target) =>
      if trimmed == "null" then Ok(Nil)
      else
        var r := Convert(c, target, text);
        if r.Ok? then Ok(Ref((), r.value)) else r
    case TStr => Ok(Leaf(Str(text)))
    case TInt(bits) =>
      var n := ParseInt(text, bits); if n.Some? then Ok(Leaf(Int(n.value))) else Err(BadValue)
    case TUint(bits) =>
      var n := ParseUint(text, bits); if n.Some? then Ok(Leaf(Int(n.value))) else Err(BadValue)
    case TFloat(bits) =>
      var f := c.parseFloat(bits, text); if f.Some? then Ok(Leaf(Float(f.value))) else Err(BadValue)
    case TBool =>
      var b := ParseBool(text); if b.Some? then Ok(Leaf(Bool(b.value))) else Err(BadValue)
    case TIface(empty) => if empty then InterfaceValue(c, text) else Err(BadValue)
    case TRef(SliceHeader, target) =>
      if target == TElems(TUint(8)) && HasPrefix(trimmed, "[") then Err(BadValue)
      else if target == TElems(TStr) && !HasPrefix(trimmed, "[") then
        Ok(Ref((), Block(if text == "" then [] else TrimAll(Split(text, ',')))))
      else OrBad(c.unmarshal(T, text))
    case TRef(MapHeader, _) => OrBad(c.unmarshal(T, text))
    case TStruct(_) => OrBad(c.unmarshal(T, text))
    case TArray(_, _) => OrBad(c.unmarshal(T, text))
    case _ => Err(BadValue)
  }

  // ---------- Locations ----------

  /** One step from a value to a part of it. */
  datatype Step = Deref | Inside | At(i: nat) | Slot(k: Key)

  function Child<A>(t: Tree<A>, s: Step): Option<Tree<A>> {
    match (t, s)
    case (Ref(_, to), Deref) => Some(to)
    case (Dyn(_, v), Inside) => Some(v)
    case (Block(ts), At(i)) => if i < |ts| then Some(ts[i]) else None
    case (Entries(m), Slot(k)) => if k in m then Some(m[k]) else None
    case _ => None
  }

  /** Replaces one part; a map gains the key if it lacks it. */
  function Put<A>(t: Tree<A>, s: Step, x: Tree<A>): Tree<A> {
    match (t, s)
    case (Ref(a, _), Deref) => Ref(a, x)
    case (Dyn(d, _), Inside) => Dyn(d, x)
    case (Block(ts), At(i)) => if i < |ts| then Block(ts[i := x]) else t
    case (Entries(m), Slot(k)) => Entries(m[k := x])
    case _ => t
  }

  function Read(t: Plain, loc: seq<Step>): Option<Plain> {
    if loc == [] then Some(t)
    else
      var c := Child(t, loc[0]);
      if c.Some? then Read(c.value, loc[1..]) else None
  }

  // ---------- One hop of a path ----------

  function TagName(tag: string): string {
    Split(tag, ',')[0]
  }

  /** A field answers to its Go, yaml and json names. */
  predicate Answers(f: Field, name: string) {
    f.exported && (f.name == name || TagName(f.yamlTag) == name || TagName(f.jsonTag) == name)
  }

  predicate Embeds(f: Field) {
    f.exported && f.anonymous && (f.typ.TStruct? || EmbedsPointer(f))
  }

  predicate EmbedsPointer(f: Field) {
    f.exported && f.anonymous && f.typ.TRef? && f.typ.kind.Pointer? && f.typ.target.TStruct?
  }

  function FirstDirect(fs: seq<Field>, name: string, from: nat): (r: nat)
    requires from <= |fs|
    ensures from <= r <= |fs|
    ensures r < |fs| ==> Answers(fs[r], name)
    ensures forall j :: from <= j < r ==> !Answers(fs[j], name)
    decreases |fs| - from
  {
    if from == |fs| || Answers(fs[from], name) then from else FirstDirect(fs, name, from + 1)
  }

  /** Whether findField finds the name in a struct, or in the struct a pointer refers to. */
  predicate Has(T: Type, name: string) {
    match T
    case TStruct(fs) =>
      || (exists i :: 0 <= i < |fs| && Answers(fs[i], name))
      || (exists i :: 0 <= i < |fs| && Embeds(fs[i]) && Has(fs[i].typ, name))
    case TRef(_, target) => target.TStruct? && Has(target, name)
    case _ => false
  }

  function FirstEmbedded(fs: seq<Field>, name: string, from: nat): (r: nat)
    requires from <= |fs|
    ensures from <= r <= |fs|
    ensures r < |fs| ==> Embeds(fs[r]) && Has(fs[r].typ, name)
    ensures forall j :: from <= j < r ==> !(Embeds(fs[j]) && Has(fs[j].typ, name))
    decreases |fs| - from
  {
    if from == |fs| || (Embeds(fs[from]) && Has(fs[from].typ, name)) then from else FirstEmbedded(fs, name, from + 1)
  }

  /** What a failed search leaves behind in an embedded struct: every nil embedded pointer
      it went through now refers to a zero struct. */
  function Miss(T: Type, t: Plain): Plain {
    match T
    case TStruct(fs) =>
      if t.Block? && |t.items| == |fs| then Block(TouchBelow(fs, t.items, |fs|)) else t
    case TRef(_, target) =>
      if t.Nil? then Ref((), Miss(target, Zero(target)))
      else if t.Ref? then Ref(t.at, Miss(target, t.to))
      else t
    case _ => t
  }

  function TouchBelow(fs: seq<Field>, ts: seq<Plain>, limit: nat): (r: seq<Plain>)
    requires |ts| == |fs|
    ensures |r| == |ts|
    ensures forall i :: limit <= i < |ts| ==> r[i] == ts[i]
    ensures forall i :: 0 <= i < |ts| && !Embeds(fs[i]) ==> r[i] == ts[i]
    decreases fs
  {
    seq(|ts|, i requires 0 <= i < |ts| => if i < limit && Embeds(fs[i]) then Miss(fs[i].typ, ts[i]) else ts[i])
  }

  /** Where the head of a path leads: the step, the type found there, the value as the search
      left it, and the path still to go. */
  datatype Hop = Hop(step: Step, typ: Type, base: Plain, rest: seq<string>)

  function MapKey(kind: KeyKind, raw: string): Option<Key> {
    match kind
    case StrKey => Some(KStr(raw))
    case IntKey(bits) => var n := ParseInt(raw, bits); if n.Some? then Some(KInt(n.value)) else None
    case UintKey(bits) => var n := ParseUint(raw, bits); if n.Some? then Some(KInt(n.value)) else None
    case OtherKey => None
  }

  function StructHop(fs: seq<Field>, ts: seq<Plain>, parts: seq<string>): Result<Hop>
    requires |parts| > 0
  {
    if |ts| != |fs| then Err(NotTraversable)
    else
      var i := FirstDirect(fs, parts[0], 0);
      if i < |fs| then Ok(Hop(At(i), fs[i].typ, Block(ts), parts[1..]))
      else
        var j := FirstEmbedded(fs, parts[0], 0);
        if j < |fs| then Ok(Hop(At(j), fs[j].typ, Block(TouchBelow(fs, ts, j)), parts))
        else Err(FieldNotFound)
  }

  function IndexHop(elem: Type, ts: seq<Plain>, parts: seq<string>): Result<Hop>
    requires |parts| > 0
  {
    var n := ParseInt(parts[0], 64);
    if n.None? then Err(ExpectedIndex)
    else if n.value < 0 || n.value >= |ts| then Err(OutOfRange)
    else Ok(Hop(At(n.value), elem, Block(ts), parts[1..]))
  }

  function SlotHop(kind: KeyKind, elem: Type, m: map<Key, Plain>, parts: seq<string>): Result<Hop>
    requires |parts| > 0
  {
    var k := MapKey(kind, parts[0]);
    if k.None? then Err(BadKey)
    else if |parts| > 1 && k.value !in m then Err(KeyNotFound)
    else Ok(Hop(Slot(k.value), elem, Entries(m), parts[1..]))
  }

  /** One level of setFieldPath. A nil pointer, slice or map is given empty storage on the way:
      for a slice every index is then out of range, for a map only a last component finds a place. */
  function Next(T: Type, t: Plain, parts: seq<string>): Result<Hop>
    requires |parts| > 0
  {
    match T
    case TRef(_, target) =>
      if t.Nil? then Ok(Hop(Deref, target, Ref((), Zero(target)), parts))
      else if t.Ref? then Ok(Hop(Deref, target, t, parts))
      else Err(NotTraversable)
    case TIface(_) =>
      if t.Nil? then Err(NilInterface)
      else if t.Dyn? then Ok(Hop(Inside, t.typ, t, parts))
      else Err(NotTraversable)
    case TStruct(fs) => if t.Block? then StructHop(fs, t.items, parts) else Err(NotTraversable)
    case TElems(e) => if t.Block? then IndexHop(e, t.items, parts) else Err(NotTraversable)
    case TArray(_, e) => if t.Block? then IndexHop(e, t.items, parts) else Err(NotTraversable)
    case TEntries(kind, e) => if t.Entries? then SlotHop(kind, e, t.slots, parts) else Err(NotTraversable)
    case _ => Err(NotTraversable)
  }

  /** Interfaces entered before a path component is used up. */
  function Wraps(T: Type, t: Plain): nat
    decreases t
  {
    match (T, t)
    case (TRef(_, target), Ref(_, to)) => Wraps(target, to)
    case (TIface(_), Dyn(d, v)) => 1 + Wraps(d, v)
    case _ => 0
  }

  /** A hop that is not the last has a value to go on from, and the walk gets shorter. */
  lemma NextDescends(T: Type, t: Plain, parts: seq<string>)
    requires |parts| > 0
    ensures Next(T, t, parts).Ok? ==>
              var h := Next(T, t, parts).value;
              && (h.rest == parts || h.rest == parts[1..])
              && (h.rest != [] ==>
                    && Child(h.base, h.step).Some?
                    && var c := Child(h.base, h.step).value;
                    (|h.rest| < |parts| || Wraps(h.typ, c) < Wraps(T, t) || (Wraps(h.typ, c) == Wraps(T, t) && h.typ < T)))
  {
  }

  // ---------- What an assignment means ----------

  /** The place a path names: the steps to it and the type of what is stored there. */
  datatype Site = Site(loc: seq<Step>, typ: Type)

  function Resolve(T: Type, t: Plain, parts: seq<string>): Result<Site>
    requires |parts| > 0
    decreases |parts|, Wraps(T, t), T
  {
    NextDescends(T, t, parts);
    var n := Next(T, t, parts);
    if n.Err? then Err(n.error)
    else
      var h := n.value;
      if h.rest == [] then Ok(Site([h.step], h.typ))
      else
        var r := Resolve(h.typ, Child(h.base, h.step).value, h.rest);
        if r.Ok? then Ok(Site([h.step] + r.value.loc, r.value.typ)) else r
  }

  /** setFieldPath: follow the path, convert the text for the type found, put it there. */
  function Set(c: Codec, T: Type, t: Plain, parts: seq<string>, text: string): Result<Plain>
    requires |parts| > 0
    decreases |parts|, Wraps(T, t), T
  {
    NextDescends(T, t, parts);
    var n := Next(T, t, parts);
    if n.Err? then Err(n.error)
    else
      var h := n.value;
      var r :=
        if h.rest == [] then Convert(c, h.typ, text)
        else Set(c, h.typ, Child(h.base, h.step).value, h.rest, text);
      if r.Ok? then Ok(Put(h.base, h.step, r.value)) else r
  }

  /** The value an assignment writes one hop down. */
  function Written(c: Codec, h: Hop, x: string): Result<Plain>
    requires h.rest != [] ==> Child(h.base, h.step).Some?
  {
    if h.rest == [] then Convert(c, h.typ, x) else Set(c, h.typ, Child(h.base, h.step).value, h.rest, x)
  }

  lemma {:induction false} SetByHop(c: Codec, T: Type, t: Plain, parts: seq<string>, text: string)
    requires |parts| > 0 && Next(T, t, parts).Ok?
    ensures var h := Next(T, t, parts).value;
      && (h.rest != [] ==> Child(h.base, h.step).Some?)
      && var x := Written(c, h, text);
      Set(c, T, t, parts, text) == if x.Ok? then Ok(Put(h.base, h.step, x.value)) else x
  {
    NextDescends(T, t, parts);
  }

  datatype Assign = Assign(path: string, text: string)

  /** setField, on a target that is a pointer or a map. */
  function SetTop(c: Codec, T: Type, t: Plain, a: Assign): Result<Plain> {
    if !(T.TRef? && T.kind != SliceHeader) then Err(UnsupportedTarget)
    else if t.Nil? then Err(NilTarget)
    else
      var path := TrimSpace(a.path);
      if path == "" then Err(EmptyPath) else Set(c, T, t, Split(path, '.'), a.text)
  }

  /** The assignments of a list, one after the other, up to the first that fails. */
  function Apply(c: Codec, T: Type, t: Plain, assigns: seq<Assign>): Result<Plain>
    decreases |assigns|
  {
    if assigns == [] then Ok(t)
    else
      var r := SetTop(c, T, t, assigns[0]);
      if r.Ok? then Apply(c, T, r.value, assigns[1..]) else r
  }
}
