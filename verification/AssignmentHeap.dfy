/** The assignment engine as it runs: values that refer to shared, mutable storage, a deep
    clone, assignment in place on the clone, and one write that commits it. */
module AssignmentHeap {
  import opened Text
  import opened Assignment

  /** Storage with an identity: a pointer's variable, a slice's array or a map's table. */
  class Box {
    var val: Value

    constructor (v: Value)
      ensures val == v
    {
      val := v;
    }
  }

  datatype Value =
    | VLeaf(scalar: Scalar)
    | VNil
    | VBlock(items: seq<Value>)
    | VEntries(slots: map<Key, Value>)
    | VRef(box: Box)
    | VDyn(typ: Type, held: Value)
    | VHidden(id: int)

  type Placed = Tree<Box>

  /** The storage a value refers to, directly or through other storage. */
  ghost function Foot(t: Placed): set<Box> {
    match t
    case Block(ts) => set i, b | 0 <= i < |ts| && b in Foot(ts[i]) :: b
    case Entries(m) => set k, b | k in m && b in Foot(m[k]) :: b
    case Ref(at, to) => {at} + Foot(to)
    case Dyn(_, v) => Foot(v)
    case _ => {}
  }

  ghost function FootOf(ts: seq<Placed>): set<Box> {
    Foot(Block(ts))
  }

  /** No storage is referred to twice. */
  ghost predicate Sep(t: Placed) {
    match t
    case Block(ts) => SepOf(ts)
    case Entries(m) =>
      && (forall k :: k in m ==> Sep(m[k]))
      && (forall k, k' :: k in m && k' in m && k != k' ==> Foot(m[k]) !! Foot(m[k']))
    case Ref(at, to) => at !in Foot(to) && Sep(to)
    case Dyn(_, v) => Sep(v)
    case _ => true
  }

  ghost predicate SepOf(ts: seq<Placed>) {
    && (forall i :: 0 <= i < |ts| ==> Sep(ts[i]))
    && (forall i, j :: 0 <= i < j < |ts| ==> Foot(ts[i]) !! Foot(ts[j]))
  }

  /** The value without the identities of its storage. */
  ghost function Erase(t: Placed): Plain {
    match t
    case Leaf(s) => Leaf(s)
    case Nil => Nil
    case Block(ts) => Block(seq(|ts|, i requires 0 <= i < |ts| => Erase(ts[i])))
    case Entries(m) => Entries(map k | k in m :: Erase(m[k]))
    case Ref(_, to) => Ref((), Erase(to))
    case Dyn(d, v) => Dyn(d, Erase(v))
    case Hidden(id) => Hidden(id)
  }

  /** In the present heap the value v unfolds into t. Sharing is allowed; cycles are not. */
  ghost predicate Rep(v: Value, t: Placed)
    reads Foot(t)
    decreases t
  {
    match t
    case Leaf(s) => v == VLeaf(s)
    case Nil => v == VNil
    case Block(ts) => v.VBlock? && |v.items| == |ts| && forall i :: 0 <= i < |ts| ==> Rep(v.items[i], ts[i])
    case Entries(m) => v.VEntries? && v.slots.Keys == m.Keys && forall k :: k in m ==> Rep(v.slots[k], m[k])
    case Ref(at, to) => v == VRef(at) && Rep(at.val, to)
    case Dyn(d, w) => v.VDyn? && v.typ == d && Rep(v.held, w)
    case Hidden(id) => v == VHidden(id)
  }

  // ---------- Separation ----------

  lemma {:induction false} SepAppend(ts: seq<Placed>, t: Placed)
    requires SepOf(ts) && Sep(t) && FootOf(ts) !! Foot(t)
    ensures SepOf(ts + [t]) && FootOf(ts + [t]) == FootOf(ts) + Foot(t)
  {
    var us := ts + [t];
    assert forall i :: 0 <= i < |ts| ==> us[i] == ts[i] && Foot(ts[i]) <= FootOf(ts);
    assert us[|ts|] == t;
    forall b | b in FootOf(ts) + Foot(t) ensures b in FootOf(us) {
      if b in Foot(t) {
        assert b in Foot(us[|ts|]);
      } else {
        var i :| 0 <= i < |ts| && b in Foot(ts[i]);
        assert b in Foot(us[i]);
      }
    }
  }

  lemma {:induction false} SepInsert(m: map<Key, Placed>, k: Key, t: Placed)
    requires Sep(Entries(m)) && Sep(t) && k !in m && Foot(Entries(m)) !! Foot(t)
    ensures Sep(Entries(m[k := t])) && Foot(Entries(m[k := t])) == Foot(Entries(m)) + Foot(t)
  {
    var n := m[k := t];
    assert forall j :: j in m ==> Foot(m[j]) <= Foot(Entries(m));
    forall b | b in Foot(Entries(m)) + Foot(t) ensures b in Foot(Entries(n)) {
      if b in Foot(t) {
        assert b in Foot(n[k]);
      } else {
        var j :| j in m && b in Foot(m[j]);
        assert b in Foot(n[j]);
      }
    }
  }

  lemma {:induction false} RepInsert(vs: map<Key, Value>, m: map<Key, Placed>, k: Key, x: Value, t: Placed)
    requires Rep(VEntries(vs), Entries(m)) && Rep(x, t)
    ensures Rep(VEntries(vs[k := x]), Entries(m[k := t]))
  {
  }

  lemma {:induction false} EraseSlots(m: map<Key, Placed>, slots: map<Key, Plain>)
    requires m.Keys == slots.Keys && forall k :: k in m ==> Erase(m[k]) == slots[k]
    ensures Erase(Entries(m)) == Entries(slots)
  {
  }

  // ---------- Allocation ----------

  /** cloneAssignmentValue: an equal value none of whose storage existed before. */
  method Clone(v: Value, ghost t: Placed) returns (w: Value, ghost u: Placed)
    requires Rep(v, t)
    requires forall b :: b in Foot(t) ==> allocated(b)
    ensures Rep(w, u) && Sep(u) && fresh(Foot(u)) && forall b :: b in Foot(u) ==> allocated(b)
    ensures Erase(u) == Erase(t)
    decreases t, 1
  {
    match v {
      case VLeaf(_) => w, u := v, t;
      case VNil => w, u := v, t;
      case VHidden(_) => w, u := v, t;
      case VDyn(d, held) =>
        assert Foot(t.held) <= Foot(t);
        var inner, tree := Clone(held, t.held);
        w, u := VDyn(d, inner), Dyn(d, tree);
      case VRef(box) =>
        assert Foot(t.to) <= Foot(t);
        var inner, tree := Clone(box.val, t.to);
        var copy := new Box(inner);
        w, u := VRef(copy), Ref(copy, tree);
      case VBlock(_) => w, u := CloneItems(v, t);
      case VEntries(_) => w, u := CloneSlots(v, t);
    }
  }

  method CloneItems(v: Value, ghost t: Placed) returns (w: Value, ghost u: Placed)
    requires Rep(v, t) && v.VBlock?
    requires forall b :: b in Foot(t) ==> allocated(b)
    ensures Rep(w, u) && Sep(u) && fresh(Foot(u)) && forall b :: b in Foot(u) ==> allocated(b)
    ensures Erase(u) == Erase(t)
    decreases t, 0
  {
    var ws: seq<Value> := [];
    ghost var us: seq<Placed> := [];
    for i := 0 to |v.items|
      invariant |ws| == |us| == i
      invariant fresh(FootOf(us)) && SepOf(us) && forall b :: b in FootOf(us) ==> allocated(b)
      invariant Rep(v, t)
      invariant forall j :: 0 <= j < i ==> Rep(ws[j], us[j]) && Erase(us[j]) == Erase(t.items[j])
    {
      assert Foot(t.items[i]) <= Foot(t);
      var x, tree := Clone(v.items[i], t.items[i]);
      SepAppend(us, tree);
      ws, us := ws + [x], us + [tree];
    }
    w, u := VBlock(ws), Block(us);
  }

  method CloneSlots(v: Value, ghost t: Placed) returns (w: Value, ghost u: Placed)
    requires Rep(v, t) && v.VEntries?
    requires forall b :: b in Foot(t) ==> allocated(b)
    ensures Rep(w, u) && Sep(u) && fresh(Foot(u)) && forall b :: b in Foot(u) ==> allocated(b)
    ensures Erase(u) == Erase(t)
    decreases t, 0
  {
    var todo := v.slots.Keys;
    ghost var news: set<Box> := {};
    w, u := VEntries(map[]), Entries(map[]);
    while todo != {}
      invariant todo <= v.slots.Keys && Cloned(w, u, t, v.slots.Keys - todo)
      invariant Foot(u) == news && fresh(news) && forall b :: b in news ==> allocated(b)
      invariant Rep(v, t) && Rep(w, u)
    {
      var k :| k in todo;
      ghost var more;
      w, u, more := CloneSlot(v, t, k, w, u, v.slots.Keys - todo);
      todo, news := todo - {k}, news + more;
    }
    EraseSlots(u.slots, Erase(t).slots);
  }

  ghost predicate Cloned(w: Value, u: Placed, t: Placed, done: set<Key>) {
    && w.VEntries? && u.Entries? && t.Entries? && u.slots.Keys == done <= t.slots.Keys && Sep(u)
    && forall k :: k in done ==> Erase(u.slots[k]) == Erase(t.slots[k])
  }

  /** One turn of the loop above. */
  method CloneSlot(v: Value, ghost t: Placed, k: Key, w0: Value, ghost u0: Placed, ghost done: set<Key>)
    returns (w: Value, ghost u: Placed, ghost news: set<Box>)
    requires Rep(v, t) && v.VEntries? && k in v.slots && k !in done
    requires forall b :: b in Foot(t) ==> allocated(b)
    requires Cloned(w0, u0, t, done) && Rep(w0, u0)
    requires forall b :: b in Foot(u0) ==> allocated(b)
    ensures Cloned(w, u, t, done + {k}) && Rep(w, u) && Rep(v, t)
    ensures Foot(u) == Foot(u0) + news && fresh(news) && forall b :: b in news ==> allocated(b)
    decreases t, 0, 0
  {
    assert Foot(t.slots[k]) <= Foot(t);
    var x, tree := Clone(v.slots[k], t.slots[k]);
    SepInsert(u0.slots, k, tree);
    RepInsert(w0.slots, u0.slots, k, x, tree);
    w, u, news := VEntries(w0.slots[k := x]), Entries(u0.slots[k := tree]), Foot(tree);
  }

  /** Storage for a value made from scratch, as reflect.New, reflect.Zero and the JSON decoder make it. */
  method Build(p: Plain) returns (w: Value, ghost u: Placed)
    ensures Rep(w, u) && Sep(u) && fresh(Foot(u)) && forall b :: b in Foot(u) ==> allocated(b)
    ensures Erase(u) == p
    decreases p, 1
  {
    match p {
      case Leaf(s) => w, u := VLeaf(s), Leaf(s);
      case Nil => w, u := VNil, Nil;
      case Hidden(id) => w, u := VHidden(id), Hidden(id);
      case Dyn(d, held) =>
        var inner, tree := Build(held);
        w, u := VDyn(d, inner), Dyn(d, tree);
      case Ref(_, to) =>
        var inner, tree := Build(to);
        assert p.at == ();
        var box := new Box(inner);
        w, u := VRef(box), Ref(box, tree);
      case Block(_) => w, u := BuildItems(p);
      case Entries(_) => w, u := BuildSlots(p);
    }
  }

  method BuildItems(p: Plain) returns (w: Value, ghost u: Placed)
    requires p.Block?
    ensures Rep(w, u) && Sep(u) && fresh(Foot(u)) && forall b :: b in Foot(u) ==> allocated(b)
    ensures Erase(u) == p
    decreases p, 0
  {
    var ws: seq<Value> := [];
    ghost var us: seq<Placed> := [];
    for i := 0 to |p.items|
      invariant |ws| == |us| == i
      invariant fresh(FootOf(us)) && SepOf(us) && forall b :: b in FootOf(us) ==> allocated(b)
      invariant forall j :: 0 <= j < i ==> Rep(ws[j], us[j]) && Erase(us[j]) == p.items[j]
    {
      var x, tree := Build(p.items[i]);
      SepAppend(us, tree);
      ws, us := ws + [x], us + [tree];
    }
    w, u := VBlock(ws), Block(us);
  }

  method BuildSlots(p: Plain) returns (w: Value, ghost u: Placed)
    requires p.Entries?
    ensures Rep(w, u) && Sep(u) && fresh(Foot(u)) && forall b :: b in Foot(u) ==> allocated(b)
    ensures Erase(u) == p
    decreases p, 0
  {
    var todo := p.slots.Keys;
    var ws: map<Key, Value> := map[];
    ghost var us: map<Key, Placed> := map[];
    while todo != {}
      invariant todo <= p.slots.Keys && Built(ws, us, p, p.slots.Keys - todo)
      invariant fresh(Foot(Entries(us))) && forall b :: b in Foot(Entries(us)) ==> allocated(b)
    {
      var k :| k in todo;
      ws, us := BuildSlot(p, k, ws, us, p.slots.Keys - todo);
      todo := todo - {k};
    }
    EraseSlots(us, p.slots);
    w, u := VEntries(ws), Entries(us);
  }

  ghost predicate Built(ws: map<Key, Value>, us: map<Key, Placed>, p: Plain, done: set<Key>)
    reads Foot(Entries(us))
  {
    && p.Entries? && ws.Keys == us.Keys == done <= p.slots.Keys
    && Sep(Entries(us)) && Rep(VEntries(ws), Entries(us))
    && forall k :: k in us ==> Erase(us[k]) == p.slots[k]
  }

  /** One turn of the loop above. */
  method BuildSlot(p: Plain, k: Key, ws: map<Key, Value>, ghost us: map<Key, Placed>, ghost done: set<Key>)
    returns (more: map<Key, Value>, ghost trees: map<Key, Placed>)
    requires p.Entries? && k in p.slots && k !in done && Built(ws, us, p, done)
    requires forall b :: b in Foot(Entries(us)) ==> allocated(b)
    ensures Built(more, trees, p, done + {k})
    ensures fresh(Foot(Entries(trees)) - Foot(Entries(us))) && forall b :: b in Foot(Entries(trees)) ==> allocated(b)
    decreases p, 0, 0
  {
    var x, tree := Build(p.slots[k]);
    SepInsert(us, k, tree);
    RepInsert(ws, us, k, x, tree);
    more, trees := ws[k := x], us[k := tree];
  }

  // ---------- Assignment in place ----------

  lemma {:induction false} UpdateItem(vs: seq<Value>, ts: seq<Placed>, i: nat, x: Value, u: Placed)
    requires |vs| == |ts| && i < |ts| && SepOf(ts) && Sep(u) && Rep(x, u)
    requires forall j :: 0 <= j < |ts| && j != i ==> Rep(vs[j], ts[j]) && Foot(u) !! Foot(ts[j])
    ensures Rep(VBlock(vs[i := x]), Block(ts[i := u])) && SepOf(ts[i := u])
    ensures FootOf(ts[i := u]) <= FootOf(ts) + Foot(u)
    ensures Erase(Block(ts[i := u])) == Block(Erase(Block(ts)).items[i := Erase(u)])
  {
    var us := ts[i := u];
    forall b | b in FootOf(us) ensures b in FootOf(ts) + Foot(u) {
      var j :| 0 <= j < |us| && b in Foot(us[j]);
      if j != i {
        assert b in Foot(ts[j]);
      }
    }
    assert Erase(Block(us)).items == Erase(Block(ts)).items[i := Erase(u)];
  }

  /** The effect of a failed findField on an embedded struct or pointer. */
  method MissIn(T: Type, v: Value, ghost t: Placed) returns (w: Value, ghost u: Placed, ghost news: set<Box>)
    requires Rep(v, t) && Sep(t)
    requires forall b :: b in Foot(t) ==> allocated(b)
    modifies Foot(t)
    ensures Rep(w, u) && Sep(u) && Foot(u) <= Foot(t) + news && fresh(news) && forall b :: b in news ==> allocated(b)
    ensures Erase(u) == Miss(T, Erase(t))
    decreases T, 0
  {
    w, u, news := v, t, {};
    match T {
      case TStruct(fs) =>
        if v.VBlock? && |v.items| == |fs| {
          w, u, news := Touch(fs, v, |fs|, t);
        }
      case TRef(_, target) =>
        if v.VNil? || v.VRef? {
          w, u, news := MissPointer(target, v, t);
        }
      case _ =>
    }
  }

  method MissPointer(target: Type, v: Value, ghost t: Placed) returns (w: Value, ghost u: Placed, ghost news: set<Box>)
    requires Rep(v, t) && Sep(t) && (v.VNil? || v.VRef?)
    requires forall b :: b in Foot(t) ==> allocated(b)
    modifies Foot(t)
    ensures Rep(w, u) && Sep(u) && Foot(u) <= Foot(t) + news && fresh(news) && forall b :: b in news ==> allocated(b)
    ensures Erase(u) == Ref((), Miss(target, if v.VNil? then Zero(target) else Erase(t.to)))
    decreases target, 2
  {
    if v.VNil? {
      w, u, news := MissNil(target);
    } else {
      w, u, news := MissRef(target, v, t);
    }
  }

  /** A nil pointer gets a zero value to look in. */
  method MissNil(target: Type) returns (w: Value, ghost u: Placed, ghost news: set<Box>)
    ensures Rep(w, u) && Sep(u) && Foot(u) <= news && fresh(news) && forall b :: b in news ==> allocated(b)
    ensures Erase(u) == Ref((), Miss(target, Zero(target)))
    decreases target, 1
  {
    var inner;
    ghost var tree, more;
    inner, tree := Build(Zero(target));
    news := Foot(tree);
    inner, tree, more := MissIn(target, inner, tree);
    ghost var cell;
    w, u, cell := InNewBox(inner, tree);
    news := news + more + {cell};
  }

  method InNewBox(inner: Value, ghost tree: Placed) returns (w: Value, ghost u: Placed, ghost cell: Box)
    requires Rep(inner, tree) && Sep(tree)
    requires forall b :: b in Foot(tree) ==> allocated(b)
    ensures fresh(cell) && allocated(cell) && Rep(w, u) && Sep(u)
    ensures Foot(u) == Foot(tree) + {cell} && Erase(u) == Ref((), Erase(tree))
  {
    var box := new Box(inner);
    w, u, cell := VRef(box), Ref(box, tree), box;
  }

  method MissRef(target: Type, v: Value, ghost t: Placed) returns (w: Value, ghost u: Placed, ghost news: set<Box>)
    requires Rep(v, t) && Sep(t) && v.VRef?
    requires forall b :: b in Foot(t) ==> allocated(b)
    modifies Foot(t)
    ensures Rep(w, u) && Sep(u) && Foot(u) <= Foot(t) + news && fresh(news) && forall b :: b in news ==> allocated(b)
    ensures Erase(u) == Ref((), Miss(target, Erase(t.to)))
    decreases target, 1
  {
    var inner;
    ghost var tree;
    inner, tree, news := MissIn(target, v.box.val, t.to);
    v.box.val := inner;
    w, u := v, Ref(v.box, tree);
  }

  /** The loop of findField over embedded fields, up to a limit. */
  method Touch(fs: seq<Field>, v: Value, limit: nat, ghost t: Placed) returns (w: Value, ghost u: Placed, ghost news: set<Box>)
    requires Rep(v, t) && Sep(t) && v.VBlock? && |v.items| == |fs| && limit <= |fs|
    requires forall b :: b in Foot(t) ==> allocated(b)
    modifies Foot(t)
    ensures Rep(w, u) && Sep(u) && Foot(u) <= Foot(t) + news && fresh(news) && forall b :: b in news ==> allocated(b)
    ensures Erase(u) == Block(TouchBelow(fs, Erase(t).items, limit))
    ensures w.VBlock? && |w.items| == |fs|
    decreases fs, 1
  {
    w, u, news := v, t, {};
    for i := 0 to limit
      invariant w.VBlock? && u.Block? && |w.items| == |u.items| == |fs|
      invariant Rep(w, u) && Sep(u)
      invariant Foot(u) <= Foot(t) + news && fresh(news) && forall b :: b in news ==> allocated(b)
      invariant Erase(u) == Block(TouchBelow(fs, Erase(t).items, i))
    {
      TouchNext(fs, Erase(t).items, i);
      if Embeds(fs[i]) {
        ghost var more;
        w, u, more := TouchItem(fs, w, i, u);
        news := news + more;
      }
    }
  }

  lemma {:induction false} TouchNext(fs: seq<Field>, ts: seq<Plain>, i: nat)
    requires |ts| == |fs| && i < |fs|
    ensures var r := TouchBelow(fs, ts, i);
      TouchBelow(fs, ts, i + 1) == if Embeds(fs[i]) then r[i := Miss(fs[i].typ, r[i])] else r
  {
  }

  /** One turn of the loop above. */
  method TouchItem(fs: seq<Field>, v: Value, i: nat, ghost t: Placed) returns (w: Value, ghost u: Placed, ghost news: set<Box>)
    requires Rep(v, t) && Sep(t) && v.VBlock? && |v.items| == |fs| && i < |fs|
    requires forall b :: b in Foot(t) ==> allocated(b)
    modifies Foot(t)
    ensures Rep(w, u) && Sep(u) && Foot(u) <= Foot(t) + news && fresh(news) && forall b :: b in news ==> allocated(b)
    ensures w.VBlock? && u.Block? && |w.items| == |u.items| == |fs|
    ensures Erase(u) == Block(Erase(t).items[i := Miss(fs[i].typ, Erase(t).items[i])])
    decreases fs, 0
  {
    assert Foot(t.items[i]) <= Foot(t);
    var x;
    ghost var tree;
    x, tree, news := MissIn(fs[i].typ, v.items[i], t.items[i]);
    forall j | 0 <= j < |fs| && j != i ensures Rep(v.items[j], t.items[j]) && Foot(tree) !! Foot(t.items[j]) {
      assert Foot(t.items[j]) <= Foot(t) && Foot(t.items[j]) !! Foot(t.items[i]);
    }
    UpdateItem(v.items, t.items, i, x, tree);
    w, u := VBlock(v.items[i := x]), Block(t.items[i := tree]);
  }

  /** An outcome of the running code against the meaning of the assignment. */
  ghost predicate Agrees(r: Result<Value>, u: Placed, meaning: Result<Plain>)
    reads Foot(u)
  {
    match r
    case Ok(v) => Rep(v, u) && Sep(u) && meaning == Ok(Erase(u))
    case Err(e) => meaning == Err(e)
  }

  /** setFieldPath: assigns inside storage that nothing else refers to. A failure may leave
      some of that storage changed. */
  method SetFieldPath(c: Codec, T: Type, v: Value, parts: seq<string>, text: string, ghost t: Placed)
    returns (r: Result<Value>, ghost u: Placed, ghost news: set<Box>)
    requires |parts| > 0 && Rep(v, t) && Sep(t)
    requires forall b :: b in Foot(t) ==> allocated(b)
    modifies Foot(t)
    ensures Agrees(r, u, Set(c, T, Erase(t), parts, text))
    ensures Foot(u) <= Foot(t) + news && fresh(news) && forall b :: b in news ==> allocated(b)
    decreases |parts|, Wraps(T, Erase(t)), T, 2
  {
    match T {
      case TRef(_, _) => r, u, news := SetRef(c, T, v, parts, text, t);
      case TIface(_) => r, u, news := SetIface(c, T, v, parts, text, t);
      case TStruct(_) => r, u, news := SetStruct(c, T, v, parts, text, t);
      case TElems(e) => r, u, news := SetElem(c, T, e, v, parts, text, t);
      case TArray(_, e) => r, u, news := SetElem(c, T, e, v, parts, text, t);
      case TEntries(_, _) => r, u, news := SetSlot(c, T, v, parts, text, t);
      case _ => r, u, news := Err(NotTraversable), t, {};
    }
  }

  /** The part a hop leads to: assigned to if the path ends here, else entered. */
  method Descend(c: Codec, T: Type, v: Value, parts: seq<string>, text: string, ghost t: Placed)
    returns (r: Result<Value>, ghost u: Placed, ghost news: set<Box>)
    requires Rep(v, t) && Sep(t)
    requires forall b :: b in Foot(t) ==> allocated(b)
    modifies Foot(t)
    ensures Agrees(r, u, if parts == [] then Convert(c, T, text) else Set(c, T, Erase(t), parts, text))
    ensures Foot(u) <= Foot(t) + news && fresh(news) && forall b :: b in news ==> allocated(b)
    decreases |parts|, Wraps(T, Erase(t)), T, 3
  {
    if parts == [] {
      var converted := Convert(c, T, text);
      if converted.Ok? {
        var w;
        w, u := Build(converted.value);
        r, news := Ok(w), Foot(u);
      } else {
        r, u, news := Err(converted.error), t, {};
      }
    } else {
      r, u, news := SetFieldPath(c, T, v, parts, text, t);
    }
  }

  method SetRef(c: Codec, T: Type, v: Value, parts: seq<string>, text: string, ghost t: Placed)
    returns (r: Result<Value>, ghost u: Placed, ghost news: set<Box>)
    requires T.TRef?
    requires |parts| > 0 && Rep(v, t) && Sep(t)
    requires forall b :: b in Foot(t) ==> allocated(b)
    modifies Foot(t)
    ensures Agrees(r, u, Set(c, T, Erase(t), parts, text))
    ensures Foot(u) <= Foot(t) + news && fresh(news) && forall b :: b in news ==> allocated(b)
    decreases |parts|, Wraps(T, Erase(t)), T, 1
  {
    r, u, news := Err(NotTraversable), t, {};
    if v.VRef? {
      r, u, news := SetThrough(c, T, v, parts, text, t);
    } else if v.VNil? {
      r, u, news := SetNil(c, T, parts, text);
    }
  }

  method SetThrough(c: Codec, T: Type, v: Value, parts: seq<string>, text: string, ghost t: Placed)
    returns (r: Result<Value>, ghost u: Placed, ghost news: set<Box>)
    requires T.TRef? && v.VRef?
    requires |parts| > 0 && Rep(v, t) && Sep(t)
    requires forall b :: b in Foot(t) ==> allocated(b)
    modifies Foot(t)
    ensures Agrees(r, u, Set(c, T, Erase(t), parts, text))
    ensures Foot(u) <= Foot(t) + news && fresh(news) && forall b :: b in news ==> allocated(b)
    decreases |parts|, Wraps(T, Erase(t)), T, 0
  {
    NextDescends(T, Erase(t), parts);
    ghost var tree;
    u := t;
    r, tree, news := Descend(c, T.target, v.box.val, parts, text, t.to);
    if r.Ok? {
      v.box.val := r.value;
      r, u := Ok(v), Ref(v.box, tree);
    }
  }

  /** A nil pointer, slice or map is given storage on the way. */
  method SetNil(c: Codec, T: Type, parts: seq<string>, text: string)
    returns (r: Result<Value>, ghost u: Placed, ghost news: set<Box>)
    requires T.TRef? && |parts| > 0
    ensures Agrees(r, u, Set(c, T, Nil, parts, text))
    ensures Foot(u) <= news && fresh(news) && forall b :: b in news ==> allocated(b)
    decreases |parts|, Wraps(T, Nil), T, 0
  {
    NextDescends(T, Nil, parts);
    var x;
    ghost var tree, more;
    x, tree := Build(Zero(T.target));
    u, news := Nil, Foot(tree);
    r, tree, more := Descend(c, T.target, x, parts, text, tree);
    if r.Ok? {
      var box := new Box(r.value);
      r, u, news := Ok(VRef(box)), Ref(box, tree), news + more + {box};
    }
  }

  method SetIface(c: Codec, T: Type, v: Value, parts: seq<string>, text: string, ghost t: Placed)
    returns (r: Result<Value>, ghost u: Placed, ghost news: set<Box>)
    requires T.TIface?
    requires |parts| > 0 && Rep(v, t) && Sep(t)
    requires forall b :: b in Foot(t) ==> allocated(b)
    modifies Foot(t)
    ensures Agrees(r, u, Set(c, T, Erase(t), parts, text))
    ensures Foot(u) <= Foot(t) + news && fresh(news) && forall b :: b in news ==> allocated(b)
    decreases |parts|, Wraps(T, Erase(t)), T, 1
  {
    r, u, news := Err(NotTraversable), t, {};
    NextDescends(T, Erase(t), parts);
    if v.VNil? {
      r := Err(NilInterface);
    } else if v.VDyn? {
      ghost var tree;
      r, tree, news := Descend(c, v.typ, v.held, parts, text, t.held);
      if r.Ok? {
        r, u := Ok(VDyn(v.typ, r.value)), Dyn(v.typ, tree);
      }
    }
  }

  method SetStruct(c: Codec, T: Type, v: Value, parts: seq<string>, text: string, ghost t: Placed)
    returns (r: Result<Value>, ghost u: Placed, ghost news: set<Box>)
    requires T.TStruct?
    requires |parts| > 0 && Rep(v, t) && Sep(t)
    requires forall b :: b in Foot(t) ==> allocated(b)
    modifies Foot(t)
    ensures Agrees(r, u, Set(c, T, Erase(t), parts, text))
    ensures Foot(u) <= Foot(t) + news && fresh(news) && forall b :: b in news ==> allocated(b)
    decreases |parts|, Wraps(T, Erase(t)), T, 1
  {
    r, u, news := Err(NotTraversable), t, {};
    NextDescends(T, Erase(t), parts);
    var fs := T.fields;
    if v.VBlock? && |v.items| == |fs| {
      var i := FirstDirect(fs, parts[0], 0);
      if i < |fs| {
        r, u, news := SetItem(c, fs[i].typ, i, v, parts[1..], text, t);
      } else {
        var j := FirstEmbedded(fs, parts[0], 0);
        if j < |fs| {
          var w;
          ghost var touched, more;
          w, touched, news := Touch(fs, v, j, t);
          r, u, more := SetItem(c, fs[j].typ, j, w, parts, text, touched);
          news := news + more;
        } else {
          r := Err(FieldNotFound);
        }
      }
    }
  }

  method SetElem(c: Codec, T: Type, elem: Type, v: Value, parts: seq<string>, text: string, ghost t: Placed)
    returns (r: Result<Value>, ghost u: Placed, ghost news: set<Box>)
    requires (T.TElems? || T.TArray?) && T.elem == elem
    requires |parts| > 0 && Rep(v, t) && Sep(t)
    requires forall b :: b in Foot(t) ==> allocated(b)
    modifies Foot(t)
    ensures Agrees(r, u, Set(c, T, Erase(t), parts, text))
    ensures Foot(u) <= Foot(t) + news && fresh(news) && forall b :: b in news ==> allocated(b)
    decreases |parts|, Wraps(T, Erase(t)), T, 1
  {
    r, u, news := Err(NotTraversable), t, {};
    NextDescends(T, Erase(t), parts);
    if v.VBlock? {
      var n := ParseInt(parts[0], 64);
      if n.None? {
        r := Err(ExpectedIndex);
      } else if n.value < 0 || n.value >= |v.items| {
        r := Err(OutOfRange);
      } else {
        r, u, news := SetItem(c, elem, n.value, v, parts[1..], text, t);
      }
    }
  }

  /** Assigns to one element or field and puts the rest back as it is. */
  method SetItem(c: Codec, T: Type, i: nat, v: Value, parts: seq<string>, text: string, ghost t: Placed)
    returns (r: Result<Value>, ghost u: Placed, ghost news: set<Box>)
    requires Rep(v, t) && Sep(t) && v.VBlock? && i < |v.items|
    requires forall b :: b in Foot(t) ==> allocated(b)
    modifies Foot(t)
    ensures var part := if parts == [] then Convert(c, T, text) else Set(c, T, Erase(t).items[i], parts, text);
      Agrees(r, u, if part.Ok? then Ok(Put(Erase(t), At(i), part.value)) else part)
    ensures Foot(u) <= Foot(t) + news && fresh(news) && forall b :: b in news ==> allocated(b)
    decreases |parts|, Wraps(T, Erase(t.items[i])), T, 4
  {
    assert Foot(t.items[i]) <= Foot(t);
    r, u, news := Descend(c, T, v.items[i], parts, text, t.items[i]);
    if r.Ok? {
      forall j | 0 <= j < |v.items| && j != i ensures Rep(v.items[j], t.items[j]) && Foot(u) !! Foot(t.items[j]) {
        assert Foot(t.items[j]) <= Foot(t) && Foot(t.items[j]) !! Foot(t.items[i]);
      }
      UpdateItem(v.items, t.items, i, r.value, u);
      r, u := Ok(VBlock(v.items[i := r.value])), Block(t.items[i := u]);
    } else {
      u := t;
    }
  }

  method SetSlot(c: Codec, T: Type, v: Value, parts: seq<string>, text: string, ghost t: Placed)
    returns (r: Result<Value>, ghost u: Placed, ghost news: set<Box>)
    requires T.TEntries?
    requires |parts| > 0 && Rep(v, t) && Sep(t)
    requires forall b :: b in Foot(t) ==> allocated(b)
    modifies Foot(t)
    ensures Agrees(r, u, Set(c, T, Erase(t), parts, text))
    ensures Foot(u) <= Foot(t) + news && fresh(news) && forall b :: b in news ==> allocated(b)
    decreases |parts|, Wraps(T, Erase(t)), T, 1
  {
    r, u, news := Err(NotTraversable), t, {};
    NextDescends(T, Erase(t), parts);
    if v.VEntries? {
      var key := MapKey(T.key, parts[0]);
      if key.None? {
        r := Err(BadKey);
      } else if |parts| > 1 && key.value !in v.slots {
        r := Err(KeyNotFound);
      } else {
        r, u, news := SetEntry(c, T.elem, key.value, v, parts[1..], text, t);
      }
    }
  }

  /** Assigns to one map entry, copied out and put back. */
  method SetEntry(c: Codec, T: Type, k: Key, v: Value, parts: seq<string>, text: string, ghost t: Placed)
    returns (r: Result<Value>, ghost u: Placed, ghost news: set<Box>)
    requires Rep(v, t) && Sep(t) && v.VEntries? && (parts != [] ==> k in v.slots)
    requires forall b :: b in Foot(t) ==> allocated(b)
    modifies Foot(t)
    ensures var part := if parts == [] then Convert(c, T, text) else Set(c, T, Erase(t).slots[k], parts, text);
      Agrees(r, u, if part.Ok? then Ok(Put(Erase(t), Slot(k), part.value)) else part)
    ensures Foot(u) <= Foot(t) + news && fresh(news) && forall b :: b in news ==> allocated(b)
    decreases |parts|, if k in t.slots then Wraps(T, Erase(t.slots[k])) else 0, T, 4
  {
    if parts == [] {
      r, u, news := PutEntry(c, T, k, v, text, t);
    } else {
      r, u, news := ReplaceEntry(c, T, k, v, parts, text, t);
    }
  }

  method PutEntry(c: Codec, T: Type, k: Key, v: Value, text: string, ghost t: Placed)
    returns (r: Result<Value>, ghost u: Placed, ghost news: set<Box>)
    requires Rep(v, t) && Sep(t) && v.VEntries?
    requires forall b :: b in Foot(t) ==> allocated(b)
    ensures var part := Convert(c, T, text);
      Agrees(r, u, if part.Ok? then Ok(Put(Erase(t), Slot(k), part.value)) else part)
    ensures Foot(u) <= Foot(t) + news && fresh(news) && forall b :: b in news ==> allocated(b)
  {
    u, news := t, {};
    var converted := Convert(c, T, text);
    if converted.Err? {
      return Err(converted.error), u, news;
    }
    var w;
    ghost var tree;
    w, tree := Build(converted.value);
    news := Foot(tree);
    forall j | j in v.slots && j != k ensures Rep(v.slots[j], t.slots[j]) && Foot(tree) !! Foot(t.slots[j]) {
      assert Foot(t.slots[j]) <= Foot(t);
    }
    UpdateSlot(v.slots, t.slots, k, w, tree);
    r, u := Ok(VEntries(v.slots[k := w])), Entries(t.slots[k := tree]);
  }

  method ReplaceEntry(c: Codec, T: Type, k: Key, v: Value, parts: seq<string>, text: string, ghost t: Placed)
    returns (r: Result<Value>, ghost u: Placed, ghost news: set<Box>)
    requires Rep(v, t) && Sep(t) && v.VEntries? && parts != [] && k in v.slots
    requires forall b :: b in Foot(t) ==> allocated(b)
    modifies Foot(t)
    ensures var part := Set(c, T, Erase(t).slots[k], parts, text);
      Agrees(r, u, if part.Ok? then Ok(Put(Erase(t), Slot(k), part.value)) else part)
    ensures Foot(u) <= Foot(t) + news && fresh(news) && forall b :: b in news ==> allocated(b)
    decreases |parts|, Wraps(T, Erase(t.slots[k])), T, 3
  {
    assert Foot(t.slots[k]) <= Foot(t);
    r, u, news := SetFieldPath(c, T, v.slots[k], parts, text, t.slots[k]);
    if r.Ok? {
      SlotsApart(t.slots, k, Foot(u), news);
      forall j | j in v.slots && j != k ensures Rep(v.slots[j], t.slots[j]) {
        assert Foot(t.slots[j]) <= Foot(t) && Foot(t.slots[j]) !! Foot(t.slots[k]);
      }
      UpdateSlot(v.slots, t.slots, k, r.value, u);
      r, u := Ok(VEntries(v.slots[k := r.value])), Entries(t.slots[k := u]);
    } else {
      u := t;
    }
  }

  /** Storage of one entry and new storage are apart from that of the others. */
  lemma SlotsApart(m: map<Key, Placed>, k: Key, cells: set<Box>, news: set<Box>)
    requires k in m && Sep(Entries(m)) && cells <= Foot(m[k]) + news && news !! Foot(Entries(m))
    ensures forall j :: j in m && j != k ==> cells !! Foot(m[j])
  {
    forall j | j in m && j != k ensures cells !! Foot(m[j]) {
      assert Foot(m[j]) <= Foot(Entries(m)) && Foot(m[j]) !! Foot(m[k]);
    }
  }

  lemma {:induction false} UpdateSlot(vs: map<Key, Value>, m: map<Key, Placed>, k: Key, x: Value, u: Placed)
    requires vs.Keys == m.Keys && Sep(Entries(m)) && Sep(u) && Rep(x, u)
    requires forall j :: j in m && j != k ==> Rep(vs[j], m[j]) && Foot(u) !! Foot(m[j])
    ensures Rep(VEntries(vs[k := x]), Entries(m[k := u])) && Sep(Entries(m[k := u]))
    ensures Foot(Entries(m[k := u])) <= Foot(Entries(m)) + Foot(u)
    ensures Erase(Entries(m[k := u])) == Entries(Erase(Entries(m)).slots[k := Erase(u)])
  {
    var n := m[k := u];
    forall b | b in Foot(Entries(n)) ensures b in Foot(Entries(m)) + Foot(u) {
      var j :| j in n && b in Foot(n[j]);
      if j != k {
        assert b in Foot(m[j]);
      }
    }
    assert Erase(Entries(n)).slots == Erase(Entries(m)).slots[k := Erase(u)];
  }

  // ---------- The transaction ----------

  /** setField. */
  method SetField(c: Codec, T: Type, v: Value, a: Assign, ghost t: Placed)
    returns (r: Result<Value>, ghost u: Placed, ghost news: set<Box>)
    requires Rep(v, t) && Sep(t)
    requires forall b :: b in Foot(t) ==> allocated(b)
    modifies Foot(t)
    ensures Agrees(r, u, SetTop(c, T, Erase(t), a))
    ensures Foot(u) <= Foot(t) + news && fresh(news) && forall b :: b in news ==> allocated(b)
  {
    u, news := t, {};
    if !(T.TRef? && T.kind != SliceHeader) {
      r := Err(UnsupportedTarget);
    } else if v.VNil? {
      r := Err(NilTarget);
    } else if TrimSpace(a.path) == "" {
      r := Err(EmptyPath);
    } else {
      r, u, news := SetFieldPath(c, T, v, Split(TrimSpace(a.path), '.'), a.text, t);
    }
  }

  /** A list of assignments made one after the other, up to the first that fails. */
  ghost function Fold(step: (Plain, Assign) -> Result<Plain>, t: Plain, assigns: seq<Assign>): Result<Plain>
    decreases |assigns|
  {
    if assigns == [] then Ok(t)
    else
      var r := step(t, assigns[0]);
      if r.Ok? then Fold(step, r.value, assigns[1..]) else r
  }

  ghost predicate StepIs(step: (Plain, Assign) -> Result<Plain>, c: Codec, T: Type, t: Plain, a: Assign) {
    step(t, a) == SetTop(c, T, t, a)
  }

  /** The step is setField for a type. */
  ghost predicate Assigns(step: (Plain, Assign) -> Result<Plain>, c: Codec, T: Type) {
    forall t, a :: StepIs(step, c, T, t, a)
  }

  lemma {:induction false} FoldIsApply(step: (Plain, Assign) -> Result<Plain>, c: Codec, T: Type, t: Plain, assigns: seq<Assign>)
    requires Assigns(step, c, T)
    ensures Fold(step, t, assigns) == Apply(c, T, t, assigns)
    decreases |assigns|
  {
    if assigns != [] {
      assert StepIs(step, c, T, t, assigns[0]);
      if SetTop(c, T, t, assigns[0]).Ok? {
        FoldIsApply(step, c, T, SetTop(c, T, t, assigns[0]).value, assigns[1..]);
      }
    }
  }

  lemma FoldStep(step: (Plain, Assign) -> Result<Plain>, t: Plain, assigns: seq<Assign>, i: nat)
    requires i < |assigns|
    ensures var r := step(t, assigns[i]);
      Fold(step, t, assigns[i..]) == if r.Ok? then Fold(step, r.value, assigns[i + 1..]) else r
  {
    assert assigns[i..][1..] == assigns[i + 1..];
  }

  /** The loop over the assignments, on the candidate alone. */
  method SetFields(c: Codec, T: Type, v: Value, assigns: seq<Assign>, ghost t: Placed, ghost step: (Plain, Assign) -> Result<Plain>)
    returns (r: Result<Value>, ghost u: Placed)
    requires Rep(v, t) && Sep(t) && Assigns(step, c, T)
    requires forall b :: b in Foot(t) ==> allocated(b)
    modifies Foot(t)
    ensures Agrees(r, u, Fold(step, Erase(t), assigns))
    ensures fresh(Foot(u) - Foot(t)) && forall b :: b in Foot(u) ==> allocated(b)
  {
    r, u := Ok(v), t;
    for i := 0 to |assigns|
      invariant r.Ok? && Rep(r.value, u) && Sep(u)
      invariant fresh(Foot(u) - Foot(t)) && forall b :: b in Foot(u) ==> allocated(b)
      invariant Fold(step, Erase(t), assigns) == Fold(step, Erase(u), assigns[i..])
    {
      ghost var more;
      FoldStep(step, Erase(u), assigns, i);
      r, u, more := SetFieldBy(c, T, r.value, assigns[i], u, step);
      if r.Err? {
        u := t;
        return;
      }
    }
  }

  method SetFieldBy(c: Codec, T: Type, v: Value, a: Assign, ghost t: Placed, ghost step: (Plain, Assign) -> Result<Plain>)
    returns (r: Result<Value>, ghost u: Placed, ghost news: set<Box>)
    requires Rep(v, t) && Sep(t) && Assigns(step, c, T)
    requires forall b :: b in Foot(t) ==> allocated(b)
    modifies Foot(t)
    ensures Agrees(r, u, step(Erase(t), a))
    ensures Foot(u) <= Foot(t) + news && fresh(news) && forall b :: b in news ==> allocated(b)
  {
    assert StepIs(step, c, T, Erase(t), a);
    r, u, news := SetField(c, T, v, a, t);
  }

  lemma {:induction false} TopIsSet(c: Codec, T: Type, t: Plain, a: Assign)
    requires SetTop(c, T, t, a).Ok?
    ensures T.TRef? && T.kind != SliceHeader && !t.Nil?
    ensures SetTop(c, T, t, a) == Set(c, T, t, Split(TrimSpace(a.path), '.'), a.text)
  {
  }

  lemma {:induction false} NextOfRef(c: Codec, T: Type, t: Plain, parts: seq<string>, text: string)
    requires |parts| > 0 && T.TRef? && !t.Nil? && Set(c, T, t, parts, text).Ok?
    ensures t.Ref? && Next(T, t, parts) == Ok(Hop(Deref, T.target, t, parts))
  {
  }

  /** What is assigned through a pointer leaves a pointer; through a map header, a map. */
  lemma {:induction false} SetShape(c: Codec, T: Type, t: Plain, parts: seq<string>, text: string)
    requires |parts| > 0 && T.TRef? && !t.Nil? && Set(c, T, t, parts, text).Ok?
    ensures t.Ref? && Set(c, T, t, parts, text).value.Ref?
    ensures T.target.TEntries? ==> t.to.Entries? && Set(c, T, t, parts, text).value.to.Entries?
  {
    NextOfRef(c, T, t, parts, text);
    SetByHop(c, T, t, parts, text);
    if T.target.TEntries? {
      SetByHop(c, T.target, t.to, parts, text);
    }
  }

  /** Only a pointer or a map can be assigned into, and it stays one. */
  lemma {:induction false} TopShape(c: Codec, T: Type, t: Plain, a: Assign)
    requires SetTop(c, T, t, a).Ok? && (T.TRef? && T.kind.MapHeader? ==> T.target.TEntries?)
    ensures T.TRef? && T.kind != SliceHeader && t.Ref? && SetTop(c, T, t, a).value.Ref?
    ensures T.kind.MapHeader? ==> t.to.Entries? && SetTop(c, T, t, a).value.to.Entries?
  {
    TopIsSet(c, T, t, a);
    SetShape(c, T, t, Split(TrimSpace(a.path), '.'), a.text);
  }

  lemma {:induction false} ApplyShape(c: Codec, T: Type, t: Plain, assigns: seq<Assign>)
    requires Apply(c, T, t, assigns).Ok? && assigns != [] && (T.TRef? && T.kind.MapHeader? ==> T.target.TEntries?)
    ensures var t' := Apply(c, T, t, assigns).value;
      && T.TRef? && T.kind != SliceHeader && t.Ref? && t'.Ref?
      && (T.kind.MapHeader? ==> t.to.Entries? && t'.to.Entries?)
    decreases |assigns|
  {
    TopShape(c, T, t, assigns[0]);
    if |assigns| > 1 {
      ApplyShape(c, T, SetTop(c, T, t, assigns[0]).value, assigns[1..]);
    }
  }

  /** commitAssignmentTarget: a pointer's variable is overwritten; of a map every old key goes,
      then every key of the candidate comes. */
  method Commit(kind: RefKind, original: Box, updated: Box)
    requires kind.MapHeader? ==> original.val.VEntries? && updated.val.VEntries?
    requires original != updated
    modifies original
    ensures original.val == updated.val
  {
    if kind == MapHeader {
      var keys := original.val.slots.Keys;
      while keys != {}
        invariant original.val.VEntries? && original.val.slots.Keys == keys && updated.val == old(updated.val)
      {
        var k :| k in keys;
        original.val := VEntries(original.val.slots - {k});
        keys := keys - {k};
      }
      var entries := updated.val.slots;
      keys := entries.Keys;
      while keys != {}
        invariant keys <= entries.Keys && updated.val == old(updated.val) == VEntries(entries)
        invariant original.val.VEntries? && original.val.slots.Keys == entries.Keys - keys
        invariant forall k :: k in original.val.slots ==> original.val.slots[k] == entries[k]
      {
        var k :| k in keys;
        original.val := VEntries(original.val.slots[k := entries[k]]);
        keys := keys - {k};
      }
      assert original.val.slots == entries;
    } else {
      original.val := updated.val;
    }
  }

  /** The candidate: a clone of the target with every assignment made in it. */
  method Prepare(c: Codec, T: Type, target: Value, assigns: seq<Assign>, ghost t: Placed, ghost step: (Plain, Assign) -> Result<Plain>)
    returns (r: Result<Value>, ghost tree: Placed)
    requires Rep(target, t) && Assigns(step, c, T)
    requires forall b :: b in Foot(t) ==> allocated(b)
    ensures Agrees(r, tree, Fold(step, Erase(t), assigns)) && Rep(target, t)
    ensures fresh(Foot(tree)) && forall b :: b in Foot(tree) ==> allocated(b)
  {
    var candidate;
    candidate, tree := Clone(target, t);
    r, tree := SetFields(c, T, candidate, assigns, tree, step);
  }

  lemma {:induction false} Shapes(c: Codec, T: Type, v: Value, assigns: seq<Assign>, t: Placed, w: Value, u: Placed,
                                  step: (Plain, Assign) -> Result<Plain>)
    requires Rep(v, t) && Rep(w, u) && assigns != [] && Assigns(step, c, T) && Fold(step, Erase(t), assigns) == Ok(Erase(u))
    requires T.TRef? && T.kind.MapHeader? ==> T.target.TEntries?
    ensures T.TRef? && v.VRef? && w.VRef? && v.box in Foot(t)
    ensures T.kind.MapHeader? ==> v.box.val.VEntries? && w.box.val.VEntries?
  {
    FoldIsApply(step, c, T, Erase(t), assigns);
    ApplyShape(c, T, Erase(t), assigns);
    RefShape(v, t);
    RefShape(w, u);
  }

  method Install(kind: RefKind, target: Value, candidate: Value, ghost tree: Placed) returns (ghost u: Placed)
    requires target.VRef? && candidate.VRef? && Rep(candidate, tree) && Sep(tree) && target.box !in Foot(tree)
    requires kind.MapHeader? ==> target.box.val.VEntries? && candidate.box.val.VEntries?
    requires forall b :: b in Foot(tree) ==> allocated(b)
    modifies target.box
    ensures Rep(target, u) && Sep(u) && Erase(u) == Erase(tree)
    ensures target.box in Foot(u) && Foot(u) - {target.box} <= Foot(tree)
  {
    assert candidate.box in Foot(tree) && Foot(tree.to) <= Foot(tree);
    u := Ref(target.box, tree.to);
    Commit(kind, target.box, candidate.box);
    assert Rep(target.box.val, tree.to);
  }

  lemma {:induction false} RefShape(v: Value, t: Placed)
    requires Rep(v, t) && Erase(t).Ref?
    ensures v.VRef? && t.Ref? && (Erase(t).to.Entries? ==> v.box.val.VEntries?)
  {
  }

  method Transact(c: Codec, T: Type, target: Value, assigns: seq<Assign>, ghost t: Placed, ghost step: (Plain, Assign) -> Result<Plain>)
    returns (err: Option<Error>, ghost u: Placed)
    requires Rep(target, t) && assigns != [] && Assigns(step, c, T)
    requires T.TRef? && T.kind.MapHeader? ==> T.target.TEntries?
    requires forall b :: b in Foot(t) ==> allocated(b)
    modifies if target.VRef? then {target.box} else {}
    ensures Outcome(err, u, Fold(step, Erase(t), assigns)) && Rep(target, u)
    ensures err.Some? ==> u == t && (target.VRef? ==> target.box.val == old(target.box.val))
    ensures err.None? ==> target.VRef? && Sep(u) && target.box in Foot(u) && fresh(Foot(u) - {target.box})
  {
    var r;
    ghost var tree;
    r, tree := Prepare(c, T, target, assigns, t, step);
    if r.Ok? {
      Shapes(c, T, target, assigns, t, r.value, tree, step);
    }
    err, u := Finish(if T.TRef? then T.kind else Pointer, target, r, t, tree, Fold(step, Erase(t), assigns));
  }

  /** The candidate is installed if all went well. */
  method Finish(kind: RefKind, target: Value, r: Result<Value>, ghost t: Placed, ghost tree: Placed, ghost meaning: Result<Plain>)
    returns (err: Option<Error>, ghost u: Placed)
    requires Agrees(r, tree, meaning) && Rep(target, t)
    requires forall b :: b in Foot(tree) ==> allocated(b)
    requires r.Ok? ==> target.VRef? && r.value.VRef? && target.box !in Foot(tree)
    requires r.Ok? && kind.MapHeader? ==> target.box.val.VEntries? && r.value.box.val.VEntries?
    modifies if target.VRef? then {target.box} else {}
    ensures Outcome(err, u, meaning) && Rep(target, u)
    ensures err.Some? ==> u == t && (target.VRef? ==> target.box.val == old(target.box.val))
    ensures err.None? ==> target.VRef? && Sep(u) && target.box in Foot(u) && Foot(u) - {target.box} <= Foot(tree)
  {
    if r.Err? {
      err, u := Some(r.error), t;
    } else {
      err := None;
      u := Install(kind, target, r.value, tree);
    }
  }

  /** applyConfigAssignments is all or nothing. If any assignment fails, the first error is
      reported and nothing that existed has changed: the target's storage holds what it held, and
      no other storage is in the frame. If all succeed, the target now holds the value that the
      assignments, in order, make of the old one, kept in storage that is new except for the
      target's own, so that what the old value referred to is neither changed nor referred to. */
  method ApplyConfigAssignments(c: Codec, T: Type, target: Value, assigns: seq<Assign>, ghost t: Placed)
    returns (err: Option<Error>, ghost u: Placed)
    requires Rep(target, t)
    requires T.TRef? && T.kind.MapHeader? ==> T.target.TEntries?
    requires forall b :: b in Foot(t) ==> allocated(b)
    modifies if target.VRef? then {target.box} else {}
    ensures Outcome(err, u, Apply(c, T, Erase(t), assigns)) && Rep(target, u)
    ensures err.Some? || assigns == [] ==> u == t && (target.VRef? ==> target.box.val == old(target.box.val))
    ensures err.None? && assigns != [] ==> target.VRef? && Sep(u) && target.box in Foot(u) && fresh(Foot(u) - {target.box})
  {
    if assigns == [] {
      err, u := None, t;
    } else {
      ghost var step := Setter(c, T);
      forall x, a ensures StepIs(step, c, T, x, a) {
      }
      FoldIsApply(step, c, T, Erase(t), assigns);
      err, u := Transact(c, T, target, assigns, t, step);
    }
  }

  ghost function Setter(c: Codec, T: Type): (Plain, Assign) -> Result<Plain> {
    (t, a) => SetTop(c, T, t, a)
  }

  ghost predicate Outcome(err: Option<Error>, u: Placed, meaning: Result<Plain>) {
    if err.None? then meaning == Ok(Erase(u)) else meaning == Err(err.value)
  }
}
