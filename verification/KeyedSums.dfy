/** What a loop over a Go map adds up to, whatever the order of iteration. */
module KeyedSums {

  /** The union, with multiplicities, of f over a set. */
  ghost function SumOver<K(!new), T>(keys: set<K>, f: K -> multiset<T>): multiset<T>
    decreases |keys|
  {
    if keys == {} then multiset{}
    else
      var k :| k in keys;
      f(k) + SumOver(keys - {k}, f)
  }

  /** Any element can be taken first. */
  lemma {:induction false} SumPick<K(!new), T>(keys: set<K>, f: K -> multiset<T>, x: K)
    requires x in keys
    ensures SumOver(keys, f) == f(x) + SumOver(keys - {x}, f)
    decreases |keys|
  {
    var k :| k in keys && SumOver(keys, f) == f(k) + SumOver(keys - {k}, f);
    if k != x {
      SumPick(keys - {k}, f, x);
      SumPick(keys - {x}, f, k);
      assert keys - {k} - {x} == keys - {x} - {k};
    }
  }

  /** Nothing is added exactly when no key adds anything. */
  lemma {:induction false} SumEmpty<K(!new), T(!new)>(keys: set<K>, f: K -> multiset<T>)
    ensures SumOver(keys, f) == multiset{} <==> forall k :: k in keys ==> f(k) == multiset{}
    decreases |keys|
  {
    if keys != {} {
      var x :| x in keys;
      SumPick(keys, f, x);
      SumEmpty(keys - {x}, f);
      assert forall k :: k in keys ==> k == x || k in keys - {x};
    }
  }

  lemma {:induction false} SumSame<K(!new), T>(keys: set<K>, f: K -> multiset<T>, g: K -> multiset<T>)
    requires forall k :: k in keys ==> f(k) == g(k)
    ensures SumOver(keys, f) == SumOver(keys, g)
    decreases |keys|
  {
    if keys != {} {
      var x :| x in keys;
      SumPick(keys, f, x);
      SumPick(keys, g, x);
      SumSame(keys - {x}, f, g);
    }
  }

  /** One more turn of a loop that has done some keys. */
  lemma {:induction false} SumNext<K(!new), T>(start: multiset<T>, keys: set<K>, todo: set<K>, f: K -> multiset<T>, k: K)
    requires todo <= keys && k in todo
    ensures start + SumOver(keys - (todo - {k}), f) == start + SumOver(keys - todo, f) + f(k)
  {
    var done := keys - (todo - {k});
    SumPick(done, f, k);
    assert done - {k} == keys - todo;
  }

  lemma SumNone<K(!new), T>(keys: set<K>, f: K -> multiset<T>)
    ensures SumOver(keys - keys, f) == multiset{}
    ensures SumOver(keys - {}, f) == SumOver(keys, f)
  {
    assert keys - keys == {} && keys - {} == keys;
  }

  lemma Regroup<T>(start: multiset<T>, a: multiset<T>, b: multiset<T>, c: multiset<T>)
    ensures start + a + b == start + (a + b)
    ensures start + a + b + c == start + (a + b + c)
  {
  }

  // ---------- Counted loops ----------

  /** The union of f over 0 .. n. */
  ghost function SumTo<T>(n: nat, f: int -> multiset<T>): multiset<T> {
    if n == 0 then multiset{} else SumTo(n - 1, f) + f(n - 1)
  }

  lemma SumToNext<T>(start: multiset<T>, n: nat, f: int -> multiset<T>)
    ensures start + SumTo(n + 1, f) == start + SumTo(n, f) + f(n)
  {
  }

  lemma {:induction false} SumToEmpty<T(!new)>(n: nat, f: int -> multiset<T>)
    ensures SumTo(n, f) == multiset{} <==> forall i :: 0 <= i < n ==> f(i) == multiset{}
  {
    if n > 0 {
      SumToEmpty(n - 1, f);
      assert SumTo(n - 1, f) <= SumTo(n, f) && f(n - 1) <= SumTo(n, f);
    }
  }
}
