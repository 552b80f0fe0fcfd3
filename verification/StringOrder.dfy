/** The order of strings, sorting by it, and joining with a separator. */
module StringOrder {
  import opened Text

  /** Go's <= on strings. */
  predicate Le(a: string, b: string) {
    a == [] || (b != [] && (a[0] < b[0] || (a[0] == b[0] && Le(a[1..], b[1..]))))
  }

  /** One is a prefix of the other, or smaller at the first character that differs. */
  lemma {:induction false} LeIff(a: string, b: string)
    ensures Le(a, b) <==> a <= b || exists i :: 0 <= i < |a| && i < |b| && a[..i] == b[..i] && a[i] < b[i]
  {
    if a != [] && b != [] && a[0] == b[0] {
      var a', b' := a[1..], b[1..];
      LeIff(a', b');
      assert a <= b <==> a' <= b' by {
        assert a == [a[0]] + a' && b == [b[0]] + b';
      }
      if i :| 0 <= i < |a'| && i < |b'| && a'[..i] == b'[..i] && a'[i] < b'[i] {
        assert a[..i + 1] == [a[0]] + a'[..i] && b[..i + 1] == [b[0]] + b'[..i] && a[i + 1] < b[i + 1];
      }
      if i :| 0 <= i < |a| && i < |b| && a[..i] == b[..i] && a[i] < b[i] {
        assert i > 0 && a'[..i - 1] == a[..i][1..] && b'[..i - 1] == b[..i][1..] && a'[i - 1] < b'[i - 1];
      }
    } else if a != [] && b != [] {
      assert a[0] < b[0] ==> a[..0] == b[..0];
      assert forall i :: 0 < i < |a| && i < |b| && a[..i] == b[..i] ==> a[..i][0] == b[..i][0];
    }
  }

  lemma {:induction false} LeReflexive(a: string)
    ensures Le(a, a)
  {
    if a != [] {
      LeReflexive(a[1..]);
    }
  }

  lemma {:induction false} LeTotal(a: string, b: string)
    ensures Le(a, b) || Le(b, a)
  {
    if a != [] && b != [] {
      LeTotal(a[1..], b[1..]);
    }
  }

  lemma {:induction false} LeAntisymmetric(a: string, b: string)
    requires Le(a, b) && Le(b, a)
    ensures a == b
  {
    if a != [] && b != [] {
      LeAntisymmetric(a[1..], b[1..]);
      assert a == [a[0]] + a[1..] && b == [b[0]] + b[1..];
    }
  }

  lemma {:induction false} LeTransitive(a: string, b: string, c: string)
    requires Le(a, b) && Le(b, c)
    ensures Le(a, c)
  {
    if a != [] && a[0] == b[0] == c[0] {
      LeTransitive(a[1..], b[1..], c[1..]);
    }
  }

  // ---------- Sorting by a key ----------

  ghost predicate SortedBy<T>(s: seq<T>, key: T -> string) {
    forall i, j :: 0 <= i < j < |s| ==> Le(key(s[i]), key(s[j]))
  }

  predicate DistinctKeys<T>(s: seq<T>, key: T -> string) {
    forall i, j :: 0 <= i < j < |s| ==> key(s[i]) != key(s[j])
  }

  lemma {:induction false} DropFirst<T>(s: seq<T>)
    requires s != []
    ensures multiset(s) == multiset{s[0]} + multiset(s[1..])
  {
    assert s == [s[0]] + s[1..];
  }

  ghost predicate KeyDetermines<T(!new)>(m: multiset<T>, key: T -> string) {
    forall x, y :: x in m && y in m && key(x) == key(y) ==> x == y
  }

  lemma {:induction false} SortedFirst<T(!new)>(a: seq<T>, b: seq<T>, key: T -> string)
    requires multiset(a) == multiset(b) && SortedBy(a, key) && SortedBy(b, key) && a != [] && b != []
    requires KeyDetermines(multiset(a), key)
    ensures a[0] == b[0]
  {
    assert a[0] in multiset(b) && b[0] in multiset(a);
    var j :| 0 <= j < |b| && b[j] == a[0];
    var i :| 0 <= i < |a| && a[i] == b[0];
    LeReflexive(key(a[0]));
    assert Le(key(a[0]), key(a[i])) && Le(key(b[0]), key(b[j]));
    LeAntisymmetric(key(a[0]), key(b[0]));
  }

  /** If equal keys mean equal elements, a multiset has one sorted arrangement. */
  lemma {:induction false} SortedIsUnique<T(!new)>(a: seq<T>, b: seq<T>, key: T -> string)
    requires multiset(a) == multiset(b) && SortedBy(a, key) && SortedBy(b, key)
    requires KeyDetermines(multiset(a), key)
    ensures a == b
  {
    SameSize(a, b);
    if a != [] {
      SortedFirst(a, b, key);
      SameTail(a, b);
      SortedTail(a, key);
      SortedTail(b, key);
      SortedIsUnique(a[1..], b[1..], key);
      HeadTail(a, b);
    }
  }

  lemma {:induction false} HeadTail<T>(a: seq<T>, b: seq<T>)
    requires a != [] && b != [] && a[0] == b[0] && a[1..] == b[1..]
    ensures a == b
  {
    assert a == [a[0]] + a[1..] && b == [b[0]] + b[1..];
  }

  lemma {:induction false} SameSize<T>(a: seq<T>, b: seq<T>)
    requires multiset(a) == multiset(b)
    ensures |a| == |b|
  {
    assert |multiset(a)| == |a| && |multiset(b)| == |b|;
  }

  lemma {:induction false} SameTail<T>(a: seq<T>, b: seq<T>)
    requires multiset(a) == multiset(b) && a != [] && b != [] && a[0] == b[0]
    ensures multiset(a[1..]) == multiset(b[1..])
  {
    DropFirst(a);
    DropFirst(b);
    assert multiset(a[1..]) == multiset(a) - multiset{a[0]};
    assert multiset(b[1..]) == multiset(b) - multiset{b[0]};
  }

  lemma {:induction false} SortedTail<T(!new)>(a: seq<T>, key: T -> string)
    requires a != [] && SortedBy(a, key)
    ensures SortedBy(a[1..], key)
    ensures KeyDetermines(multiset(a), key) ==> KeyDetermines(multiset(a[1..]), key)
  {
    DropFirst(a);
  }

  function InsertBy<T>(x: T, s: seq<T>, key: T -> string): (r: seq<T>)
    ensures multiset(r) == multiset{x} + multiset(s)
  {
    if s == [] then [x]
    else if Le(key(x), key(s[0])) then [x] + s
    else
      assert s == [s[0]] + s[1..];
      [s[0]] + InsertBy(x, s[1..], key)
  }

  /** Insertion sort. */
  function SortBy<T(!new)>(s: seq<T>, key: T -> string): (r: seq<T>)
    ensures multiset(r) == multiset(s) && |r| == |s|
    ensures SortedBy(r, key)
  {
    if s == [] then []
    else
      assert s == [s[0]] + s[1..];
      InsertSorts(s[0], SortBy(s[1..], key), key);
      var r := InsertBy(s[0], SortBy(s[1..], key), key);
      assert |multiset(r)| == |r| && |multiset(s)| == |s|;
      r
  }

  lemma {:induction false} InsertSorts<T(!new)>(x: T, s: seq<T>, key: T -> string)
    requires SortedBy(s, key)
    ensures SortedBy(InsertBy(x, s, key), key)
  {
    if s != [] {
      if Le(key(x), key(s[0])) {
        forall k | 0 <= k < |s| ensures Le(key(x), key(s[k])) {
          LeReflexive(key(s[0]));
          LeTransitive(key(x), key(s[0]), key(s[k]));
        }
      } else {
        LeTotal(key(x), key(s[0]));
        InsertSorts(x, s[1..], key);
        InsertAfter(x, s, key);
      }
    }
  }

  lemma {:induction false} InsertAfter<T(!new)>(x: T, s: seq<T>, key: T -> string)
    requires s != [] && SortedBy(s, key) && Le(key(s[0]), key(x))
    ensures forall k :: 0 <= k < |InsertBy(x, s[1..], key)| ==> Le(key(s[0]), key(InsertBy(x, s[1..], key)[k]))
  {
    var r := InsertBy(x, s[1..], key);
    forall k | 0 <= k < |r| ensures Le(key(s[0]), key(r[k])) {
      assert r[k] in multiset(r);
      assert r[k] == x || r[k] in s[1..];
    }
  }

  // ---------- sort.Strings ----------

  function Same(s: string): string {
    s
  }

  /** sortedCopy: the values in order. */
  function SortStrings(s: seq<string>): (r: seq<string>)
    ensures multiset(r) == multiset(s) && |r| == |s|
    ensures SortedBy(r, Same)
  {
    SortBy(s, Same)
  }

  /** Sorting is a canonical form of the multiset. */
  lemma {:induction false} SortIsCanonical(a: seq<string>, b: seq<string>)
    ensures SortStrings(a) == SortStrings(b) <==> multiset(a) == multiset(b)
  {
    if multiset(a) == multiset(b) {
      SortedIsUnique(SortStrings(a), SortStrings(b), Same);
    }
  }

  // ---------- Joining ----------

  predicate Free(parts: seq<string>, sep: char) {
    forall i :: 0 <= i < |parts| ==> sep !in parts[i]
  }

  lemma {:induction false} SplitPrefix(a: string, s: string, sep: char)
    requires sep !in a
    ensures Split(a, sep) == [a]
    ensures Split(a + [sep] + s, sep) == [a] + Split(s, sep)
  {
    if a == [] {
      assert ([sep] + s)[1..] == s;
      assert a + [sep] + s == [sep] + s;
    } else {
      SplitPrefix(a[1..], s, sep);
      assert (a + [sep] + s)[1..] == a[1..] + [sep] + s;
      assert a == [a[0]] + a[1..];
    }
  }

  /** Splitting undoes joining a non-empty list of strings free of the separator. */
  lemma {:induction false} SplitJoin(parts: seq<string>, sep: char)
    requires |parts| > 0 && Free(parts, sep)
    ensures Split(Join(parts, sep), sep) == parts
    decreases |parts|
  {
    if |parts| == 1 {
      SplitPrefix(parts[0], [], sep);
    } else {
      SplitJoin(parts[1..], sep);
      SplitPrefix(parts[0], Join(parts[1..], sep), sep);
      assert parts == [parts[0]] + parts[1..];
    }
  }

  /** equalStringSets: two lists compared through their sorted, NUL-joined forms. */
  predicate EqualStringSets(a: seq<string>, b: seq<string>) {
    Join(SortStrings(a), '\0') == Join(SortStrings(b), '\0')
  }

  lemma {:induction false} FreeSorted(a: seq<string>, sep: char)
    requires Free(a, sep)
    ensures Free(SortStrings(a), sep)
  {
    var r := SortStrings(a);
    forall i | 0 <= i < |r| ensures sep !in r[i] {
      assert r[i] in multiset(r);
      assert r[i] in a;
    }
  }

  /** For NUL-free strings it decides multiset equality, but for one collision: the empty list
      and the list of one empty string. */
  lemma {:induction false} EqualStringSetsDecides(a: seq<string>, b: seq<string>)
    requires Free(a, '\0') && Free(b, '\0')
    ensures EqualStringSets(a, b) <==>
            multiset(a) == multiset(b) || (a == [] && b == [""]) || (a == [""] && b == [])
  {
    var ra, rb := SortStrings(a), SortStrings(b);
    SortIsCanonical(a, b);
    FreeSorted(a, '\0');
    FreeSorted(b, '\0');
    if a != [] && b != [] {
      SplitJoin(ra, '\0');
      SplitJoin(rb, '\0');
    } else if a == [] && b != [] {
      EmptyJoin(b);
    } else if b == [] && a != [] {
      EmptyJoin(a);
    }
  }

  lemma {:induction false} EmptyJoin(a: seq<string>)
    requires a != []
    ensures Join(SortStrings(a), '\0') == "" <==> a == [""]
  {
    var r := SortStrings(a);
    if |a| == 1 {
      assert a == [a[0]];
      assert r[0] in multiset(r);
      assert r == a;
    } else {
      assert r[0] + ['\0'] + Join(r[1..], '\0') != "";
    }
  }
}
