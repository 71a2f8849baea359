/** Python's `sorted(xs, key=...)` for keys that are pairs of strings: a stable sort by the
    lexicographic order of the pair, strings compared code point by code point. */
module StableSort {

  type Key = (string, string)

  /** `a < b` on Python strings: the first differing character decides, and a proper prefix
      is smaller. */
  predicate StrLt(a: string, b: string)
    decreases |a|
  {
    if a == [] then b != []
    else if b == [] then false
    else if a[0] != b[0] then a[0] < b[0]
    else StrLt(a[1..], b[1..])
  }

  /** `(a0, a1) < (b0, b1)` on Python tuples. */
  predicate KeyLt(x: Key, y: Key)
  {
    StrLt(x.0, y.0) || (x.0 == y.0 && StrLt(x.1, y.1))
  }

  lemma {:induction false} StrLtIrreflexive(a: string)
    ensures !StrLt(a, a)
    decreases |a|
  {
    if a != [] {
      StrLtIrreflexive(a[1..]);
    }
  }

  lemma {:induction false} StrLtTransitive(a: string, b: string, c: string)
    requires StrLt(a, b) && StrLt(b, c)
    ensures StrLt(a, c)
    decreases |a|
  {
    if a != [] && b != [] && c != [] && a[0] == b[0] && b[0] == c[0] {
      StrLtTransitive(a[1..], b[1..], c[1..]);
    }
  }

  lemma {:induction false} StrLtTotal(a: string, b: string)
    ensures a == b || StrLt(a, b) || StrLt(b, a)
    decreases |a|
  {
    if a != [] && b != [] && a[0] == b[0] {
      StrLtTotal(a[1..], b[1..]);
      if a[1..] == b[1..] {
        assert a == [a[0]] + a[1..] && b == [b[0]] + b[1..];
      }
    }
  }

  /** `KeyLt` is a strict total order. */
  lemma KeyLtOrder(x: Key, y: Key, z: Key)
    ensures !KeyLt(x, x)
    ensures KeyLt(x, y) && KeyLt(y, z) ==> KeyLt(x, z)
    ensures x == y || KeyLt(x, y) || KeyLt(y, x)
  {
    StrLtIrreflexive(x.0);
    StrLtIrreflexive(x.1);
    if StrLt(x.0, y.0) && StrLt(y.0, z.0) { StrLtTransitive(x.0, y.0, z.0); }
    if StrLt(x.1, y.1) && StrLt(y.1, z.1) { StrLtTransitive(x.1, y.1, z.1); }
    StrLtTotal(x.0, y.0);
    StrLtTotal(x.1, y.1);
  }

  /** Not greater: `!(y < x)`. */
  predicate KeyLe(x: Key, y: Key)
  {
    !KeyLt(y, x)
  }

  lemma KeyLeTransitive(x: Key, y: Key, z: Key)
    requires KeyLe(x, y) && KeyLe(y, z)
    ensures KeyLe(x, z)
  {
    KeyLtOrder(z, y, x);
    KeyLtOrder(y, z, x);
    KeyLtOrder(z, x, y);
  }

  predicate SortedBy<T>(s: seq<T>, key: T -> Key)
  {
    forall i, j :: 0 <= i < j < |s| ==> KeyLe(key(s[i]), key(s[j]))
  }

  /** Inserts `x` after every element whose key is not greater than its own. */
  function Insert<T>(s: seq<T>, x: T, key: T -> Key): (r: seq<T>)
    ensures multiset(r) == multiset(s) + multiset{x}
    ensures |r| == |s| + 1
    decreases |s|
  {
    if s == [] then [x]
    else if KeyLt(key(x), key(s[0])) then [x] + s
    else
      assert s == [s[0]] + s[1..];
      [s[0]] + Insert(s[1..], x, key)
  }

  /** The reference stable sort: each element in turn inserted into the sorted prefix. */
  function SortBy<T>(xs: seq<T>, key: T -> Key): (r: seq<T>)
    ensures multiset(r) == multiset(xs)
    decreases |xs|
  {
    if xs == [] then []
    else
      assert xs == xs[..|xs| - 1] + [xs[|xs| - 1]];
      Insert(SortBy(xs[..|xs| - 1], key), xs[|xs| - 1], key)
  }

  /** Prepending an element not greater than any other keeps a sequence sorted. */
  lemma ConsSorted<T>(h: T, s: seq<T>, key: T -> Key)
    requires SortedBy(s, key)
    requires forall j :: 0 <= j < |s| ==> KeyLe(key(h), key(s[j]))
    ensures SortedBy([h] + s, key)
  {
    var r := [h] + s;
    forall i, j | 0 <= i < j < |r| ensures KeyLe(key(r[i]), key(r[j])) {
      assert r[j] == s[j - 1];
      if i > 0 { assert r[i] == s[i - 1]; }
    }
  }

  /** Every element of a sorted sequence is at least its first. */
  lemma AtLeastFirst<T>(h: T, s: seq<T>, key: T -> Key)
    requires SortedBy(s, key) && s != [] && KeyLe(key(h), key(s[0]))
    ensures forall j :: 0 <= j < |s| ==> KeyLe(key(h), key(s[j]))
  {
    forall j | 0 < j < |s| ensures KeyLe(key(h), key(s[j])) {
      KeyLeTransitive(key(h), key(s[0]), key(s[j]));
    }
  }

  lemma {:induction false} InsertSorted<T>(s: seq<T>, x: T, key: T -> Key)
    requires SortedBy(s, key)
    ensures SortedBy(Insert(s, x, key), key)
    decreases |s|
  {
    if s == [] {
    } else if KeyLt(key(x), key(s[0])) {
      KeyLtOrder(key(x), key(s[0]), key(x));
      AtLeastFirst(x, s, key);
      ConsSorted(x, s, key);
    } else {
      var t := s[1..];
      assert SortedBy(t, key);
      InsertSorted(t, x, key);
      var rt := Insert(t, x, key);
      forall j | 0 <= j < |rt| ensures KeyLe(key(s[0]), key(rt[j])) {
        if rt[j] != x {
          assert rt[j] in multiset(rt);
          assert rt[j] in multiset(t);
          var k :| 0 <= k < |t| && t[k] == rt[j];
          assert t[k] == s[k + 1];
        }
      }
      ConsSorted(s[0], rt, key);
    }
  }

  lemma {:induction false} SortBySorted<T>(xs: seq<T>, key: T -> Key)
    ensures SortedBy(SortBy(xs, key), key)
    decreases |xs|
  {
    if xs != [] {
      SortBySorted(xs[..|xs| - 1], key);
      InsertSorted(SortBy(xs[..|xs| - 1], key), xs[|xs| - 1], key);
    }
  }

  /** The elements of `s` with key `k`, in order. */
  function WithKey<T>(s: seq<T>, key: T -> Key, k: Key): seq<T>
    decreases |s|
  {
    if s == [] then [] else (if key(s[0]) == k then [s[0]] else []) + WithKey(s[1..], key, k)
  }

  lemma {:induction false} WithKeyAppend<T>(s: seq<T>, x: T, key: T -> Key, k: Key)
    ensures WithKey(s + [x], key, k) == WithKey(s, key, k) + (if key(x) == k then [x] else [])
    decreases |s|
  {
    if s != [] {
      assert (s + [x])[1..] == s[1..] + [x];
      WithKeyAppend(s[1..], x, key, k);
    }
  }

  /** In a sorted sequence, the elements whose key is `k` all precede those with a greater key. */
  lemma {:induction false} WithKeyGreater<T>(s: seq<T>, key: T -> Key, k: Key)
    requires s != [] && KeyLt(k, key(s[0])) && SortedBy(s, key)
    ensures WithKey(s, key, k) == []
    decreases |s|
  {
    KeyLtOrder(k, k, k);
    if |s| > 1 {
      var t := s[1..];
      assert KeyLe(key(s[0]), key(t[0]));
      KeyLtOrder(key(t[0]), key(s[0]), k);
      KeyLtOrder(k, key(s[0]), key(t[0]));
      assert SortedBy(t, key);
      WithKeyGreater(t, key, k);
    }
  }

  /** Inserting keeps the elements of every key in their order, `x` last among its own. */
  lemma {:induction false} InsertWithKey<T>(s: seq<T>, x: T, key: T -> Key, k: Key)
    requires SortedBy(s, key)
    ensures WithKey(Insert(s, x, key), key, k) == WithKey(s, key, k) + (if key(x) == k then [x] else [])
    decreases |s|
  {
    if s == [] {
    } else if KeyLt(key(x), key(s[0])) {
      if key(x) == k {
        WithKeyGreater(s, key, k);
      }
      assert ([x] + s)[1..] == s;
    } else {
      var t := s[1..];
      assert SortedBy(t, key);
      InsertWithKey(t, x, key, k);
      assert ([s[0]] + Insert(t, x, key))[1..] == Insert(t, x, key);
    }
  }

  /** The sort is stable: the elements with any one key come out in their input order. */
  lemma {:induction false} SortByStable<T>(xs: seq<T>, key: T -> Key, k: Key)
    ensures WithKey(SortBy(xs, key), key, k) == WithKey(xs, key, k)
    decreases |xs|
  {
    if xs != [] {
      var init, last := xs[..|xs| - 1], xs[|xs| - 1];
      SortByStable(init, key, k);
      SortBySorted(init, key);
      InsertWithKey(SortBy(init, key), last, key, k);
      assert xs == init + [last];
      WithKeyAppend(init, last, key, k);
    }
  }
}
