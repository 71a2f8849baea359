/** The sequence shapes of Python loops: a comprehension over a list, a loop whose body
    appends several elements, and `filter`. */
module Seqs {
  import opened OrderedDict

  function Map<T, U>(xs: seq<T>, f: T -> U): (r: seq<U>)
    ensures |r| == |xs|
    ensures forall i :: 0 <= i < |xs| ==> r[i] == f(xs[i])
  {
    seq(|xs|, i requires 0 <= i < |xs| => f(xs[i]))
  }

  lemma MapMember<T, U>(xs: seq<T>, f: T -> U, u: U)
    ensures u in Map(xs, f) <==> exists x :: x in xs && u == f(x)
  {
    if u in Map(xs, f) {
      var i :| 0 <= i < |xs| && Map(xs, f)[i] == u;
      assert xs[i] in xs;
    }
  }

  /** What a loop over `xs` writes when the body for `x` writes `f(x)`. */
  function ConcatMap<T, U>(xs: seq<T>, f: T -> seq<U>): seq<U>
    decreases |xs|
  {
    if xs == [] then [] else ConcatMap(xs[..|xs| - 1], f) + f(xs[|xs| - 1])
  }

  lemma {:induction false} ConcatMapMember<T, U>(xs: seq<T>, f: T -> seq<U>, u: U)
    ensures u in ConcatMap(xs, f) <==> exists x :: x in xs && u in f(x)
    decreases |xs|
  {
    if xs != [] {
      var init, last := xs[..|xs| - 1], xs[|xs| - 1];
      ConcatMapMember(init, f, u);
      assert xs == init + [last];
    }
  }

  /** The loop over a concatenation appends the results of the two parts, one after the other. */
  lemma {:induction false} ConcatMapConcat<T, U>(a: seq<T>, b: seq<T>, f: T -> seq<U>)
    ensures ConcatMap(a + b, f) == ConcatMap(a, f) + ConcatMap(b, f)
    decreases |b|
  {
    if b == [] {
      assert a + b == a;
    } else {
      var init, last := b[..|b| - 1], b[|b| - 1];
      assert (a + b)[..|a + b| - 1] == a + init && (a + b)[|a + b| - 1] == last;
      ConcatMapConcat(a, init, f);
    }
  }

  /** One more element appends its own results. */
  lemma ConcatMapSnoc<T, U>(xs: seq<T>, i: nat, f: T -> seq<U>)
    requires i < |xs|
    ensures ConcatMap(xs[..i + 1], f) == ConcatMap(xs[..i], f) + f(xs[i])
  {
    assert xs[..i + 1][..i] == xs[..i];
  }

  lemma {:induction false} ConcatMapLength<T, U>(xs: seq<T>, f: T -> seq<U>, n: nat)
    requires forall x :: x in xs ==> |f(x)| == n
    ensures |ConcatMap(xs, f)| == |xs| * n
    decreases |xs|
  {
    if xs != [] {
      var init := xs[..|xs| - 1];
      assert forall x :: x in init ==> x in xs;
      ConcatMapLength(init, f, n);
      assert |xs| * n == |init| * n + n;
    }
  }

  /** The elements of `xs` that satisfy `p`, in order: `list(filter(p, xs))`. */
  function Filter(xs: seq<string>, p: string -> bool): (r: seq<string>)
    ensures forall x :: x in r <==> x in xs && p(x)
    decreases |xs|
  {
    if xs == [] then []
    else
      var init, last := xs[..|xs| - 1], xs[|xs| - 1];
      assert forall x :: x in xs <==> x in init || x == last by { assert xs == init + [last]; }
      Filter(init, p) + if p(last) then [last] else []
  }

  /** Filtering a list free of repeats gives one. */
  lemma {:induction false} FilterDistinct(xs: seq<string>, p: string -> bool)
    requires Distinct(xs)
    ensures Distinct(Filter(xs, p))
    decreases |xs|
  {
    if xs != [] {
      var init, last := xs[..|xs| - 1], xs[|xs| - 1];
      DistinctInit(xs);
      FilterDistinct(init, p);
    }
  }

  /** Filtering a concatenation filters each part: the survivors keep their order. */
  lemma {:induction false} FilterConcat(a: seq<string>, b: seq<string>, p: string -> bool)
    ensures Filter(a + b, p) == Filter(a, p) + Filter(b, p)
    decreases |b|
  {
    if b == [] {
      assert a + b == a;
    } else {
      var init, last := b[..|b| - 1], b[|b| - 1];
      assert (a + b)[..|a + b| - 1] == a + init && (a + b)[|a + b| - 1] == last;
      FilterConcat(a, init, p);
    }
  }

  /** Filtering keeps every occurrence of an element that satisfies `p`, and none of the others. */
  lemma {:induction false} FilterCount(xs: seq<string>, p: string -> bool, x: string)
    ensures multiset(Filter(xs, p))[x] == if p(x) then multiset(xs)[x] else 0
    decreases |xs|
  {
    if xs != [] {
      var init, last := xs[..|xs| - 1], xs[|xs| - 1];
      assert xs == init + [last];
      FilterCount(init, p, x);
      assert multiset(xs) == multiset(init) + multiset{last};
    }
  }

  /** The position of the first occurrence of `x` in `xs`. */
  function FirstIndex(xs: seq<string>, x: string): (r: nat)
    requires x in xs
    ensures r < |xs| && xs[r] == x
    ensures forall j :: 0 <= j < r ==> xs[j] != x
    decreases |xs|
  {
    if xs[0] == x then 0 else 1 + FirstIndex(xs[1..], x)
  }

  /** Appending elements does not move a first occurrence; an element whose first occurrence is
      in the appended part is found after the whole of `a`. */
  lemma FirstIndexConcat(a: seq<string>, b: seq<string>, x: string)
    requires x in a + b
    ensures x in a ==> FirstIndex(a + b, x) == FirstIndex(a, x)
    ensures x !in a ==> FirstIndex(a + b, x) == |a| + FirstIndex(b, x)
  {
    var k := FirstIndex(a + b, x);
    if x in a {
      var i := FirstIndex(a, x);
      assert (a + b)[i] == x;
    } else {
      assert x in b;
      var i := FirstIndex(b, x);
      assert (a + b)[|a| + i] == x;
    }
  }

  /** The elements of `xs` in order of first appearance, every later repeat dropped. */
  function Dedup(xs: seq<string>): (r: seq<string>)
    ensures forall x :: x in r <==> x in xs
    decreases |xs|
  {
    if xs == [] then []
    else
      var init, last := xs[..|xs| - 1], xs[|xs| - 1];
      assert forall x :: x in xs <==> x in init || x == last by { assert xs == init + [last]; }
      Dedup(init) + if last in init then [] else [last]
  }

  /** The first-appearance order holds no repeats. */
  lemma {:induction false} DedupIsDistinct(xs: seq<string>)
    ensures Distinct(Dedup(xs))
    decreases |xs|
  {
    if xs != [] {
      var init, last := xs[..|xs| - 1], xs[|xs| - 1];
      DedupIsDistinct(init);
      var d := Dedup(init);
      if last !in init {
        forall i, j | 0 <= i < j < |d| + 1 ensures (d + [last])[i] != (d + [last])[j] {
          if j == |d| { assert (d + [last])[i] == d[i] && d[i] in d; }
        }
      }
    }
  }

  /** A list free of repeats is its own first-appearance order. */
  lemma {:induction false} DedupDistinct(xs: seq<string>)
    requires Distinct(xs)
    ensures Dedup(xs) == xs
    decreases |xs|
  {
    if xs != [] {
      DistinctInit(xs);
      DedupDistinct(xs[..|xs| - 1]);
    }
  }

  /** `x` comes before `y` in `Dedup(xs)` exactly when the first `x` comes before the first `y`
      in `xs`. */
  lemma {:induction false} DedupOrder(xs: seq<string>, x: string, y: string)
    requires x in xs && y in xs
    ensures FirstIndex(Dedup(xs), x) < FirstIndex(Dedup(xs), y) <==> FirstIndex(xs, x) < FirstIndex(xs, y)
    decreases |xs|
  {
    var init, last := xs[..|xs| - 1], xs[|xs| - 1];
    assert xs == init + [last];
    DedupSnoc(init, last);
    if x in init && y in init {
      DedupOrder(init, x, y);
      FirstIndexKept(init, [last], x, y);
      if last !in init {
        FirstIndexKept(Dedup(init), [last], x, y);
      } else {
        assert Dedup(xs) == Dedup(init) + [];
        assert Dedup(init) + [] == Dedup(init);
      }
    } else if x != y {
      assert last !in init;
      FirstIndexLast(init, x, y, last);
      FirstIndexLast(Dedup(init), x, y, last);
    }
  }

  /** Appending does not move the first occurrences of two elements already present. */
  lemma FirstIndexKept(a: seq<string>, b: seq<string>, x: string, y: string)
    requires x in a && y in a
    ensures FirstIndex(a + b, x) == FirstIndex(a, x) && FirstIndex(a + b, y) == FirstIndex(a, y)
  {
    FirstIndexConcat(a, b, x);
    FirstIndexConcat(a, b, y);
  }

  /** A new last element comes after every element already present. */
  lemma FirstIndexLast(a: seq<string>, x: string, y: string, last: string)
    requires last !in a && x in a + [last] && y in a + [last] && x != y && (x == last || y == last)
    ensures FirstIndex(a + [last], x) < FirstIndex(a + [last], y) <==> y == last
  {
    FirstIndexConcat(a, [last], x);
    FirstIndexConcat(a, [last], y);
  }

  /** Two lists with the same first-appearance order and the same elements keep agreeing on it
      when the same elements are appended to both. */
  lemma {:induction false} DedupSameStart(a1: seq<string>, a2: seq<string>, b: seq<string>)
    requires Dedup(a1) == Dedup(a2)
    requires forall x :: x in a1 <==> x in a2
    ensures Dedup(a1 + b) == Dedup(a2 + b)
    decreases |b|
  {
    if b == [] {
      assert a1 + b == a1 && a2 + b == a2;
    } else {
      var init, last := b[..|b| - 1], b[|b| - 1];
      assert (a1 + b)[..|a1 + b| - 1] == a1 + init && (a1 + b)[|a1 + b| - 1] == last;
      assert (a2 + b)[..|a2 + b| - 1] == a2 + init && (a2 + b)[|a2 + b| - 1] == last;
      DedupSameStart(a1, a2, init);
    }
  }

  lemma DedupSnoc(xs: seq<string>, y: string)
    ensures Dedup(xs + [y]) == Dedup(xs) + if y in xs then [] else [y]
  {
    assert (xs + [y])[..|xs|] == xs;
  }

  lemma FilterSnoc(xs: seq<string>, y: string, p: string -> bool)
    ensures Filter(xs + [y], p) == Filter(xs, p) + if p(y) then [y] else []
  {
    assert (xs + [y])[..|xs|] == xs;
  }

  /** Dropping from `s` only elements already in `a` does not change the first-appearance
      order of `a` followed by `s`. */
  lemma {:induction false} DedupDropSeen(a: seq<string>, s: seq<string>, p: string -> bool)
    requires forall x :: x in s && !p(x) ==> x in a
    ensures Dedup(a + Filter(s, p)) == Dedup(a + s)
    decreases |s|
  {
    if s != [] {
      var init, last := s[..|s| - 1], s[|s| - 1];
      assert s == init + [last];
      var f := Filter(init, p);
      DedupDropSeen(a, init, p);
      DropSeenMembers(a, init, p);
      FilterSnoc(init, last, p);
      assert a + s == (a + init) + [last];
      if p(last) {
        assert a + Filter(s, p) == (a + f) + [last];
        SnocBoth(a + f, a + init, last);
      } else {
        assert a + Filter(s, p) == a + f;
        DedupSnoc(a + init, last);
      }
    }
  }

  lemma DropSeenMembers(a: seq<string>, s: seq<string>, p: string -> bool)
    requires forall x :: x in s && !p(x) ==> x in a
    ensures forall x :: x in a + Filter(s, p) <==> x in a + s
  {
  }

  lemma SnocBoth(u: seq<string>, v: seq<string>, last: string)
    requires Dedup(u) == Dedup(v) && (last in u <==> last in v)
    ensures Dedup(u + [last]) == Dedup(v + [last])
  {
    DedupSnoc(u, last);
    DedupSnoc(v, last);
  }
}
