/** Python's insertion-ordered `dict` with string keys, as a key sequence plus a map,
    and the grouping of (key, value) pairs into a dict of lists. */
module OrderedDict {

  type Pair = (string, string)

  predicate Distinct(s: seq<string>)
  {
    forall i, j :: 0 <= i < j < |s| ==> s[i] != s[j]
  }

  /** Dropping the last element keeps a list free of repeats, and that element is not among
      the rest. */
  lemma DistinctInit(s: seq<string>)
    requires s != [] && Distinct(s)
    ensures Distinct(s[..|s| - 1]) && s[|s| - 1] !in s[..|s| - 1]
  {
    var init := s[..|s| - 1];
    forall i | 0 <= i < |init| ensures init[i] != s[|s| - 1] { assert init[i] == s[i]; }
  }

  /** `keys` is the iteration order; `vals` holds the entries. */
  datatype ODict<V> = ODict(keys: seq<string>, vals: map<string, V>)

  predicate Valid<V>(d: ODict<V>)
  {
    && Distinct(d.keys)
    && (forall k :: k in d.keys ==> k in d.vals)
    && (forall k :: k in d.vals ==> k in d.keys)
  }

  function Empty<V>(): (r: ODict<V>)
    ensures Valid(r)
  {
    ODict([], map[])
  }

  /** `d[k] = v`: a new key goes to the end, an existing key keeps its place. */
  function Put<V>(d: ODict<V>, k: string, v: V): (r: ODict<V>)
    requires Valid(d)
    ensures Valid(r)
  {
    ODict(if k in d.vals then d.keys else d.keys + [k], d.vals[k := v])
  }

  /** The list stored under `k`, or `[]` when `k` is absent. */
  function ListAt(d: ODict<seq<string>>, k: string): seq<string>
  {
    if k in d.vals then d.vals[k] else []
  }

  /** `d[k].append(x)` when `k in d`, otherwise `d[k] = [x]`. */
  function Append(d: ODict<seq<string>>, k: string, x: string): (r: ODict<seq<string>>)
    requires Valid(d)
    ensures Valid(r)
  {
    Put(d, k, ListAt(d, k) + [x])
  }

  /** Appends every pair in turn. */
  function AppendAll(d: ODict<seq<string>>, pairs: seq<Pair>): (r: ODict<seq<string>>)
    requires Valid(d)
    ensures Valid(r)
    decreases |pairs|
  {
    if pairs == [] then d
    else
      var last := pairs[|pairs| - 1];
      Append(AppendAll(d, pairs[..|pairs| - 1]), last.0, last.1)
  }

  lemma {:induction false} AppendAllConcat(d: ODict<seq<string>>, p: seq<Pair>, q: seq<Pair>)
    requires Valid(d)
    ensures AppendAll(d, p + q) == AppendAll(AppendAll(d, p), q)
    decreases |q|
  {
    if q == [] {
      assert p + q == p;
    } else {
      var q' := q[..|q| - 1];
      assert (p + q)[..|p + q| - 1] == p + q';
      assert (p + q)[|p + q| - 1] == q[|q| - 1];
      AppendAllConcat(d, p, q');
    }
  }

  /** The pairs grouped by key: the dict `{}` after appending every pair. */
  function Grouped(pairs: seq<Pair>): (r: ODict<seq<string>>)
    ensures Valid(r)
  {
    AppendAll(Empty(), pairs)
  }

  predicate HasKey(pairs: seq<Pair>, k: string)
  {
    exists i :: 0 <= i < |pairs| && pairs[i].0 == k
  }

  lemma HasKeySnoc(pairs: seq<Pair>, x: Pair, k: string)
    ensures HasKey(pairs + [x], k) <==> HasKey(pairs, k) || x.0 == k
  {
    if HasKey(pairs + [x], k) && x.0 != k {
      var i :| 0 <= i < |pairs + [x]| && (pairs + [x])[i].0 == k;
      assert i < |pairs| && pairs[i].0 == k;
    }
    if HasKey(pairs, k) {
      var i :| 0 <= i < |pairs| && pairs[i].0 == k;
      assert (pairs + [x])[i].0 == k;
    }
    if x.0 == k {
      assert (pairs + [x])[|pairs|].0 == k;
    }
  }

  /** The distinct keys of `pairs` in order of first appearance. */
  function FirstSeen(pairs: seq<Pair>): (r: seq<string>)
    ensures Distinct(r)
    ensures forall k :: k in r <==> HasKey(pairs, k)
    decreases |pairs|
  {
    if pairs == [] then []
    else
      var init, last := pairs[..|pairs| - 1], pairs[|pairs| - 1];
      assert pairs == init + [last];
      forall k ensures HasKey(pairs, k) <==> HasKey(init, k) || last.0 == k {
        HasKeySnoc(init, last, k);
      }
      var seen := FirstSeen(init);
      if last.0 in seen then seen else seen + [last.0]
  }

  /** The values paired with `k`, in order: `[v for (k', v) in pairs if k' == k]`. */
  function ValuesFor(pairs: seq<Pair>, k: string): (r: seq<string>)
    ensures r == [] <==> !HasKey(pairs, k)
    ensures |r| <= |pairs|
    decreases |pairs|
  {
    if pairs == [] then []
    else
      var init, last := pairs[..|pairs| - 1], pairs[|pairs| - 1];
      assert pairs == init + [last];
      HasKeySnoc(init, last, k);
      ValuesFor(init, k) + (if last.0 == k then [last.1] else [])
  }

  /** Grouping keeps one entry per distinct key, in first-seen order, holding exactly
      the values of that key's pairs in order (never an empty list). */
  lemma {:induction false} GroupedSpec(pairs: seq<Pair>)
    ensures Grouped(pairs).keys == FirstSeen(pairs)
    ensures forall k :: k in Grouped(pairs).vals <==> HasKey(pairs, k)
    ensures forall k :: k in Grouped(pairs).vals ==> Grouped(pairs).vals[k] == ValuesFor(pairs, k) != []
    decreases |pairs|
  {
    if pairs != [] {
      var init, last := pairs[..|pairs| - 1], pairs[|pairs| - 1];
      assert pairs == init + [last];
      GroupedSpec(init);
      forall k ensures HasKey(pairs, k) <==> HasKey(init, k) || last.0 == k {
        HasKeySnoc(init, last, k);
      }
    }
  }
}
