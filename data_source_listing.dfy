/** `data_sources()` of scripts/techniques_from_data_source.py: every data source named by
    some technique, in order of first appearance. */
module DataSourceListing {
  import opened Wrappers
  import opened StixData
  import opened OrderedDict
  import opened Seqs

  /** The comprehension `[d for d in srcs if d not in acc]`: it tests membership against the
      list as it was before this technique, not as it grows. */
  function NewSources(srcs: seq<string>, acc: seq<string>): (r: seq<string>)
    ensures forall d :: d in r <==> d in srcs && d !in acc
  {
    Filter(srcs, d => d !in acc)
  }

  /** A technique can list a data source several times; each occurrence is kept exactly
      when the source is not in `acc`. */
  lemma NewSourcesCount(srcs: seq<string>, acc: seq<string>, d: string)
    ensures multiset(NewSources(srcs, acc))[d] == if d in acc then 0 else multiset(srcs)[d]
  {
    FilterCount(srcs, d => d !in acc, d);
  }

  /** The `data_sources` field of a technique, `[]` when it has none. */
  function SourcesOf(t: StixObject): seq<string>
  {
    if t.dataSources.Some? then t.dataSources.value else []
  }

  /** Every data source the techniques list, repeats included, in technique order. */
  function AllSources(techs: seq<StixObject>): seq<string>
    decreases |techs|
  {
    if techs == [] then [] else AllSources(techs[..|techs| - 1]) + SourcesOf(techs[|techs| - 1])
  }

  /** What `all_data_srcs` holds after the loop has visited `techs`. */
  function Listing(techs: seq<StixObject>): (r: seq<string>)
    ensures forall d :: d in r <==> d in AllSources(techs)
    decreases |techs|
  {
    if techs == [] then []
    else
      var acc := Listing(techs[..|techs| - 1]);
      var tech := techs[|techs| - 1];
      acc + (if tech.dataSources.Some? then NewSources(tech.dataSources.value, acc) else [])
  }

  /** `data_sources()` over the technique query's result. */
  method DataSources(techniques: seq<StixObject>) returns (allDataSrcs: seq<string>)
    ensures allDataSrcs == Listing(techniques)
  {
    allDataSrcs := [];
    var i := 0;
    while i < |techniques|
      invariant 0 <= i <= |techniques|
      invariant allDataSrcs == Listing(techniques[..i])
    {
      var tech := techniques[i];
      assert techniques[..i + 1][..i] == techniques[..i];
      if tech.dataSources.Some? {
        allDataSrcs := allDataSrcs + NewSources(tech.dataSources.value, allDataSrcs);
      }
      i := i + 1;
    }
    assert techniques[..i] == techniques;
  }

  /** Technique `t` lists data source `d`. */
  predicate Lists(t: StixObject, d: string)
  {
    t.dataSources.Some? && d in t.dataSources.value
  }

  /** The result holds exactly the data sources that some technique with the field lists;
      techniques without it contribute nothing. */
  lemma {:induction false} ListingMember(techs: seq<StixObject>, d: string)
    ensures d in Listing(techs) <==> exists t :: t in techs && Lists(t, d)
    decreases |techs|
  {
    if techs != [] {
      var init, last := techs[..|techs| - 1], techs[|techs| - 1];
      ListingMember(init, d);
      assert techs == init + [last];
      var acc := Listing(init);
      var added := if last.dataSources.Some? then NewSources(last.dataSources.value, acc) else [];
      assert Listing(techs) == acc + added;
      assert d in added <==> Lists(last, d) && d !in acc;
      if d in acc {
        var t :| t in init && Lists(t, d);
        assert t in techs;
      } else if Lists(last, d) {
        assert last in techs;
      } else {
        forall t | t in techs ensures !Lists(t, d) {
          if t != last { assert t in init; }
        }
      }
    }
  }

  /** Earlier techniques' sources come first: the list only grows at its end. */
  lemma {:induction false} ListingPrefix(techs: seq<StixObject>, i: nat)
    requires i <= |techs|
    ensures Listing(techs[..i]) <= Listing(techs)
    decreases |techs|
  {
    if i < |techs| {
      var init := techs[..|techs| - 1];
      assert techs[..i] == init[..i];
      ListingPrefix(init, i);
    } else {
      assert techs[..i] == techs;
    }
  }

  /** A data source that is already present after the first `i` techniques is never appended
      again: it occurs in the final list exactly as often as it did then. */
  lemma {:induction false} ListingNoReappend(techs: seq<StixObject>, i: nat, d: string)
    requires i <= |techs| && d in Listing(techs[..i])
    ensures multiset(Listing(techs))[d] == multiset(Listing(techs[..i]))[d]
    decreases |techs|
  {
    if i < |techs| {
      var init, last := techs[..|techs| - 1], techs[|techs| - 1];
      assert techs[..i] == init[..i];
      ListingNoReappend(init, i, d);
      ListingPrefix(init, i);
      var acc := Listing(init);
      assert d in acc;
      var added := if last.dataSources.Some? then NewSources(last.dataSources.value, acc) else [];
      assert d !in added;
      assert Listing(techs) == acc + added;
      assert multiset(acc + added) == multiset(acc) + multiset(added);
    } else {
      assert techs[..i] == techs;
    }
  }

  /** Adding the fresh sources of one technique to `acc` gives the first-appearance order of
      `acc` followed by all of that technique's sources. */
  lemma NewSourcesDedup(srcs: seq<string>, acc: seq<string>)
    ensures Dedup(acc + NewSources(srcs, acc)) == Dedup(acc + srcs)
  {
    DedupDropSeen(acc, srcs, d => d !in acc);
  }

  /** Dropping the repeats from the result gives every listed source in order of first
      appearance. */
  lemma {:induction false} ListingDedup(techs: seq<StixObject>)
    ensures Dedup(Listing(techs)) == Dedup(AllSources(techs))
    decreases |techs|
  {
    if techs != [] {
      var init, last := techs[..|techs| - 1], techs[|techs| - 1];
      ListingDedup(init);
      var acc, all, srcs := Listing(init), AllSources(init), SourcesOf(last);
      NewSourcesDedup(srcs, acc);
      DedupSameStart(acc, all, srcs);
      if last.dataSources.Some? {
        assert Listing(techs) == acc + NewSources(srcs, acc);
      } else {
        assert Listing(techs) == acc + [] && acc + [] == acc;
        assert acc + srcs == acc && all + srcs == all;
      }
    }
  }

  /** Data source `d` comes before data source `e` in the result exactly when the first
      technique occurrence of `d` comes before that of `e`, over all the techniques' lists read
      in order. */
  lemma ListingOrder(techs: seq<StixObject>, d: string, e: string)
    requires d in Listing(techs) && e in Listing(techs)
    ensures FirstIndex(Listing(techs), d) < FirstIndex(Listing(techs), e)
        <==> FirstIndex(AllSources(techs), d) < FirstIndex(AllSources(techs), e)
  {
    ListingDedup(techs);
    DedupOrder(Listing(techs), d, e);
    DedupOrder(AllSources(techs), d, e);
  }

  /** Filtering a list free of repeats against `acc` gives a list free of repeats. */
  lemma NewSourcesDistinct(srcs: seq<string>, acc: seq<string>)
    requires Distinct(srcs)
    ensures Distinct(NewSources(srcs, acc))
  {
    FilterDistinct(srcs, d => d !in acc);
  }

  /** The result is free of repeats when every technique's own list is. */
  lemma {:induction false} ListingDistinct(techs: seq<StixObject>)
    requires forall t :: t in techs && t.dataSources.Some? ==> Distinct(t.dataSources.value)
    ensures Distinct(Listing(techs))
    decreases |techs|
  {
    if techs != [] {
      var init, last := techs[..|techs| - 1], techs[|techs| - 1];
      assert forall t :: t in init ==> t in techs;
      ListingDistinct(init);
      if last.dataSources.Some? {
        var acc := Listing(init);
        var added := NewSources(last.dataSources.value, acc);
        NewSourcesDistinct(last.dataSources.value, acc);
        var r := acc + added;
        forall a, b | 0 <= a < b < |r| ensures r[a] != r[b] {
          if b >= |acc| && a < |acc| {
            assert r[b] == added[b - |acc|];
            assert r[b] !in acc;
          } else if a >= |acc| {
            assert r[a] == added[a - |acc|] && r[b] == added[b - |acc|];
          }
        }
      }
    }
  }

  /** When no technique lists a source twice, the result is exactly the order of first
      appearance. */
  lemma ListingFirstAppearance(techs: seq<StixObject>)
    requires forall t :: t in techs && t.dataSources.Some? ==> Distinct(t.dataSources.value)
    ensures Listing(techs) == Dedup(AllSources(techs))
  {
    ListingDistinct(techs);
    DedupDistinct(Listing(techs));
    ListingDedup(techs);
  }

  /** Membership is checked against the list before the technique's own sources are added, so
      a source a technique lists twice is kept twice. */
  lemma DuplicatesWithinOneTechniqueKept(t: StixObject)
    requires t.dataSources == Some(["Process monitoring", "Process monitoring"])
    ensures Listing([t]) == ["Process monitoring", "Process monitoring"]
    ensures !Distinct(Listing([t]))
  {
    assert [t][..0] == [];
    var srcs := t.dataSources.value;
    assert srcs[..1][..0] == [];
    assert srcs[..|srcs| - 1] == srcs[..1];
    assert Filter(srcs[..1], d => d !in []) == ["Process monitoring"];
  }
}
