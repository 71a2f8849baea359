/** The "*Bear APTs" layer (scripts/layers/samples/bear_APT.py): every technique used by an
    intrusion set with "bear" in one of its aliases. */
module BearLayer {
  import opened Wrappers
  import opened StixData
  import opened Text
  import opened OrderedDict
  import opened TechniqueUsage
  import opened LayerFormat
  import opened Seqs

  const BEAR_COLOR: string := "#ff6666"
  const LAYER_NAME: string := "*Bear APTs"
  const LAYER_DESCRIPTION: string := "All techniques used by an APT group with phrase 'bear' in the group aliases"
  const LEGEND_LABEL: string := "Used by a group the phrase 'bear' in the group aliases"

  datatype TechniqueEntry = TechniqueEntry(techniqueID: string, comment: string, color: string)

  datatype Layer = Layer(
    name: string,
    versions: Versions,
    description: string,
    domain: string,
    techniques: seq<TechniqueEntry>,
    legendItems: seq<LegendItem>)

  /** `re.match(".*bear.*", alias, re.IGNORECASE)`: "bear", in any letter case, before the
      first newline of the alias (`.` does not cross a newline). */
  predicate IsBearAlias(alias: string)
  {
    Contains(Lower(FirstLine(alias)), "bear")
  }

  lemma BearAliasOfLine(alias: string)
    requires '\n' !in alias
    ensures IsBearAlias(alias) <==> Contains(Lower(alias), "bear")
  {
    FirstLineOfLine(alias);
  }

  predicate HasBearAlias(g: StixObject)
  {
    exists a :: a in g.aliases && IsBearAlias(a)
  }

  /** The selection test of the first loop. */
  predicate IsBearGroup(g: StixObject)
  {
    !DeprecatedOrRevoked(g) && HasBearAlias(g)
  }

  /** `bear_groups`: the selected groups, in input order. */
  function BearGroups(groups: seq<StixObject>): (r: seq<StixObject>)
    ensures forall i :: 0 <= i < |r| ==> IsBearGroup(r[i])
    decreases |groups|
  {
    if groups == [] then []
    else
      var last := groups[|groups| - 1];
      BearGroups(groups[..|groups| - 1]) + (if IsBearGroup(last) then [last] else [])
  }

  /** A group is selected iff it is live and some alias matches, and it is listed once per
      occurrence in the input, however many of its aliases match. */
  lemma {:induction false} BearGroupsSpec(groups: seq<StixObject>)
    ensures forall g :: g in BearGroups(groups) <==> g in groups && IsBearGroup(g)
    ensures forall g :: multiset(BearGroups(groups))[g] == if IsBearGroup(g) then multiset(groups)[g] else 0
    decreases |groups|
  {
    if groups != [] {
      var init, last := groups[..|groups| - 1], groups[|groups| - 1];
      assert groups == init + [last];
      BearGroupsSpec(init);
    }
  }

  /** Selecting from two runs of groups selects from each in turn: the selected groups keep
      their input order. */
  lemma {:induction false} BearGroupsConcat(a: seq<StixObject>, b: seq<StixObject>)
    ensures BearGroups(a + b) == BearGroups(a) + BearGroups(b)
    decreases |b|
  {
    if b == [] {
      assert a + b == a;
    } else {
      var init, last := b[..|b| - 1], b[|b| - 1];
      assert (a + b)[..|a + b| - 1] == a + init && (a + b)[|a + b| - 1] == last;
      BearGroupsConcat(a, init);
    }
  }

  /** The first loop of `generate`, with its `break` after the first matching alias. */
  method SelectBearGroups(groups: seq<StixObject>) returns (bearGroups: seq<StixObject>)
    ensures bearGroups == BearGroups(groups)
  {
    bearGroups := [];
    var i := 0;
    while i < |groups|
      invariant 0 <= i <= |groups|
      invariant bearGroups == BearGroups(groups[..i])
    {
      var group := groups[i];
      assert groups[..i + 1][..i] == groups[..i];
      if !(Truthy(group.deprecated) || Truthy(group.revoked)) {
        var j := 0;
        while j < |group.aliases|
          invariant 0 <= j <= |group.aliases|
          invariant bearGroups == BearGroups(groups[..i])
          invariant forall k :: 0 <= k < j ==> !IsBearAlias(group.aliases[k])
        {
          if Contains(Lower(FirstLine(group.aliases[j])), "bear") {
            assert group.aliases[j] in group.aliases;
            bearGroups := bearGroups + [group];
            break;
          }
          j := j + 1;
        }
        assert !HasBearAlias(group) ==> bearGroups == BearGroups(groups[..i]);
      }
      i := i + 1;
    }
    assert groups[..i] == groups;
  }

  /** `bearnames`: the matching aliases of a group, in alias order. Its first element is the
      first matching alias. */
  function BearNames(g: StixObject): (r: seq<string>)
    ensures forall a :: a in r <==> a in g.aliases && IsBearAlias(a)
    ensures HasBearAlias(g) ==> r != []
    ensures HasBearAlias(g) ==> exists i :: 0 <= i < |g.aliases| && r[0] == g.aliases[i] && FirstBearAlias(g.aliases, i)
  {
    BearNamesOfFirst(g.aliases);
    BearNamesOf(g.aliases)
  }

  function BearNamesOf(aliases: seq<string>): (r: seq<string>)
    ensures forall a :: a in r <==> a in aliases && IsBearAlias(a)
    decreases |aliases|
  {
    if aliases == [] then []
    else (if IsBearAlias(aliases[0]) then [aliases[0]] else []) + BearNamesOf(aliases[1..])
  }

  /** `aliases[i]` is the first alias that matches. */
  predicate FirstBearAlias(aliases: seq<string>, i: nat)
    requires i < |aliases|
  {
    IsBearAlias(aliases[i]) && forall j :: 0 <= j < i ==> !IsBearAlias(aliases[j])
  }

  /** The first matching alias heads the list. */
  lemma {:induction false} BearNamesOfFirst(aliases: seq<string>)
    ensures BearNamesOf(aliases) != [] ==> exists i :: 0 <= i < |aliases| && BearNamesOf(aliases)[0] == aliases[i] && FirstBearAlias(aliases, i)
    decreases |aliases|
  {
    if aliases != [] && !IsBearAlias(aliases[0]) {
      var rest := aliases[1..];
      BearNamesOfFirst(rest);
      if BearNamesOf(aliases) != [] {
        var i :| 0 <= i < |rest| && BearNamesOf(rest)[0] == rest[i] && FirstBearAlias(rest, i);
        assert aliases[i + 1] == rest[i];
        forall j | 0 <= j < i + 1 ensures !IsBearAlias(aliases[j]) {
          if j > 0 { assert aliases[j] == rest[j - 1]; }
        }
      }
    }
  }

  /** The list keeps alias order: the matching aliases of a concatenation are those of each
      part, one after the other. */
  lemma {:induction false} BearNamesOfConcat(a: seq<string>, b: seq<string>)
    ensures BearNamesOf(a + b) == BearNamesOf(a) + BearNamesOf(b)
    decreases |a|
  {
    if a == [] {
      assert a + b == b;
    } else {
      assert (a + b)[0] == a[0];
      assert (a + b)[1..] == a[1..] + b;
      BearNamesOfConcat(a[1..], b);
    }
  }

  /** `bearname`: the first matching alias, followed by " (AKA ...)" listing the other
      matching aliases joined by "," when there are any. */
  function BearName(g: StixObject): (r: string)
    requires HasBearAlias(g)
    ensures BearNames(g)[0] <= r
    ensures |BearNames(g)| == 1 ==> r == BearNames(g)[0]
    ensures |BearNames(g)| > 1 ==> r == BearNames(g)[0] + " (AKA " + Join(",", BearNames(g)[1..]) + ")"
  {
    var bearnames := BearNames(g);
    if |bearnames| > 1 then bearnames[0] + " (AKA " + Join(",", bearnames[1..]) + ")" else bearnames[0]
  }

  predicate AllBear(gs: seq<StixObject>)
  {
    forall i :: 0 <= i < |gs| ==> HasBearAlias(gs[i])
  }

  /** The visits one selected group adds: its relationships under its display name. A group
      without a "bear" alias never reaches this loop and adds nothing. */
  function VisitsOfBear(g: StixObject, rels: seq<Relationship>): seq<Visit>
  {
    if HasBearAlias(g) then VisitsOf(BearName(g), RelationshipsOf(rels, g.id)) else []
  }

  /** The visits of the second loop: each selected group's relationships, under its display name. */
  function BearVisits(bearGroups: seq<StixObject>, rels: seq<Relationship>): seq<Visit>
    requires AllBear(bearGroups)
  {
    ConcatMap(bearGroups, (g: StixObject) => VisitsOfBear(g, rels))
  }

  lemma BearVisitsConcat(a: seq<StixObject>, b: seq<StixObject>, rels: seq<Relationship>)
    requires AllBear(a) && AllBear(b)
    ensures AllBear(a + b)
    ensures BearVisits(a + b, rels) == BearVisits(a, rels) + BearVisits(b, rels)
  {
    var ab := a + b;
    forall i | 0 <= i < |ab| ensures HasBearAlias(ab[i]) {
      if i < |a| { assert ab[i] == a[i]; } else { assert ab[i] == b[i - |a|]; }
    }
    ConcatMapConcat(a, b, (g: StixObject) => VisitsOfBear(g, rels));
  }

  lemma BearVisitsSnoc(bearGroups: seq<StixObject>, i: nat, rels: seq<Relationship>)
    requires AllBear(bearGroups) && i < |bearGroups|
    ensures AllBear(bearGroups[..i]) && AllBear(bearGroups[..i + 1])
    ensures BearVisits(bearGroups[..i + 1], rels) ==
      BearVisits(bearGroups[..i], rels) + VisitsOf(BearName(bearGroups[i]), RelationshipsOf(rels, bearGroups[i].id))
  {
    assert forall j :: 0 <= j < i + 1 ==> bearGroups[..i + 1][j] == bearGroups[j];
    ConcatMapSnoc(bearGroups, i, (g: StixObject) => VisitsOfBear(g, rels));
  }

  /** An exception raised while visiting the first `i + 1` groups ends the whole walk. */
  lemma BearVisitsFailure(bearGroups: seq<StixObject>, i: nat, rels: seq<Relationship>, store: Store, e: Failure)
    requires AllBear(bearGroups) && i < |bearGroups|
    requires AllBear(bearGroups[..i + 1])
    requires Record(Empty(), BearVisits(bearGroups[..i + 1], rels), store) == Err(e)
    ensures Record(Empty(), BearVisits(bearGroups, rels), store) == Err(e)
  {
    var front, back := bearGroups[..i + 1], bearGroups[i + 1..];
    assert bearGroups == front + back;
    assert AllBear(back);
    BearVisitsConcat(front, back, rels);
    RecordConcat(Empty(), BearVisits(front, rels), BearVisits(back, rels), store);
  }

  /** Visiting one more selected group. */
  lemma BearRecordStep(bearGroups: seq<StixObject>, i: nat, rels: seq<Relationship>, store: Store)
    requires AllBear(bearGroups) && i < |bearGroups|
    ensures AllBear(bearGroups[..i]) && AllBear(bearGroups[..i + 1])
    ensures Record(Empty(), BearVisits(bearGroups[..i + 1], rels), store) ==
      var prior := Record(Empty(), BearVisits(bearGroups[..i], rels), store);
      if prior.Err? then prior
      else Record(prior.value, VisitsOf(BearName(bearGroups[i]), RelationshipsOf(rels, bearGroups[i].id)), store)
  {
    BearVisitsSnoc(bearGroups, i, rels);
    RecordConcat(Empty(), BearVisits(bearGroups[..i], rels), VisitsOf(BearName(bearGroups[i]), RelationshipsOf(rels, bearGroups[i].id)), store);
  }

  /** The second loop of `generate`: `techniques_used`, technique ID -> display names. */
  method AggregateTechniques(bearGroups: seq<StixObject>, rels: seq<Relationship>, store: Store)
    returns (r: Result<ODict<seq<string>>>)
    requires AllBear(bearGroups)
    ensures r == Record(Empty(), BearVisits(bearGroups, rels), store)
  {
    var techniquesUsed: ODict<seq<string>> := Empty();
    var i := 0;
    while i < |bearGroups|
      invariant 0 <= i <= |bearGroups|
      invariant AllBear(bearGroups[..i])
      invariant Valid(techniquesUsed)
      invariant Record(Empty(), BearVisits(bearGroups[..i], rels), store) == Ok(techniquesUsed)
    {
      var bear := bearGroups[i];
      var bearname := BearName(bear);
      var relationships := RelationshipsOf(rels, bear.id);
      var res := AddUsages(techniquesUsed, bearname, relationships, store);
      BearRecordStep(bearGroups, i, rels, store);
      match res {
        case Err(e) =>
          BearVisitsFailure(bearGroups, i, rels, store, e);
          return Err(e);
        case Ok(d) =>
          techniquesUsed := d;
      }
      i := i + 1;
    }
    assert bearGroups[..i] == bearGroups;
    r := Ok(techniquesUsed);
  }

  /** `techniques_list`: one layer entry per technique ID, in dict order. */
  function TechniquesList(techniquesUsed: ODict<seq<string>>): (r: seq<TechniqueEntry>)
    requires Valid(techniquesUsed)
    ensures |r| == |techniquesUsed.keys|
  {
    seq(|techniquesUsed.keys|, i requires 0 <= i < |techniquesUsed.keys| =>
      var techniqueID := techniquesUsed.keys[i];
      TechniqueEntry(techniqueID, "used by " + Join(", ", techniquesUsed.vals[techniqueID]), BEAR_COLOR))
  }

  /** `generate()` on the fetched intrusion sets, store and relationships. It fails exactly when
      a selected group has a relationship to a technique that is missing from the store, or is
      live and has no external reference. Otherwise the layer carries the fixed metadata and one
      entry per technique ID in first-seen order, whose comment lists, in order, the display name
      behind every contributing relationship. */
  method Generate(groups: seq<StixObject>, store: Store, rels: seq<Relationship>) returns (r: Result<Layer>)
    ensures
      var bearGroups := BearGroups(groups);
      var visits := BearVisits(bearGroups, rels);
      && (r.Ok? <==> forall i :: 0 <= i < |visits| ==> !Defective(visits[i].1, store))
      && (r.Ok? ==>
            var layer := r.value;
            var ids := FirstSeen(Contributions(visits, store));
            && layer.name == LAYER_NAME
            && layer.versions == Versions("4.1", "4.1")
            && layer.description == LAYER_DESCRIPTION
            && layer.domain == "enterprise-attack"
            && layer.legendItems == [LegendItem(LEGEND_LABEL, "#ff6666")]
            && |layer.techniques| == |ids|
            && forall i :: 0 <= i < |ids| ==>
                 layer.techniques[i] == TechniqueEntry(ids[i], "used by " + Join(", ", UsesOf(visits, store, ids[i])), "#ff6666"))
  {
    var bearGroups := SelectBearGroups(groups);
    var aggregated := AggregateTechniques(bearGroups, rels, store);
    RecordSpec(BearVisits(bearGroups, rels), store);
    match aggregated {
      case Err(e) =>
        return Err(e);
      case Ok(techniquesUsed) =>
        r := Ok(Layer(LAYER_NAME, LAYER_VERSIONS, LAYER_DESCRIPTION, ENTERPRISE_DOMAIN,
                      TechniquesList(techniquesUsed), [LegendItem(LEGEND_LABEL, BEAR_COLOR)]));
    }
  }
}
