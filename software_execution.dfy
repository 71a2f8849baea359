/** The "Software Execution" layers (scripts/layers/samples/software_execution.py): every technique
    used by live software of the chosen subtype, scored by how many uses it has. */
module SoftwareExecution {
  import opened Wrappers
  import opened StixData
  import opened Text
  import opened OrderedDict
  import opened TechniqueUsage
  import opened LayerFormat
  import opened Seqs

  /** "descending order of score" in the Navigator's sorting codes. */
  const SORT_BY_SCORE_DESCENDING: int := 3
  const LOW_COLOR: string := "#fff7b3"
  const HIGH_COLOR: string := "#ff6666"

  datatype ScoredEntry = ScoredEntry(techniqueID: string, comment: string, score: int)

  datatype Gradient = Gradient(colors: seq<string>, minValue: int, maxValue: int)

  datatype ScoredLayer = ScoredLayer(
    name: string,
    description: string,
    versions: Versions,
    domain: string,
    techniques: seq<ScoredEntry>,
    sorting: int,
    gradient: Gradient)

  /** The object types queried for `softwaretype`, in query order. */
  function SoftwareFilters(softwaretype: string): (r: seq<string>)
    ensures softwaretype == "software" ==> r == ["malware", "tool"]
    ensures softwaretype == "malware" ==> r == ["malware"]
    ensures softwaretype == "tool" ==> r == ["tool"]
    ensures softwaretype !in {"software", "malware", "tool"} ==> r == []
  {
    (if softwaretype in ["malware", "software"] then ["malware"] else [])
      + (if softwaretype in ["tool", "software"] then ["tool"] else [])
  }

  /** `ms.query([Filter('type', '=', typ)])` over the store's objects, in store order. */
  function OfType(objects: seq<StixObject>, typ: string): (r: seq<StixObject>)
    ensures forall x :: x in r <==> x in objects && x.typ == typ
    decreases |objects|
  {
    if objects == [] then []
    else
      var last := objects[|objects| - 1];
      OfType(objects[..|objects| - 1], typ) + (if last.typ == typ then [last] else [])
  }

  /** `list(chain.from_iterable(ms.query(f) for f in filters))`. */
  function QueryChain(objects: seq<StixObject>, filters: seq<string>): (r: seq<StixObject>)
    ensures forall x :: x in r <==> x in objects && x.typ in filters
    decreases |filters|
  {
    if filters == [] then []
    else OfType(objects, filters[0]) + QueryChain(objects, filters[1..])
  }

  /** `software`: the malware and/or tools selected by `softwaretype`, malware before tools. */
  function Software(objects: seq<StixObject>, softwaretype: string): (r: seq<StixObject>)
    ensures softwaretype == "software" ==> r == OfType(objects, "malware") + OfType(objects, "tool")
    ensures softwaretype == "malware" ==> r == OfType(objects, "malware")
    ensures softwaretype == "tool" ==> r == OfType(objects, "tool")
    ensures softwaretype !in {"software", "malware", "tool"} ==> r == []
  {
    var filters := SoftwareFilters(softwaretype);
    QueryChainShort(objects, filters);
    QueryChain(objects, filters)
  }

  lemma QueryChainShort(objects: seq<StixObject>, filters: seq<string>)
    ensures |filters| == 1 ==> QueryChain(objects, filters) == OfType(objects, filters[0])
    ensures |filters| == 2 ==> QueryChain(objects, filters) == OfType(objects, filters[0]) + OfType(objects, filters[1])
  {
    if |filters| == 1 {
      assert QueryChain(objects, filters[1..]) == [];
    } else if |filters| == 2 {
      assert filters[1..][1..] == [];
      assert QueryChain(objects, filters[1..]) == OfType(objects, filters[1]) + [];
    }
  }

  /** The visits one piece of software adds: none when it is deprecated or revoked. */
  function VisitsOfSoftware(x: StixObject, rels: seq<Relationship>): seq<Visit>
  {
    if DeprecatedOrRevoked(x) then [] else VisitsOf(x.name, RelationshipsOf(rels, x.id))
  }

  /** The visits of the aggregation loop: each live piece of software's relationships,
      under its name; deprecated or revoked software is skipped. */
  function SoftwareVisits(software: seq<StixObject>, rels: seq<Relationship>): seq<Visit>
  {
    ConcatMap(software, (x: StixObject) => VisitsOfSoftware(x, rels))
  }

  lemma SoftwareVisitsConcat(a: seq<StixObject>, b: seq<StixObject>, rels: seq<Relationship>)
    ensures SoftwareVisits(a + b, rels) == SoftwareVisits(a, rels) + SoftwareVisits(b, rels)
  {
    ConcatMapConcat(a, b, (x: StixObject) => VisitsOfSoftware(x, rels));
  }

  /** An exception raised while visiting the first `i + 1` programs ends the whole walk. */
  lemma SoftwareVisitsFailure(software: seq<StixObject>, i: nat, rels: seq<Relationship>, store: Store, e: Failure)
    requires i < |software|
    requires Record(Empty(), SoftwareVisits(software[..i + 1], rels), store) == Err(e)
    ensures Record(Empty(), SoftwareVisits(software, rels), store) == Err(e)
  {
    var front, back := software[..i + 1], software[i + 1..];
    assert software == front + back;
    SoftwareVisitsConcat(front, back, rels);
    RecordConcat(Empty(), SoftwareVisits(front, rels), SoftwareVisits(back, rels), store);
  }

  /** One more piece of software adds its own visits. */
  lemma SoftwareVisitsSnoc(software: seq<StixObject>, i: nat, rels: seq<Relationship>)
    requires i < |software|
    ensures SoftwareVisits(software[..i + 1], rels) == SoftwareVisits(software[..i], rels) + VisitsOfSoftware(software[i], rels)
  {
    ConcatMapSnoc(software, i, (x: StixObject) => VisitsOfSoftware(x, rels));
  }

  /** The aggregation loop: `techniques_used`, technique ID -> software names. */
  method AggregateSoftware(software: seq<StixObject>, rels: seq<Relationship>, store: Store)
    returns (r: Result<ODict<seq<string>>>)
    ensures r == Record(Empty(), SoftwareVisits(software, rels), store)
  {
    var techniquesUsed: ODict<seq<string>> := Empty();
    var i := 0;
    while i < |software|
      invariant 0 <= i <= |software|
      invariant Valid(techniquesUsed)
      invariant Record(Empty(), SoftwareVisits(software[..i], rels), store) == Ok(techniquesUsed)
    {
      var thesoftware := software[i];
      SoftwareVisitsSnoc(software, i, rels);
      if Truthy(thesoftware.deprecated) || Truthy(thesoftware.revoked) {
        assert VisitsOfSoftware(thesoftware, rels) == [];
        assert SoftwareVisits(software[..i], rels) + [] == SoftwareVisits(software[..i], rels);
        i := i + 1;
        continue;
      }
      var relationships := RelationshipsOf(rels, thesoftware.id);
      var res := AddUsages(techniquesUsed, thesoftware.name, relationships, store);
      assert VisitsOfSoftware(thesoftware, rels) == VisitsOf(thesoftware.name, relationships);
      RecordConcat(Empty(), SoftwareVisits(software[..i], rels), VisitsOf(thesoftware.name, relationships), store);
      match res {
        case Err(e) =>
          SoftwareVisitsFailure(software, i, rels, store, e);
          return Err(e);
        case Ok(d) =>
          techniquesUsed := d;
      }
      i := i + 1;
    }
    assert software[..i] == software;
    r := Ok(techniquesUsed);
  }

  /** Entry `i` scores and comments the list under `keys[i]`. */
  predicate EntriesFor(techniques: seq<ScoredEntry>, keys: seq<string>, vals: map<string, seq<string>>)
  {
    && |techniques| == |keys|
    && forall i :: 0 <= i < |keys| ==>
         keys[i] in vals
         && techniques[i] == ScoredEntry(keys[i], "executed by " + Join(", ", vals[keys[i]]), |vals[keys[i]]|)
  }

  /** `max(0, score...)`: the running `highest_usage` after the entries. */
  predicate IsHighest(highest: int, techniques: seq<ScoredEntry>)
  {
    && 0 <= highest
    && (forall i :: 0 <= i < |techniques| ==> techniques[i].score <= highest)
    && (techniques == [] ==> highest == 0)
    && (techniques != [] ==> exists i :: 0 <= i < |techniques| && techniques[i].score == highest)
  }

  /** `min(1, score...)`: the running `lowest_usage` after the entries. */
  predicate IsLowest(lowest: int, techniques: seq<ScoredEntry>)
  {
    && lowest <= 1
    && (forall i :: 0 <= i < |techniques| ==> lowest <= techniques[i].score)
    && (lowest == 1 || exists i :: 0 <= i < |techniques| && techniques[i].score == lowest)
  }

  lemma ExtremesStep(highest: int, lowest: int, techniques: seq<ScoredEntry>, entry: ScoredEntry)
    requires IsHighest(highest, techniques) && IsLowest(lowest, techniques)
    requires 0 <= entry.score
    ensures IsHighest(if highest >= entry.score then highest else entry.score, techniques + [entry])
    ensures IsLowest(if lowest <= entry.score then lowest else entry.score, techniques + [entry])
  {
    var ts := techniques + [entry];
    assert ts[|techniques|] == entry;
    assert forall i :: 0 <= i < |techniques| ==> ts[i] == techniques[i];
    if techniques != [] {
      var j :| 0 <= j < |techniques| && techniques[j].score == highest;
      assert ts[j].score == highest;
      if lowest != 1 {
        var k :| 0 <= k < |techniques| && techniques[k].score == lowest;
        assert ts[k].score == lowest;
      }
    }
  }

  lemma EntriesStep(techniques: seq<ScoredEntry>, keys: seq<string>, vals: map<string, seq<string>>, i: nat)
    requires i < |keys| && keys[i] in vals
    requires EntriesFor(techniques, keys[..i], vals)
    ensures EntriesFor(techniques + [ScoredEntry(keys[i], "executed by " + Join(", ", vals[keys[i]]), |vals[keys[i]]|)],
                       keys[..i + 1], vals)
  {
    assert keys[..i + 1] == keys[..i] + [keys[i]];
  }

  /** The rendering loop: one scored entry per technique ID in dict order, with the running
      `highest_usage` (from 0) and `lowest_usage` (from 1); the latter stays 1 when no list
      is empty. */
  method RenderTechniques(techniquesUsed: ODict<seq<string>>)
    returns (techniques: seq<ScoredEntry>, highest: int, lowest: int)
    requires Valid(techniquesUsed)
    ensures EntriesFor(techniques, techniquesUsed.keys, techniquesUsed.vals)
    ensures IsHighest(highest, techniques)
    ensures IsLowest(lowest, techniques)
    ensures (forall k :: k in techniquesUsed.vals ==> techniquesUsed.vals[k] != []) ==> lowest == 1
  {
    techniques := [];
    highest, lowest := 0, 1;
    var keys := techniquesUsed.keys;
    var i := 0;
    while i < |keys|
      invariant 0 <= i <= |keys|
      invariant EntriesFor(techniques, keys[..i], techniquesUsed.vals)
      invariant IsHighest(highest, techniques)
      invariant IsLowest(lowest, techniques)
    {
      var techniqueID := keys[i];
      assert techniqueID in techniquesUsed.keys;
      var value := techniquesUsed.vals[techniqueID];
      var count := |value|;
      var entry := ScoredEntry(techniqueID, "executed by " + Join(", ", value), count);
      ExtremesStep(highest, lowest, techniques, entry);
      EntriesStep(techniques, keys, techniquesUsed.vals, i);
      highest := if highest >= count then highest else count;
      lowest := if lowest <= count then lowest else count;
      techniques := techniques + [entry];
      i := i + 1;
    }
    assert keys[..i] == keys;
    if forall k :: k in techniquesUsed.vals ==> techniquesUsed.vals[k] != [] {
      forall j | 0 <= j < |techniques| ensures techniques[j].score >= 1 {
        assert keys[j] in techniquesUsed.vals;
      }
    }
  }

  /** `layername`. */
  function LayerName(softwaretype: string): (r: string)
    ensures softwaretype == "software" <==> r == "Software Execution"
    ensures softwaretype != "software" ==> r == "Software (" + softwaretype + ") Execution"
  {
    if softwaretype != "software" then "Software (" + softwaretype + ") Execution"
    else "Software Execution"
  }

  /** The three layers written by the script (and any other subtype) get distinct names. */
  lemma LayerNameInjective(a: string, b: string)
    requires LayerName(a) == LayerName(b)
    ensures a == b
  {
    if a != "software" && b != "software" {
      var pre, post := "Software (", ") Execution";
      assert LayerName(a) == pre + a + post;
      assert LayerName(b) == pre + b + post;
      assert |a| == |b|;
      forall i | 0 <= i < |a| ensures a[i] == b[i] {
        assert LayerName(a)[|pre| + i] == a[i];
        assert LayerName(b)[|pre| + i] == b[i];
      }
    }
  }

  /** The plural in the description: "tools" for "tool", otherwise "malware". */
  function Plural(softwaretype: string): (r: string)
    ensures r == "tools" <==> softwaretype == "tool"
    ensures softwaretype != "tool" ==> r == "malware"
  {
    if softwaretype == "tool" then "tools" else "malware"
  }

  /** `layerdescription`. */
  function LayerDescription(softwaretype: string): string
  {
    if softwaretype != "software" then
      "All techniques that can be executed by software of subtype " + softwaretype
        + ", where the score is the count of " + Plural(softwaretype) + " using the technique"
    else
      "All techniques that can be executed by software, where the score is the count of software using the technique"
  }

  /** The entries list one technique ID each, in first-seen order, scored by the number of
      contributing relationships (at least one) and commented with the names behind them. */
  predicate ScoresUses(techniques: seq<ScoredEntry>, visits: seq<Visit>, store: Store)
  {
    var ids := FirstSeen(Contributions(visits, store));
    && |techniques| == |ids|
    && forall i :: 0 <= i < |ids| ==>
         var names := UsesOf(visits, store, ids[i]);
         && names != []
         && techniques[i] == ScoredEntry(ids[i], "executed by " + Join(", ", names), |names|)
  }

  /** The gradient runs from 1 to the highest score, or to 0 when there are no entries. */
  predicate SpansScores(gradient: Gradient, techniques: seq<ScoredEntry>)
  {
    && gradient.colors == ["#fff7b3", "#ff6666"]
    && gradient.minValue == 1
    && (forall i :: 0 <= i < |techniques| ==> techniques[i].score <= gradient.maxValue)
    && (techniques == [] <==> gradient.maxValue == 0)
    && (techniques != [] ==> exists i :: 0 <= i < |techniques| && techniques[i].score == gradient.maxValue)
  }

  /** `generate(softwaretype)` on the store's objects, the store and its relationships. It fails
      exactly when live selected software has a relationship to a technique that is missing
      from the store, or is live and has no external reference. */
  method Generate(softwaretype: string, objects: seq<StixObject>, store: Store, rels: seq<Relationship>)
    returns (r: Result<ScoredLayer>)
    ensures
      var visits := SoftwareVisits(Software(objects, softwaretype), rels);
      && (r.Ok? <==> forall i :: 0 <= i < |visits| ==> !Defective(visits[i].1, store))
      && (r.Ok? ==>
            && r.value.name == LayerName(softwaretype)
            && r.value.description == LayerDescription(softwaretype)
            && r.value.versions == Versions("4.1", "4.1")
            && r.value.domain == "enterprise-attack"
            && r.value.sorting == 3
            && ScoresUses(r.value.techniques, visits, store)
            && SpansScores(r.value.gradient, r.value.techniques))
  {
    var software := Software(objects, softwaretype);
    var visits := SoftwareVisits(software, rels);
    var aggregated := AggregateSoftware(software, rels, store);
    RecordSpec(visits, store);
    match aggregated {
      case Err(e) =>
        return Err(e);
      case Ok(techniquesUsed) =>
        var ids := FirstSeen(Contributions(visits, store));
        assert techniquesUsed.keys == ids;
        forall i | 0 <= i < |ids| ensures techniquesUsed.vals[ids[i]] == UsesOf(visits, store, ids[i]) != [] {
          assert ids[i] in techniquesUsed.keys;
        }
        var techniques, highest, lowest := RenderTechniques(techniquesUsed);
        assert ScoresUses(techniques, visits, store);
        var gradient := Gradient([LOW_COLOR, HIGH_COLOR], lowest, highest);
        assert SpansScores(gradient, techniques) by {
          if techniques != [] {
            assert techniques[0].score >= 1;
          }
        }
        r := Ok(ScoredLayer(LayerName(softwaretype), LayerDescription(softwaretype), LAYER_VERSIONS,
                            ENTERPRISE_DOMAIN, techniques, SORT_BY_SCORE_DESCENDING, gradient));
    }
  }
}
