/** The row logic of the `write_*` functions of scripts/techniques_data_sources_vis.py and
    the tactic-subset selection of `generate_content`. Each writer is modelled by the
    sequence of tuples its nested loops visit, in order, and the lines of its CSV file: the
    header, then one lowercased row per tuple (without the trailing newline). */
module DataSourcesCsv {
  import opened Wrappers
  import opened OrderedDict
  import opened Text
  import opened DataSourcesVis
  import opened Seqs

  type Triple = (string, string, string)

  /** Two lowercased comma-separated fields. */
  function Row2(a: string, b: string): string
  {
    Lower(a) + "," + Lower(b)
  }

  /** Three lowercased comma-separated fields. */
  function Row3(t: Triple): string
  {
    Lower(t.0) + "," + Lower(t.1) + "," + Lower(t.2)
  }

  // ----- write_DPT -----

  const DPT_HEADER := "tech,defense,permission"

  /** `(tech, defn, perm)` for each technique of `tech_to_def`, each defense it bypasses and
      each permission it requires. `tech_to_perm[tech]` fails for a technique missing from
      `tech_to_perm`; `parse_techniques` gives every technique an entry in both. */
  function DptTriples(def: Links, perm: Links): seq<Triple>
    requires forall tech :: tech in def.vals ==> tech in perm.vals
  {
    ConcatMap(def.keys, tech => ConcatMap(ListAt(def, tech), defn => Map(ListAt(perm, tech), p => (tech, defn, p))))
  }

  function DptLines(def: Links, perm: Links): (r: seq<string>)
    requires forall tech :: tech in def.vals ==> tech in perm.vals
    ensures |r| == 1 + |DptTriples(def, perm)| && r[0] == DPT_HEADER
    ensures forall i :: 0 <= i < |DptTriples(def, perm)| ==> r[i + 1] == Row3(DptTriples(def, perm)[i])
  {
    [DPT_HEADER] + Map(DptTriples(def, perm), Row3)
  }

  /** A triple is written exactly when the technique lists the defense and the permission. */
  lemma DptTriplesMember(def: Links, perm: Links, t: Triple)
    requires Valid(def) && forall tech :: tech in def.vals ==> tech in perm.vals
    ensures t in DptTriples(def, perm) <==> t.0 in def.vals && t.1 in def.vals[t.0] && t.2 in perm.vals[t.0]
  {
    var f := tech => ConcatMap(ListAt(def, tech), defn => Map(ListAt(perm, tech), p => (tech, defn, p)));
    ConcatMapMember(def.keys, f, t);
    forall tech | tech in def.keys
      ensures t in f(tech) <==> tech == t.0 && t.1 in ListAt(def, tech) && t.2 in ListAt(perm, tech)
    {
      var g := defn => Map(ListAt(perm, tech), p => (tech, defn, p));
      ConcatMapMember(ListAt(def, tech), g, t);
      forall defn | defn in ListAt(def, tech) ensures t in g(defn) <==> tech == t.0 && defn == t.1 && t.2 in ListAt(perm, tech) {
        MapMember(ListAt(perm, tech), p => (tech, defn, p), t);
      }
    }
  }

  /** One row per (defense, permission) pair of a technique. */
  lemma DptTechniqueRows(def: Links, perm: Links, tech: string)
    ensures |ConcatMap(ListAt(def, tech), defn => Map(ListAt(perm, tech), p => (tech, defn, p)))|
      == |ListAt(def, tech)| * |ListAt(perm, tech)|
  {
    ConcatMapLength(ListAt(def, tech), defn => Map(ListAt(perm, tech), p => (tech, defn, p)), |ListAt(perm, tech)|);
  }

  // ----- write_tacticsToTechniques -----

  const TACTICS_HEADER := "technique,tactic"

  /** `(tech, tac)` for each technique of `tech_to_tac` and each of its tactics. */
  function TacticPairs(tac: Links): seq<(string, string)>
  {
    ConcatMap(tac.keys, tech => Map(ListAt(tac, tech), t => (tech, t)))
  }

  function TacticsLines(tac: Links): (r: seq<string>)
    ensures |r| == 1 + |TacticPairs(tac)| && r[0] == TACTICS_HEADER
    ensures forall i :: 0 <= i < |TacticPairs(tac)| ==> r[i + 1] == Row2(TacticPairs(tac)[i].0, TacticPairs(tac)[i].1)
  {
    [TACTICS_HEADER] + Map(TacticPairs(tac), (p: (string, string)) => Row2(p.0, p.1))
  }

  lemma TacticPairsMember(tac: Links, p: (string, string))
    requires Valid(tac)
    ensures p in TacticPairs(tac) <==> p.0 in tac.vals && p.1 in tac.vals[p.0]
  {
    var f := tech => Map(ListAt(tac, tech), t => (tech, t));
    ConcatMapMember(tac.keys, f, p);
    forall tech | tech in tac.keys ensures p in f(tech) <==> tech == p.0 && p.1 in ListAt(tac, tech) {
      MapMember(ListAt(tac, tech), t => (tech, t), p);
    }
  }

  // ----- write_TSG -----

  const TSG_HEADER := "technique,software,group"

  /** `desired_techniques`: the keys of `tech_to_software`, in order, restricted to the
      specified techniques when some are specified. */
  function Desired(techToSoftware: Links, specified: Option<seq<string>>): seq<string>
  {
    Filter(techToSoftware.keys, t => specified.None? || t in specified.value)
  }

  /** The groups written for one software of a technique; software absent from
      `software_to_group` is skipped. */
  function SoftwareGroups(softwareToGroup: Links, tech: string, software: string): seq<Triple>
  {
    if software in softwareToGroup.vals then Map(softwareToGroup.vals[software], g => (tech, software, g)) else []
  }

  /** `(tech, software, group)` for each desired technique, each software implementing it
      and each group using that software. */
  function TsgTriples(specified: Option<seq<string>>, techToSoftware: Links, softwareToGroup: Links): seq<Triple>
  {
    ConcatMap(Desired(techToSoftware, specified),
      tech => ConcatMap(ListAt(techToSoftware, tech), software => SoftwareGroups(softwareToGroup, tech, software)))
  }

  function TsgLines(specified: Option<seq<string>>, techToSoftware: Links, softwareToGroup: Links): (r: seq<string>)
    ensures |r| == 1 + |TsgTriples(specified, techToSoftware, softwareToGroup)| && r[0] == TSG_HEADER
    ensures forall i :: 0 <= i < |TsgTriples(specified, techToSoftware, softwareToGroup)| ==>
      r[i + 1] == Row3(TsgTriples(specified, techToSoftware, softwareToGroup)[i])
  {
    [TSG_HEADER] + Map(TsgTriples(specified, techToSoftware, softwareToGroup), Row3)
  }

  /** A triple is written exactly when its technique is desired, the software implements it
      and the group uses the software. */
  lemma TsgTriplesMember(specified: Option<seq<string>>, techToSoftware: Links, softwareToGroup: Links, t: Triple)
    requires Valid(techToSoftware)
    ensures t in TsgTriples(specified, techToSoftware, softwareToGroup) <==>
      && t.0 in techToSoftware.vals
      && (specified.None? || t.0 in specified.value)
      && t.1 in techToSoftware.vals[t.0]
      && t.1 in softwareToGroup.vals
      && t.2 in softwareToGroup.vals[t.1]
  {
    var f := tech => ConcatMap(ListAt(techToSoftware, tech), software => SoftwareGroups(softwareToGroup, tech, software));
    var desired := Desired(techToSoftware, specified);
    ConcatMapMember(desired, f, t);
    forall tech | tech in desired
      ensures t in f(tech) <==> tech == t.0 && t.1 in ListAt(techToSoftware, tech) && t.1 in softwareToGroup.vals && t.2 in softwareToGroup.vals[t.1]
    {
      var g := software => SoftwareGroups(softwareToGroup, tech, software);
      ConcatMapMember(ListAt(techToSoftware, tech), g, t);
      forall software | software in ListAt(techToSoftware, tech)
        ensures t in g(software) <==> tech == t.0 && software == t.1 && software in softwareToGroup.vals && t.2 in softwareToGroup.vals[software]
      {
        if software in softwareToGroup.vals {
          MapMember(softwareToGroup.vals[software], gr => (tech, software, gr), t);
        }
      }
    }
  }

  // ----- tactic subset in generate_content -----

  /** The two lists share an element: `not set(a).isdisjoint(set(b))`. */
  predicate Intersects(a: seq<string>, b: seq<string>)
  {
    exists x :: x in a && x in b
  }

  /** `selected_techs`: the techniques of `tech_to_tac`, in order, that have a tactic among
      `tactics`. */
  function Selected(tac: Links, tactics: seq<string>): seq<string>
  {
    Filter(tac.keys, tech => Intersects(tactics, ListAt(tac, tech)))
  }

  /** The selection loop of `generate_content`. */
  method SelectTechniques(tac: Links, tactics: seq<string>) returns (selected: seq<string>)
    requires Valid(tac)
    ensures selected == Selected(tac, tactics)
  {
    var p := tech => Intersects(tactics, ListAt(tac, tech));
    var keys := tac.keys;
    selected := [];
    var j := 0;
    while j < |keys|
      invariant 0 <= j <= |keys|
      invariant selected == Filter(keys[..j], p)
    {
      assert keys[..j + 1][..j] == keys[..j];
      var tech := keys[j];
      if Intersects(tactics, tac.vals[tech]) {
        selected := selected + [tech];
      }
      j := j + 1;
    }
    assert keys[..j] == keys;
  }

  /** The subset file holds a technique only when one of its tactics was asked for, and then
      every row the full file has for it. */
  lemma TsgSubsetMember(tac: Links, tactics: seq<string>, techToSoftware: Links, softwareToGroup: Links, t: Triple)
    requires Valid(techToSoftware) && Valid(tac)
    ensures t in TsgTriples(Some(Selected(tac, tactics)), techToSoftware, softwareToGroup) <==>
      && t in TsgTriples(None, techToSoftware, softwareToGroup)
      && t.0 in tac.vals && Intersects(tactics, tac.vals[t.0])
  {
    TsgTriplesMember(Some(Selected(tac, tactics)), techToSoftware, softwareToGroup, t);
    TsgTriplesMember(None, techToSoftware, softwareToGroup, t);
  }

  // ----- write_tacticPermissions -----

  const TACTIC_PERMISSIONS_HEADER := "tactic,permission,technique count"

  /** `(tac, perm)` for each tactic of `tactics_to_permission` and each permission counted under it. */
  function CountPairs(t: Counts): seq<(string, string)>
  {
    ConcatMap(t.keys, tac => if tac in t.vals then Map(t.vals[tac].keys, perm => (tac, perm)) else [])
  }

  /** The row of one counter: tactic, permission and the count in decimal. */
  function CountLine(t: Counts, p: (string, string)): string
  {
    Row2(p.0, p.1) + "," + NatToString(Get2(t, p.0, p.1))
  }

  function TacticPermissionLines(t: Counts): (r: seq<string>)
    ensures |r| == 1 + |CountPairs(t)| && r[0] == TACTIC_PERMISSIONS_HEADER
    ensures forall i :: 0 <= i < |CountPairs(t)| ==> r[i + 1] == CountLine(t, CountPairs(t)[i])
  {
    [TACTIC_PERMISSIONS_HEADER] + Map(CountPairs(t), p => CountLine(t, p))
  }

  lemma CountPairsMember(t: Counts, p: (string, string))
    requires CountsValid(t)
    ensures p in CountPairs(t) <==> p.0 in t.vals && p.1 in t.vals[p.0].vals
  {
    var f := tac => if tac in t.vals then Map(t.vals[tac].keys, perm => (tac, perm)) else [];
    ConcatMapMember(t.keys, f, p);
    forall tac | tac in t.keys ensures p in f(tac) <==> tac == p.0 && p.1 in t.vals[tac].vals {
      MapMember(t.vals[tac].keys, perm => (tac, perm), p);
    }
  }

  /** From an empty table, the row of `(tac, perm)` carries the number of techniques listing
      both (see `CountAllSpec`). */
  lemma TacticPermissionCount(techs: seq<string>, tacOf: Links, permOf: Links, tac: string, perm: string)
    requires forall tech :: tech in techs ==> tech in tacOf.vals && tech in permOf.vals
    requires NoDupLists(tacOf) && NoDupLists(permOf)
    ensures CountLine(CountAll(Empty(), techs, tacOf, permOf), (tac, perm))
      == Row2(tac, perm) + "," + NatToString(NumListing(techs, tacOf, permOf, tac, perm))
  {
    CountAllSpec(Empty(), techs, tacOf, permOf, tac, perm);
  }

  // ----- write_techniquesToDatasources -----

  const DATASOURCES_HEADER := "technique,data source"

  /** `(tech, data)` for each technique of `tech_to_data` and each of its data sources whose
      lowercased name is among `data_sources`. */
  function DataSourcePairs(dataSources: seq<string>, data: Links): seq<(string, string)>
  {
    ConcatMap(data.keys, tech => Map(Filter(ListAt(data, tech), d => Lower(d) in dataSources), d => (tech, d)))
  }

  function DataSourceLines(dataSources: seq<string>, data: Links): (r: seq<string>)
    ensures |r| == 1 + |DataSourcePairs(dataSources, data)| && r[0] == DATASOURCES_HEADER
    ensures forall i :: 0 <= i < |DataSourcePairs(dataSources, data)| ==>
      r[i + 1] == Row2(DataSourcePairs(dataSources, data)[i].0, DataSourcePairs(dataSources, data)[i].1)
  {
    [DATASOURCES_HEADER] + Map(DataSourcePairs(dataSources, data), (p: (string, string)) => Row2(p.0, p.1))
  }

  lemma DataSourcePairsMember(dataSources: seq<string>, data: Links, p: (string, string))
    requires Valid(data)
    ensures p in DataSourcePairs(dataSources, data) <==> p.0 in data.vals && p.1 in data.vals[p.0] && Lower(p.1) in dataSources
  {
    var f := tech => Map(Filter(ListAt(data, tech), d => Lower(d) in dataSources), d => (tech, d));
    ConcatMapMember(data.keys, f, p);
    forall tech | tech in data.keys ensures p in f(tech) <==> tech == p.0 && p.1 in ListAt(data, tech) && Lower(p.1) in dataSources {
      MapMember(Filter(ListAt(data, tech), d => Lower(d) in dataSources), d => (tech, d), p);
    }
  }
}
