/** The module-level dicts of scripts/techniques_data_sources_vis.py as the fields of one
    object, and the `parse_*` procedures that fill them in place. Each procedure is proved
    against the specification function of the same name in `DataSourcesVis`, whose lemmas
    state what the filled dicts hold. */
module DataSourcesTables {
  import opened Wrappers
  import opened StixData
  import opened OrderedDict
  import opened DataSourcesVis

  lemma CountPermissionsSnoc(row: ODict<nat>, perms: seq<string>, k: nat)
    requires Valid(row) && k < |perms|
    ensures CountPermissions(row, perms[..k + 1]) == CountPermission(CountPermissions(row, perms[..k]), perms[k])
  {
    assert perms[..k + 1][..k] == perms[..k];
  }

  /** The loop of `parse_tactics` over the permissions of one technique, on the counters
      `tactics_to_permission[tac]` of one tactic. */
  method CountRow(row: ODict<nat>, perms: seq<string>) returns (r: ODict<nat>)
    requires Valid(row)
    ensures r == CountPermissions(row, perms)
  {
    r := row;
    var k := 0;
    while k < |perms|
      invariant 0 <= k <= |perms|
      invariant Valid(r) && r == CountPermissions(row, perms[..k])
    {
      CountPermissionsSnoc(row, perms, k);
      var perm := perms[k];
      var n := if perm in r.vals then r.vals[perm] else 0;
      r := Put(r, perm, n + 1);
      k := k + 1;
    }
    assert perms[..k] == perms;
  }

  /** The loop of `parse_tactics` over the tactics of one technique, on the counter table `t`. */
  method CountTechnique(t: Counts, tacs: seq<string>, perms: seq<string>) returns (r: Counts)
    requires CountsValid(t)
    ensures r == CountTactics(t, tacs, perms)
  {
    r := t;
    var i := 0;
    while i < |tacs|
      invariant 0 <= i <= |tacs|
      invariant r == CountTactics(t, tacs[..i], perms)
    {
      assert tacs[..i + 1][..i] == tacs[..i];
      var tac := tacs[i];
      var row: ODict<nat> := if tac in r.vals then r.vals[tac] else Empty();
      row := CountRow(row, perms);
      r := Put(r, tac, row);
      i := i + 1;
    }
    assert tacs[..i] == tacs;
  }

  /** The lines of the loop body of `parse_techniques` for one list-valued dict: `d[tech] = []`
      when missing, then each value of the record's field appended unless already listed. */
  method AddFieldTo(d: Links, tech: string, xs: Option<seq<string>>) returns (r: Links)
    requires Valid(d)
    ensures r == AddField(d, tech, xs)
  {
    r := d;
    if tech !in r.vals {
      r := Put(r, tech, []);
    }
    if xs.Some? {
      var l := AddMissing(r.vals[tech], xs.value);
      r := Put(r, tech, l);
    }
  }

  /** The same for `tech_to_tac`, whose values are the phase names of the kill-chain phases. */
  method AddTacticsTo(d: Links, tech: string, phases: Option<seq<KillChainPhase>>) returns (r: Links)
    requires Valid(d)
    ensures r == AddField(d, tech, if phases.Some? then Some(PhaseNames(phases.value)) else None)
  {
    r := d;
    if tech !in r.vals {
      r := Put(r, tech, []);
    }
    if phases.Some? {
      var l := AddPhases(r.vals[tech], phases.value);
      r := Put(r, tech, l);
    }
  }

  /** One `if src in id_to_a and tgt in id_to_b: add_link(...)` line of `parse_relationships`. */
  method LinkCaseTo(m: LinkMaps, ids: IdMaps, rel: Relationship, a: Role, b: Role) returns (r: LinkMaps)
    requires a != b && LinksValid(m)
    ensures r == LinkCase(m, ids, rel, a, b)
  {
    r := m;
    var src, tgt := rel.sourceRef, rel.targetRef;
    if src in IdsOf(ids, a) && tgt in IdsOf(ids, b) {
      var alphaDict, betaDict := AddLinkTo(IdsOf(ids, a)[src], IdsOf(ids, b)[tgt], Table(m, a, b), Table(m, b, a));
      r := SetTable(SetTable(m, a, b, alphaDict), b, a, betaDict);
    }
  }

  /** The body of the loop of `parse_techniques` for one technique object, on the dicts `m`.
      The source first gives the name an empty list in each dict that lacks one, then fills
      the lists field by field; the dicts are independent, so each is done in one step here. */
  method ParseTechniqueTo(m: TechniqueMaps, obj: TechniqueRecord) returns (r: TechniqueMaps)
    requires MapsValid(m)
    ensures r == ParseTechnique(m, obj)
  {
    var tech := obj.name;
    r := m;
    if obj.id.Some? {
      r := r.(techToId := r.techToId[tech := obj.id.value], idToTech := r.idToTech[obj.id.value := tech]);
    }
    var tac := AddTacticsTo(r.tac, tech, obj.killChainPhases);
    var plat := AddFieldTo(r.plat, tech, obj.platforms);
    var data := AddFieldTo(r.data, tech, obj.dataSources);
    var def := AddFieldTo(r.def, tech, obj.defenseBypassed);
    var perm := AddFieldTo(r.perm, tech, obj.permissionsRequired);
    r := r.(tac := tac, plat := plat, data := data, def := def, perm := perm);
  }

  /** One more technique is one more step of `ParseAll`. */
  lemma ParseAllSnoc(m: TechniqueMaps, techniques: seq<TechniqueRecord>, j: nat)
    requires MapsValid(m) && j < |techniques|
    ensures ParseAll(m, techniques[..j + 1]) == ParseTechnique(ParseAll(m, techniques[..j]), techniques[j])
  {
    var pre := techniques[..j + 1];
    assert pre[..|pre| - 1] == techniques[..j];
    assert pre[|pre| - 1] == techniques[j];
    assert ParseAll(m, pre) == ParseTechnique(ParseAll(m, pre[..|pre| - 1]), pre[|pre| - 1]);
  }

  /** The loop of `parse_techniques` over the technique objects. */
  method ParseAllTo(m: TechniqueMaps, techniques: seq<TechniqueRecord>) returns (r: TechniqueMaps)
    requires MapsValid(m)
    ensures r == ParseAll(m, techniques)
  {
    r := m;
    for j := 0 to |techniques|
      invariant MapsValid(r) && r == ParseAll(m, techniques[..j])
    {
      ParseAllSnoc(m, techniques, j);
      r := ParseTechniqueTo(r, techniques[j]);
    }
    assert techniques[..|techniques|] == techniques;
  }

  /** One more key is one more step of `UserOnly`. */
  lemma UserOnlySnoc(perm: Links, keys: seq<string>, j: nat)
    requires Valid(perm) && j < |keys| && forall k :: k in keys ==> k in perm.vals
    ensures forall k :: k in keys[..j] ==> k in perm.vals
    ensures keys[j] in UserOnly(perm, keys[..j]).vals
    ensures UserOnly(perm, keys[..j + 1]) ==
      var p := UserOnly(perm, keys[..j]);
      if "User" in p.vals[keys[j]] then Put(p, keys[j], ["User"]) else p
  {
    assert keys[..j + 1][..j] == keys[..j];
    assert forall k :: k in keys[..j + 1] ==> k in keys;
  }

  /** The closing loop of `parse_techniques`: a permission list holding 'User' becomes ['User']. */
  method KeepUserOnly(perm: Links) returns (r: Links)
    requires Valid(perm)
    ensures r == UserOnly(perm, perm.keys)
  {
    r := perm;
    var keys := perm.keys;
    var j := 0;
    while j < |keys|
      invariant 0 <= j <= |keys|
      invariant r == UserOnly(perm, keys[..j])
    {
      UserOnlySnoc(perm, keys, j);
      if "User" in r.vals[keys[j]] {
        r := Put(r, keys[j], ["User"]);
      }
      j := j + 1;
    }
    assert keys[..j] == keys;
  }

  /** The body of the loop of `parse_relationships` for one relationship: its six cases in
      the order of the source. */
  method ParseRelationshipTo(m: LinkMaps, ids: IdMaps, rel: Relationship) returns (r: LinkMaps)
    requires LinksValid(m)
    ensures r == LinkRelationship(m, ids, rel)
  {
    r := LinkCaseTo(m, ids, rel, Tech, Group);
    r := LinkCaseTo(r, ids, rel, Tech, Software);
    r := LinkCaseTo(r, ids, rel, Software, Group);
    r := LinkCaseTo(r, ids, rel, Software, Tech);
    r := LinkCaseTo(r, ids, rel, Group, Tech);
    r := LinkCaseTo(r, ids, rel, Group, Software);
  }

  /** The loop of `parse_relationships` over the relationships. */
  method LinkAllTo(m: LinkMaps, ids: IdMaps, relationships: seq<Relationship>) returns (r: LinkMaps)
    requires LinksValid(m)
    ensures r == LinkAll(m, ids, relationships)
  {
    r := m;
    var j := 0;
    while j < |relationships|
      invariant 0 <= j <= |relationships|
      invariant LinksValid(r)
      invariant r == LinkAll(m, ids, relationships[..j])
    {
      assert relationships[..j + 1][..j] == relationships[..j];
      r := ParseRelationshipTo(r, ids, relationships[j]);
      j := j + 1;
    }
    assert relationships[..j] == relationships;
  }

  class Tables {
    var techToId: map<string, string>
    var techToData: Links
    var techToTac: Links
    var techToPerm: Links
    var techToPlat: Links
    var techToDef: Links
    var techToSoftware: Links
    var techToGroup: Links
    var softwareToId: map<string, string>
    var softwareToTech: Links
    var softwareToGroup: Links
    var groupToId: map<string, string>
    var groupToTech: Links
    var groupToSoftware: Links
    var idToTech: map<string, string>
    var idToSoftware: map<string, string>
    var idToGroup: map<string, string>
    var tacticsToPermission: Counts

    /** The dicts `parse_techniques` fills. */
    function Techniques(): TechniqueMaps
      reads this`techToId, this`idToTech, this`techToData, this`techToTac, this`techToPerm, this`techToPlat, this`techToDef
    {
      TechniqueMaps(techToId, idToTech, techToData, techToTac, techToPerm, techToPlat, techToDef)
    }

    /** The dicts `parse_relationships` fills. */
    function LinkTables(): LinkMaps
      reads this`techToGroup, this`groupToTech, this`techToSoftware, this`softwareToTech, this`softwareToGroup, this`groupToSoftware
    {
      LinkMaps(techToGroup, groupToTech, techToSoftware, softwareToTech, softwareToGroup, groupToSoftware)
    }

    /** The dicts `parse_relationships` reads. */
    function Ids(): IdMaps
      reads this`idToTech, this`idToSoftware, this`idToGroup
    {
      IdMaps(idToTech, idToSoftware, idToGroup)
    }

    /** The technique dicts are well formed, and `tech_to_tac` and `tech_to_perm` have the
        same keys, as `parse_techniques` gives every technique an entry in both. */
    ghost predicate TechniquesConsistent()
      reads this`techToId, this`idToTech, this`techToData, this`techToTac, this`techToPerm, this`techToPlat, this`techToDef
    {
      MapsValid(Techniques()) && techToTac.vals.Keys == techToPerm.vals.Keys
    }

    /** The dicts as the script starts: all empty. */
    constructor ()
      ensures TechniquesConsistent() && LinksValid(LinkTables()) && CountsValid(tacticsToPermission)
      ensures Techniques() == TechniqueMaps(map[], map[], Empty(), Empty(), Empty(), Empty(), Empty())
      ensures LinkTables() == LinkMaps(Empty(), Empty(), Empty(), Empty(), Empty(), Empty())
      ensures softwareToId == map[] && idToSoftware == map[] && groupToId == map[] && idToGroup == map[]
      ensures tacticsToPermission == Empty()
    {
      techToId, idToTech := map[], map[];
      techToData, techToTac, techToPerm, techToPlat, techToDef := Empty(), Empty(), Empty(), Empty(), Empty();
      techToSoftware, techToGroup := Empty(), Empty();
      softwareToId, softwareToTech, softwareToGroup := map[], Empty(), Empty();
      groupToId, groupToTech, groupToSoftware := map[], Empty(), Empty();
      idToSoftware, idToGroup := map[], map[];
      tacticsToPermission := Empty();
    }

    // ----- parse_techniques -----

    /** `parse_techniques(techniques)`. */
    method ParseTechniques(techniques: seq<TechniqueRecord>)
      requires TechniquesConsistent()
      modifies this`techToId, this`idToTech, this`techToData, this`techToTac, this`techToPerm, this`techToPlat, this`techToDef
      ensures TechniquesConsistent()
      ensures Techniques() == ParsedTechniques(old(Techniques()), techniques)
    {
      var m := ParseAllTo(Techniques(), techniques);
      var perm := KeepUserOnly(m.perm);
      m := m.(perm := perm);
      ParsedTechniquesKeys(old(Techniques()), techniques);
      techToId, idToTech := m.techToId, m.idToTech;
      techToData, techToTac, techToPerm, techToPlat, techToDef := m.data, m.tac, m.perm, m.plat, m.def;
    }

    // ----- parse_software and parse_groups -----

    /** `parse_software(software_set)`. */
    method ParseSoftware(softwareSet: seq<NamedRecord>)
      modifies this`softwareToId, this`idToSoftware
      ensures (softwareToId, idToSoftware) == RecordNames(old(softwareToId), old(idToSoftware), softwareSet)
    {
      var j := 0;
      while j < |softwareSet|
        invariant 0 <= j <= |softwareSet|
        invariant (softwareToId, idToSoftware) == RecordNames(old(softwareToId), old(idToSoftware), softwareSet[..j])
      {
        assert softwareSet[..j + 1][..j] == softwareSet[..j];
        var name, curId := softwareSet[j].name, softwareSet[j].id;
        if name !in softwareToId {
          softwareToId := softwareToId[name := curId];
          idToSoftware := idToSoftware[curId := name];
        }
        j := j + 1;
      }
      assert softwareSet[..j] == softwareSet;
    }

    /** `parse_groups(group_set)`. */
    method ParseGroups(groupSet: seq<NamedRecord>)
      modifies this`groupToId, this`idToGroup
      ensures (groupToId, idToGroup) == RecordNames(old(groupToId), old(idToGroup), groupSet)
    {
      var j := 0;
      while j < |groupSet|
        invariant 0 <= j <= |groupSet|
        invariant (groupToId, idToGroup) == RecordNames(old(groupToId), old(idToGroup), groupSet[..j])
      {
        assert groupSet[..j + 1][..j] == groupSet[..j];
        var name, curId := groupSet[j].name, groupSet[j].id;
        if name !in groupToId {
          groupToId := groupToId[name := curId];
          idToGroup := idToGroup[curId := name];
        }
        j := j + 1;
      }
      assert groupSet[..j] == groupSet;
    }

    // ----- parse_relationships -----

    /** `parse_relationships(relationships)`. */
    method ParseRelationships(relationships: seq<Relationship>)
      requires LinksValid(LinkTables())
      modifies this`techToGroup, this`groupToTech, this`techToSoftware, this`softwareToTech, this`softwareToGroup, this`groupToSoftware
      ensures LinksValid(LinkTables())
      ensures LinkTables() == LinkAll(old(LinkTables()), Ids(), relationships)
    {
      var ids := Ids();
      var m := LinkAllTo(LinkTables(), ids, relationships);
      techToGroup, groupToTech := m.techToGroup, m.groupToTech;
      techToSoftware, softwareToTech := m.techToSoftware, m.softwareToTech;
      softwareToGroup, groupToSoftware := m.softwareToGroup, m.groupToSoftware;
      assert Ids() == ids;
      assert LinkTables() == m;
    }

    // ----- parse_tactics -----

    /** `parse_tactics()`: counts, per tactic and permission, the techniques listing both. */
    method ParseTactics()
      requires CountsValid(tacticsToPermission) && Valid(techToTac) && techToTac.vals.Keys == techToPerm.vals.Keys
      modifies this`tacticsToPermission
      ensures CountsValid(tacticsToPermission)
      ensures tacticsToPermission == CountAll(old(tacticsToPermission), techToTac.keys, techToTac, techToPerm)
    {
      var techs, tacOf, permOf := techToTac.keys, techToTac, techToPerm;
      var t := tacticsToPermission;
      var j := 0;
      while j < |techs|
        invariant 0 <= j <= |techs|
        invariant CountsValid(t)
        invariant t == CountAll(old(tacticsToPermission), techs[..j], tacOf, permOf)
      {
        assert techs[..j + 1][..j] == techs[..j];
        var tech := techs[j];
        t := CountTechnique(t, tacOf.vals[tech], permOf.vals[tech]);
        j := j + 1;
      }
      assert techs[..j] == techs;
      tacticsToPermission := t;
    }

  }
}
