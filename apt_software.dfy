/** The "APT3 + APT29 with software" layers (scripts/layers/samples/apt3_apt29_software.py):
    techniques used by APT3 and APT29, directly or through a piece of software they use,
    coloured by which of the two groups uses them. */
module AptSoftware {
  import opened Wrappers
  import opened StixData
  import opened Text
  import opened OrderedDict
  import opened LayerFormat

  const APT3_ID: string := "intrusion-set--0bbdf25b-30ff-4894-a1cd-49260d0dd2d9"
  const APT29_ID: string := "intrusion-set--899ce53f-13a0-479b-a0e4-67d46e241542"

  const UNDETECTABLE_RED: string := "#fc3b3b"
  const BOTH_GREEN: string := "#74c476"
  const APT3_BLUE: string := "#6baed6"
  const APT29_YELLOW: string := "#fce93b"

  /** One entry of `techniques_used`: which group uses the technique, the software through
      which it is used, and the technique's data sources. */
  datatype Usage = Usage(apt3: bool, apt29: bool, software: set<string>, datasources: seq<string>)

  /** The entry created the first time a technique ID is seen. */
  const NEW_USAGE: Usage := Usage(false, false, {}, [])

  /** The technique carries a non-empty `x_mitre_data_sources` list. */
  predicate HasDataSources(technique: StixObject)
  {
    technique.dataSources.Some? && |technique.dataSources.value| > 0
  }

  /** `techniques_used[techniqueID][apt["name"]] = True`: only the keys "APT3" and "APT29"
      are read later. The groups are assumed not to be named "software" or "datasources",
      whose entries the assignment would overwrite. */
  function SetFlag(u: Usage, groupName: string): Usage
  {
    if groupName == "APT3" then u.(apt3 := true)
    else if groupName == "APT29" then u.(apt29 := true)
    else u
  }

  /** `use_technique(technique, software)` for the group named `groupName`. */
  function UseTechnique(d: ODict<Usage>, groupName: string, technique: StixObject, software: Option<string>)
    : (r: Result<ODict<Usage>>)
    requires Valid(d)
    ensures r.Err? <==> technique.externalRefs == []
    ensures r.Ok? ==> Valid(r.value)
  {
    if technique.externalRefs == [] then Err(NoExternalReferences(technique.id))
    else
      var techniqueID := technique.externalRefs[0].externalId;
      var u := if techniqueID in d.vals then d.vals[techniqueID] else NEW_USAGE;
      var flagged := SetFlag(u, groupName);
      var sourced := if HasDataSources(technique) then flagged.(datasources := technique.dataSources.value) else flagged;
      var used := if software.Some? then sourced.(software := sourced.software + {software.value}) else sourced;
      Ok(Put(d, techniqueID, used))
  }

  /** A technique seen for the first time gets an entry at the end, starting from no flags,
      no software and no data sources; then the group's flag is set, the software (if any)
      is added, and the data sources are replaced only by a non-empty list. Other entries
      and the order of the existing ones are unchanged. */
  lemma UseTechniqueSpec(d: ODict<Usage>, groupName: string, technique: StixObject, software: Option<string>)
    requires Valid(d) && technique.externalRefs != []
    ensures
      var k := technique.externalRefs[0].externalId;
      var d' := UseTechnique(d, groupName, technique, software).value;
      && d'.keys == (if k in d.vals then d.keys else d.keys + [k])
      && (forall k' :: k' in d'.vals <==> k' in d.vals || k' == k)
      && (forall k' :: k' in d.vals && k' != k ==> d'.vals[k'] == d.vals[k'])
      && var before := if k in d.vals then d.vals[k] else NEW_USAGE;
         && d'.vals[k].apt3 == (before.apt3 || groupName == "APT3")
         && d'.vals[k].apt29 == (before.apt29 || groupName == "APT29")
         && d'.vals[k].software == before.software + (if software.Some? then {software.value} else {})
         && d'.vals[k].datasources == (if HasDataSources(technique) then technique.dataSources.value else before.datasources)
  {
  }

  /** One relationship of a software's walk: its target is looked up (a missing one crashes),
      a deprecated or revoked target is skipped, and a technique target is recorded as used
      through this software. */
  function SoftwareVisit(d: ODict<Usage>, groupName: string, software: StixObject, srel: Relationship, store: Store)
    : (r: Result<ODict<Usage>>)
    requires Valid(d)
    ensures r.Ok? ==> Valid(r.value)
  {
    var target := srel.targetRef;
    if target !in store then Err(MissingObject(target))
    else if DeprecatedOrRevoked(store[target]) then Ok(d)
    else if store[target].typ == "attack-pattern" then UseTechnique(d, groupName, store[target], Some(software.name))
    else Ok(d)
  }

  /** The inner loop: `techniques_used` after a software's relationships `srels`. */
  function SoftwareWalk(d: ODict<Usage>, groupName: string, software: StixObject, srels: seq<Relationship>, store: Store)
    : (r: Result<ODict<Usage>>)
    requires Valid(d)
    ensures r.Ok? ==> Valid(r.value)
    decreases |srels|
  {
    if srels == [] then Ok(d)
    else
      match SoftwareWalk(d, groupName, software, srels[..|srels| - 1], store)
      case Err(f) => Err(f)
      case Ok(d') => SoftwareVisit(d', groupName, software, srels[|srels| - 1], store)
  }

  /** One relationship of a group's walk: a technique target is recorded as used directly,
      and a malware or tool target has its own relationships walked. */
  function GroupVisit(d: ODict<Usage>, apt: StixObject, grel: Relationship, rels: seq<Relationship>, store: Store)
    : (r: Result<ODict<Usage>>)
    requires Valid(d)
    ensures r.Ok? ==> Valid(r.value)
  {
    var target := grel.targetRef;
    if target !in store then Err(MissingObject(target))
    else if DeprecatedOrRevoked(store[target]) then Ok(d)
    else if store[target].typ == "attack-pattern" then UseTechnique(d, apt.name, store[target], None)
    else if store[target].typ in ["malware", "tool"] then
      SoftwareWalk(d, apt.name, store[target], RelationshipsOf(rels, store[target].id), store)
    else Ok(d)
  }

  /** The middle loop: `techniques_used` after a group's relationships `grels`. */
  function GroupWalk(d: ODict<Usage>, apt: StixObject, grels: seq<Relationship>, rels: seq<Relationship>, store: Store)
    : (r: Result<ODict<Usage>>)
    requires Valid(d)
    ensures r.Ok? ==> Valid(r.value)
    decreases |grels|
  {
    if grels == [] then Ok(d)
    else
      match GroupWalk(d, apt, grels[..|grels| - 1], rels, store)
      case Err(f) => Err(f)
      case Ok(d') => GroupVisit(d', apt, grels[|grels| - 1], rels, store)
  }

  /** One group of the outer loop; a group missing from the store crashes the run when its
      turn comes. */
  function AptVisit(d: ODict<Usage>, id: string, rels: seq<Relationship>, store: Store): (r: Result<ODict<Usage>>)
    requires Valid(d)
    ensures r.Ok? ==> Valid(r.value)
  {
    if id !in store then Err(MissingObject(id))
    else GroupWalk(d, store[id], RelationshipsOf(rels, store[id].id), rels, store)
  }

  /** The outer loop over the groups `ids`. */
  function AptWalk(d: ODict<Usage>, ids: seq<string>, rels: seq<Relationship>, store: Store): (r: Result<ODict<Usage>>)
    requires Valid(d)
    ensures r.Ok? ==> Valid(r.value)
    decreases |ids|
  {
    if ids == [] then Ok(d)
    else
      match AptWalk(d, ids[..|ids| - 1], rels, store)
      case Err(f) => Err(f)
      case Ok(d') => AptVisit(d', ids[|ids| - 1], rels, store)
  }

  /** `techniques_used` after both groups have been walked. */
  function Traversal(rels: seq<Relationship>, store: Store): (r: Result<ODict<Usage>>)
    ensures r.Ok? ==> Valid(r.value)
  {
    AptWalk(Empty(), [APT3_ID, APT29_ID], rels, store)
  }

  /** An exception raised within the first `j` software relationships ends the inner loop. */
  lemma {:induction false} SoftwareWalkFailure(d: ODict<Usage>, groupName: string, software: StixObject, srels: seq<Relationship>,
                                               store: Store, j: nat)
    requires Valid(d) && j <= |srels| && SoftwareWalk(d, groupName, software, srels[..j], store).Err?
    ensures SoftwareWalk(d, groupName, software, srels, store) == SoftwareWalk(d, groupName, software, srels[..j], store)
    decreases |srels| - j
  {
    if j < |srels| {
      var init := srels[..|srels| - 1];
      assert init[..j] == srels[..j];
      SoftwareWalkFailure(d, groupName, software, init, store, j);
    } else {
      assert srels[..j] == srels;
    }
  }

  lemma {:induction false} GroupWalkFailure(d: ODict<Usage>, apt: StixObject, grels: seq<Relationship>, rels: seq<Relationship>,
                                            store: Store, j: nat)
    requires Valid(d) && j <= |grels| && GroupWalk(d, apt, grels[..j], rels, store).Err?
    ensures GroupWalk(d, apt, grels, rels, store) == GroupWalk(d, apt, grels[..j], rels, store)
    decreases |grels| - j
  {
    if j < |grels| {
      var init := grels[..|grels| - 1];
      assert init[..j] == grels[..j];
      GroupWalkFailure(d, apt, init, rels, store, j);
    } else {
      assert grels[..j] == grels;
    }
  }

  lemma {:induction false} AptWalkFailure(d: ODict<Usage>, ids: seq<string>, rels: seq<Relationship>, store: Store, j: nat)
    requires Valid(d) && j <= |ids| && AptWalk(d, ids[..j], rels, store).Err?
    ensures AptWalk(d, ids, rels, store) == AptWalk(d, ids[..j], rels, store)
    decreases |ids| - j
  {
    if j < |ids| {
      var init := ids[..|ids| - 1];
      assert init[..j] == ids[..j];
      AptWalkFailure(d, init, rels, store, j);
    } else {
      assert ids[..j] == ids;
    }
  }

  /** The body of the inner loop for one relationship of the software. */
  method VisitSoftwareRelationship(d: ODict<Usage>, groupName: string, software: StixObject, srel: Relationship, store: Store)
    returns (res: Result<ODict<Usage>>)
    requires Valid(d)
    ensures res == SoftwareVisit(d, groupName, software, srel, store)
  {
    var target := srel.targetRef;
    res := Ok(d);
    if target !in store {
      res := Err(MissingObject(target));
    } else {
      var targetObj := store[target];
      if !(Truthy(targetObj.deprecated) || Truthy(targetObj.revoked)) && targetObj.typ == "attack-pattern" {
        res := UseTechnique(d, groupName, targetObj, Some(software.name));
      }
    }
  }

  /** The inner loop over a software's relationships. */
  method TraverseSoftware(used: ODict<Usage>, groupName: string, software: StixObject, rels: seq<Relationship>, store: Store)
    returns (r: Result<ODict<Usage>>)
    requires Valid(used)
    ensures r == SoftwareWalk(used, groupName, software, RelationshipsOf(rels, software.id), store)
  {
    var srels := RelationshipsOf(rels, software.id);
    var d := used;
    var j := 0;
    while j < |srels|
      invariant 0 <= j <= |srels|
      invariant Valid(d)
      invariant SoftwareWalk(used, groupName, software, srels[..j], store) == Ok(d)
    {
      assert srels[..j + 1][..j] == srels[..j];
      var res := VisitSoftwareRelationship(d, groupName, software, srels[j], store);
      assert SoftwareWalk(used, groupName, software, srels[..j + 1], store) == res;
      if res.Err? {
        SoftwareWalkFailure(used, groupName, software, srels, store, j + 1);
        return res;
      }
      d := res.value;
      j := j + 1;
    }
    assert srels[..j] == srels;
    r := Ok(d);
  }

  /** The body of the middle loop for one relationship of the group. */
  method VisitGroupRelationship(d: ODict<Usage>, apt: StixObject, grel: Relationship, rels: seq<Relationship>, store: Store)
    returns (res: Result<ODict<Usage>>)
    requires Valid(d)
    ensures res == GroupVisit(d, apt, grel, rels, store)
  {
    var target := grel.targetRef;
    if target !in store {
      return Err(MissingObject(target));
    }
    var targetObj := store[target];
    res := Ok(d);
    if Truthy(targetObj.deprecated) || Truthy(targetObj.revoked) {
      return;
    }
    if targetObj.typ == "attack-pattern" {
      res := UseTechnique(d, apt.name, targetObj, None);
    }
    if targetObj.typ in ["malware", "tool"] {
      res := TraverseSoftware(d, apt.name, targetObj, rels, store);
    }
  }

  /** The middle loop over one group's relationships. */
  method TraverseGroup(used: ODict<Usage>, apt: StixObject, rels: seq<Relationship>, store: Store)
    returns (r: Result<ODict<Usage>>)
    requires Valid(used)
    ensures r == GroupWalk(used, apt, RelationshipsOf(rels, apt.id), rels, store)
  {
    var grels := RelationshipsOf(rels, apt.id);
    var d := used;
    var j := 0;
    while j < |grels|
      invariant 0 <= j <= |grels|
      invariant Valid(d)
      invariant GroupWalk(used, apt, grels[..j], rels, store) == Ok(d)
    {
      assert grels[..j + 1][..j] == grels[..j];
      var res := VisitGroupRelationship(d, apt, grels[j], rels, store);
      assert GroupWalk(used, apt, grels[..j + 1], rels, store) == res;
      if res.Err? {
        GroupWalkFailure(used, apt, grels, rels, store, j + 1);
        return res;
      }
      d := res.value;
      j := j + 1;
    }
    assert grels[..j] == grels;
    r := Ok(d);
  }

  /** The outer loop over the groups `ids`, each looked up in the store. */
  method TraverseGroups(ids: seq<string>, rels: seq<Relationship>, store: Store) returns (r: Result<ODict<Usage>>)
    ensures r == AptWalk(Empty(), ids, rels, store)
  {
    var d: ODict<Usage> := Empty();
    var i := 0;
    while i < |ids|
      invariant 0 <= i <= |ids|
      invariant Valid(d)
      invariant AptWalk(Empty(), ids[..i], rels, store) == Ok(d)
    {
      assert ids[..i + 1][..i] == ids[..i];
      var res: Result<ODict<Usage>>;
      if ids[i] !in store {
        res := Err(MissingObject(ids[i]));
      } else {
        res := TraverseGroup(d, store[ids[i]], rels, store);
      }
      assert AptWalk(Empty(), ids[..i + 1], rels, store) == res;
      if res.Err? {
        AptWalkFailure(Empty(), ids, rels, store, i + 1);
        return res;
      }
      d := res.value;
      i := i + 1;
    }
    assert ids[..i] == ids;
    r := Ok(d);
  }

  /** The walk of `generate` over `[apt3, apt29]`, the two groups looked up by their fixed IDs. */
  method Traverse(rels: seq<Relationship>, store: Store) returns (r: Result<ODict<Usage>>)
    ensures r == Traversal(rels, store)
  {
    r := TraverseGroups([APT3_ID, APT29_ID], rels, store);
  }

  // ----- What the walk keeps -----

  /** The names the colour and comment code reads back as group flags. */
  predicate IsGroupFlagName(name: string)
  {
    name == "APT3" || name == "APT29"
  }

  /** `k` is the first external ID of a live technique in the store. */
  predicate LiveTechniqueId(store: Store, k: string)
  {
    exists id :: id in store && IsLiveTechnique(store[id]) && store[id].externalRefs[0].externalId == k
  }

  predicate IsLiveTechnique(t: StixObject)
  {
    t.typ == "attack-pattern" && !DeprecatedOrRevoked(t) && t.externalRefs != []
  }

  /** Every entry is used by at least one of the two groups. */
  predicate AllFlagged(d: ODict<Usage>)
  {
    forall k :: k in d.vals ==> d.vals[k].apt3 || d.vals[k].apt29
  }

  predicate KeysLive(d: ODict<Usage>, store: Store)
  {
    forall k :: k in d.vals ==> LiveTechniqueId(store, k)
  }

  /** `d'` grows out of `d`: existing entries keep their place, flags are never reset, software
      is never removed and non-empty data sources stay non-empty; with `flagged`, entries that
      all carry a group flag still do; entries that are all live technique IDs still are. */
  predicate Keeps(d: ODict<Usage>, d': ODict<Usage>, flagged: bool, store: Store)
  {
    && d.keys <= d'.keys
    && (forall k :: k in d.vals ==>
          && k in d'.vals
          && (d.vals[k].apt3 ==> d'.vals[k].apt3)
          && (d.vals[k].apt29 ==> d'.vals[k].apt29)
          && d.vals[k].software <= d'.vals[k].software
          && (d.vals[k].datasources != [] ==> d'.vals[k].datasources != []))
    && (flagged && AllFlagged(d) ==> AllFlagged(d'))
    && (KeysLive(d, store) ==> KeysLive(d', store))
  }

  lemma KeepsTrans(a: ODict<Usage>, b: ODict<Usage>, c: ODict<Usage>, flagged: bool, store: Store)
    requires Keeps(a, b, flagged, store) && Keeps(b, c, flagged, store)
    ensures Keeps(a, c, flagged, store)
  {
    assert a.keys <= c.keys by {
      assert c.keys[..|a.keys|] == b.keys[..|b.keys|][..|a.keys|];
    }
  }

  /** Recording a live technique from the store keeps the dict growing as `Keeps` says. */
  lemma UseTechniqueKeeps(d: ODict<Usage>, groupName: string, id: string, software: Option<string>, store: Store)
    requires Valid(d) && id in store && IsLiveTechnique(store[id])
    ensures UseTechnique(d, groupName, store[id], software).Ok?
    ensures Keeps(d, UseTechnique(d, groupName, store[id], software).value, IsGroupFlagName(groupName), store)
  {
    var technique := store[id];
    var k := technique.externalRefs[0].externalId;
    var d' := UseTechnique(d, groupName, technique, software).value;
    UseTechniqueSpec(d, groupName, technique, software);
    assert d.keys <= d'.keys by {
      if k !in d.vals { assert d.keys <= d.keys + [k]; }
    }
    forall k' | k' in d.vals
      ensures k' in d'.vals && (d.vals[k'].apt3 ==> d'.vals[k'].apt3) && (d.vals[k'].apt29 ==> d'.vals[k'].apt29)
      ensures d.vals[k'].software <= d'.vals[k'].software
      ensures d.vals[k'].datasources != [] ==> d'.vals[k'].datasources != []
    {
      if k' != k { assert d'.vals[k'] == d.vals[k']; }
    }
    if IsGroupFlagName(groupName) && AllFlagged(d) {
      forall k' | k' in d'.vals ensures d'.vals[k'].apt3 || d'.vals[k'].apt29 {
        if k' != k { assert d'.vals[k'] == d.vals[k']; }
      }
    }
    if KeysLive(d, store) {
      forall k' | k' in d'.vals ensures LiveTechniqueId(store, k') {
        if k' == k { assert id in store && IsLiveTechnique(store[id]); }
      }
    }
  }

  lemma SoftwareVisitKeeps(d: ODict<Usage>, groupName: string, software: StixObject, srel: Relationship, store: Store)
    requires Valid(d)
    ensures var r := SoftwareVisit(d, groupName, software, srel, store);
      r.Ok? ==> Keeps(d, r.value, IsGroupFlagName(groupName), store)
  {
    var target := srel.targetRef;
    if target in store && !DeprecatedOrRevoked(store[target]) && store[target].typ == "attack-pattern"
      && store[target].externalRefs != []
    {
      UseTechniqueKeeps(d, groupName, target, Some(software.name), store);
    }
  }

  lemma {:induction false} SoftwareWalkKeeps(d: ODict<Usage>, groupName: string, software: StixObject, srels: seq<Relationship>, store: Store)
    requires Valid(d)
    ensures var r := SoftwareWalk(d, groupName, software, srels, store);
      r.Ok? ==> Keeps(d, r.value, IsGroupFlagName(groupName), store)
    decreases |srels|
  {
    if srels != [] {
      var init := srels[..|srels| - 1];
      SoftwareWalkKeeps(d, groupName, software, init, store);
      match SoftwareWalk(d, groupName, software, init, store)
      case Err(_) =>
      case Ok(d') =>
        SoftwareVisitKeeps(d', groupName, software, srels[|srels| - 1], store);
        var r := SoftwareVisit(d', groupName, software, srels[|srels| - 1], store);
        if r.Ok? {
          KeepsTrans(d, d', r.value, IsGroupFlagName(groupName), store);
        }
    }
  }

  lemma GroupVisitKeeps(d: ODict<Usage>, apt: StixObject, grel: Relationship, rels: seq<Relationship>, store: Store)
    requires Valid(d)
    ensures var r := GroupVisit(d, apt, grel, rels, store);
      r.Ok? ==> Keeps(d, r.value, IsGroupFlagName(apt.name), store)
  {
    var target := grel.targetRef;
    if target in store && !DeprecatedOrRevoked(store[target]) {
      if store[target].typ == "attack-pattern" {
        if store[target].externalRefs != [] {
          UseTechniqueKeeps(d, apt.name, target, None, store);
        }
      } else if store[target].typ in ["malware", "tool"] {
        SoftwareWalkKeeps(d, apt.name, store[target], RelationshipsOf(rels, store[target].id), store);
      }
    }
  }

  lemma {:induction false} GroupWalkKeeps(d: ODict<Usage>, apt: StixObject, grels: seq<Relationship>, rels: seq<Relationship>, store: Store)
    requires Valid(d)
    ensures var r := GroupWalk(d, apt, grels, rels, store);
      r.Ok? ==> Keeps(d, r.value, IsGroupFlagName(apt.name), store)
    decreases |grels|
  {
    if grels != [] {
      var init := grels[..|grels| - 1];
      GroupWalkKeeps(d, apt, init, rels, store);
      match GroupWalk(d, apt, init, rels, store)
      case Err(_) =>
      case Ok(d') =>
        GroupVisitKeeps(d', apt, grels[|grels| - 1], rels, store);
        var r := GroupVisit(d', apt, grels[|grels| - 1], rels, store);
        if r.Ok? {
          KeepsTrans(d, d', r.value, IsGroupFlagName(apt.name), store);
        }
    }
  }

  /** Every group of `ids` found in the store carries one of the two flag names. */
  predicate FlagNamed(ids: seq<string>, store: Store)
  {
    forall i :: 0 <= i < |ids| && ids[i] in store ==> IsGroupFlagName(store[ids[i]].name)
  }

  lemma {:induction false} AptWalkKeeps(d: ODict<Usage>, ids: seq<string>, rels: seq<Relationship>, store: Store)
    requires Valid(d)
    ensures var r := AptWalk(d, ids, rels, store);
      r.Ok? ==> Keeps(d, r.value, FlagNamed(ids, store), store)
    decreases |ids|
  {
    if ids != [] {
      var init, id := ids[..|ids| - 1], ids[|ids| - 1];
      AptWalkKeeps(d, init, rels, store);
      match AptWalk(d, init, rels, store)
      case Err(_) =>
      case Ok(d') =>
        var r := AptVisit(d', id, rels, store);
        if r.Ok? {
          GroupWalkKeeps(d', store[id], RelationshipsOf(rels, store[id].id), rels, store);
          var flagged := FlagNamed(ids, store);
          if flagged {
            assert FlagNamed(init, store) by {
              forall i | 0 <= i < |init| && init[i] in store ensures IsGroupFlagName(store[init[i]].name) {
                assert init[i] == ids[i];
              }
            }
            assert IsGroupFlagName(store[id].name) by {
              assert ids[|ids| - 1] == id;
            }
          }
          KeepsTrans(d, d', r.value, flagged, store);
        }
    }
  }

  /** When the two fixed IDs name the groups "APT3" and "APT29", every technique the walk
      records is the first external ID of a live technique in the store and is used by at
      least one of the two groups. */
  lemma TraversalEntries(rels: seq<Relationship>, store: Store)
    requires APT3_ID in store ==> store[APT3_ID].name == "APT3"
    requires APT29_ID in store ==> store[APT29_ID].name == "APT29"
    ensures Traversal(rels, store).Ok? ==>
      var d := Traversal(rels, store).value;
      && (forall k :: k in d.vals ==> d.vals[k].apt3 || d.vals[k].apt29)
      && (forall k :: k in d.vals ==> LiveTechniqueId(store, k))
  {
    var ids := [APT3_ID, APT29_ID];
    AptWalkKeeps(Empty(), ids, rels, store);
    assert FlagNamed(ids, store) by {
      forall i | 0 <= i < |ids| && ids[i] in store ensures IsGroupFlagName(store[ids[i]].name) {
        if i == 0 { assert ids[i] == APT3_ID; } else { assert ids[i] == APT29_ID; }
      }
    }
  }

  // ----- The layer -----

  /** `color_lookup(usage)`: red for an undetectable technique when detectability is shown,
      then green, blue or yellow by which groups use it; `None` (JSON `null`) otherwise. */
  function ColorLookup(u: Usage, showNodetect: bool): (r: Option<string>)
    ensures showNodetect && u.datasources == [] ==> r == Some(UNDETECTABLE_RED)
    ensures !(showNodetect && u.datasources == []) ==>
      && (r == Some(BOTH_GREEN) <==> u.apt3 && u.apt29)
      && (r == Some(APT3_BLUE) <==> u.apt3 && !u.apt29)
      && (r == Some(APT29_YELLOW) <==> !u.apt3 && u.apt29)
      && (r.None? <==> !u.apt3 && !u.apt29)
  {
    if showNodetect && |u.datasources| <= 0 then Some(UNDETECTABLE_RED)
    else if u.apt3 && u.apt29 then Some(BOTH_GREEN)
    else if u.apt3 then Some(APT3_BLUE)
    else if u.apt29 then Some(APT29_YELLOW)
    else None
  }

  /** The `used` list of a comment: the flagged groups, then the software in the order
      `softwareOrder` in which the set was enumerated. */
  function UsedBy(u: Usage, softwareOrder: seq<string>): (r: seq<string>)
    ensures forall x :: x in r <==> (u.apt3 && x == "APT3") || (u.apt29 && x == "APT29") || x in softwareOrder
    ensures |r| == (if u.apt3 then 1 else 0) + (if u.apt29 then 1 else 0) + |softwareOrder|
    ensures u.apt3 ==> r[0] == "APT3"
    ensures u.apt29 ==> r[if u.apt3 then 1 else 0] == "APT29"
    ensures r[|r| - |softwareOrder|..] == softwareOrder
  {
    (if u.apt3 then ["APT3"] else []) + (if u.apt29 then ["APT29"] else []) + softwareOrder
  }

  const DETECTABLE_PREFIX: string := "considered detectable by a notional organization because it has data-sources "
  const UNDETECTABLE_COMMENT: string := "considered undetectable by a notional organization because it has no data-sources"

  /** A technique's comment, with the software set enumerated as `softwareOrder`. */
  function Comment(u: Usage, showNodetect: bool, softwareOrder: seq<string>): (r: string)
    ensures showNodetect && |u.datasources| == 0 ==> r == UNDETECTABLE_COMMENT
    ensures showNodetect && |u.datasources| > 0 ==> r == DETECTABLE_PREFIX + Join(", ", u.datasources)
    ensures !showNodetect ==> |r| >= 8 && r[..8] == "used by " && r[8..] == Join(", ", UsedBy(u, softwareOrder))
  {
    if showNodetect then
      if |u.datasources| > 0 then DETECTABLE_PREFIX + Join(", ", u.datasources)
      else UNDETECTABLE_COMMENT
    else
      var names := Join(", ", UsedBy(u, softwareOrder));
      assert ("used by " + names)[..8] == "used by " && ("used by " + names)[8..] == names;
      "used by " + names
  }

  /** `c` is the comment of `u` for some enumeration order of its software set. */
  ghost predicate IsComment(c: string, u: Usage, showNodetect: bool)
  {
    exists order :: multiset(order) == multiset(u.software) && c == Comment(u, showNodetect, order)
  }

  /** `list(s)`: the elements of a set, each once, in an order left to the implementation. */
  method Enumerate(s: set<string>) returns (r: seq<string>)
    ensures multiset(r) == multiset(s)
  {
    r := [];
    var rest := s;
    while rest != {}
      invariant rest <= s
      invariant multiset(r) + multiset(rest) == multiset(s)
      decreases |rest|
    {
      var x :| x in rest;
      assert multiset(rest) == multiset(rest - {x}) + multiset{x};
      r := r + [x];
      rest := rest - {x};
    }
  }

  datatype AptEntry = AptEntry(techniqueID: string, color: Option<string>, comment: string)

  datatype AptLayer = AptLayer(
    name: string,
    versions: Versions,
    description: string,
    domain: string,
    techniques: seq<AptEntry>,
    legendItems: seq<LegendItem>)

  /** The layer entry for technique `k` with usage `u`. */
  ghost predicate EntryFor(e: AptEntry, k: string, u: Usage, showNodetect: bool)
  {
    && e.techniqueID == k
    && e.color == ColorLookup(u, showNodetect)
    && IsComment(e.comment, u, showNodetect)
  }

  /** The body of the loop over `techniques_used`: the entry of technique `k`, its comment
      listing the software in the order the set is enumerated. */
  method RenderEntry(k: string, u: Usage, showNodetect: bool) returns (entry: AptEntry)
    ensures EntryFor(entry, k, u, showNodetect)
  {
    var order := Enumerate(u.software);
    var comment := Comment(u, showNodetect, order);
    entry := AptEntry(k, ColorLookup(u, showNodetect), comment);
  }

  /** The loop building `techniques_list`, one entry per technique in first-seen order. */
  method RenderTechniques(d: ODict<Usage>, showNodetect: bool) returns (techniques: seq<AptEntry>)
    requires Valid(d)
    ensures |techniques| == |d.keys|
    ensures forall i :: 0 <= i < |d.keys| ==> EntryFor(techniques[i], d.keys[i], d.vals[d.keys[i]], showNodetect)
  {
    techniques := [];
    var j := 0;
    while j < |d.keys|
      invariant 0 <= j <= |d.keys|
      invariant |techniques| == j
      invariant forall i :: 0 <= i < j ==> EntryFor(techniques[i], d.keys[i], d.vals[d.keys[i]], showNodetect)
    {
      var k := d.keys[j];
      var entry := RenderEntry(k, d.vals[k], showNodetect);
      techniques := techniques + [entry];
      j := j + 1;
    }
  }

  const APT3_LABEL: string := "Used by APT3 or a software APT3 uses"
  const APT29_LABEL: string := "Used by APT29 or a software APT29 uses"
  const BOTH_LABEL: string := "Used by both APT3 or a softare APT3 uses and APT29 or a software APT29 uses"
  const UNDETECTABLE_LABEL: string := "Used by either APT3 or APT29 but considered undetectable by a notional organization because it has no data-sources"

  /** The legend: its colours come from `color_lookup` on fixed usages, so the three group
      items are blue, yellow and green, and the detectability item is red. */
  function Legend(showNodetect: bool): (r: seq<LegendItem>)
    ensures |r| == if showNodetect then 4 else 3
    ensures r[0] == LegendItem(APT3_LABEL, APT3_BLUE)
    ensures r[1] == LegendItem(APT29_LABEL, APT29_YELLOW)
    ensures r[2] == LegendItem(BOTH_LABEL, BOTH_GREEN)
    ensures showNodetect ==> r[3] == LegendItem(UNDETECTABLE_LABEL, UNDETECTABLE_RED)
  {
    var items := [
      LegendItem(APT3_LABEL, ColorLookup(Usage(true, false, {}, ["placeholder"]), showNodetect).value),
      LegendItem(APT29_LABEL, ColorLookup(Usage(false, true, {}, ["placeholder"]), showNodetect).value),
      LegendItem(BOTH_LABEL, ColorLookup(Usage(true, true, {}, ["placeholder"]), showNodetect).value)];
    if showNodetect then items + [LegendItem(UNDETECTABLE_LABEL, ColorLookup(Usage(true, true, {}, []), showNodetect).value)]
    else items
  }

  const BASE_NAME: string := "APT3 + APT29 with software"
  const NODETECT_NAME_SUFFIX: string := " and notional no detection"
  const BASE_DESCRIPTION: string := "This layer shows techniques (including techniques from software used by the groups) used by APT3 only in blue, APT29 only in yellow, and both APT3 and APT29 in green."
  const NODETECT_DESCRIPTION_SUFFIX: string := " The techniques in red denote techniques considered undetectable by a notional organization because they have no data-sources. Disclaimer: Data-sources in ATT&CK are sources of information that COULD be used to identify adversary actions, however the exactness of that evidence varies greatly. Therefore the presence of a data source for technique should only be considered a potential metric for detectability."

  /** The two layers `generate` can produce carry different names, both starting with the base name. */
  function LayerName(showNodetect: bool): (r: string)
    ensures BASE_NAME <= r
    ensures r == BASE_NAME <==> !showNodetect
  {
    if showNodetect then BASE_NAME + NODETECT_NAME_SUFFIX else BASE_NAME
  }

  function Description(showNodetect: bool): (r: string)
    ensures BASE_DESCRIPTION <= r
    ensures r == BASE_DESCRIPTION <==> !showNodetect
  {
    if showNodetect then BASE_DESCRIPTION + NODETECT_DESCRIPTION_SUFFIX else BASE_DESCRIPTION
  }

  /** `generate(show_nodetect)`: the walk over both groups, then the layer, or the exception
      the walk raised. */
  method Generate(showNodetect: bool, rels: seq<Relationship>, store: Store) returns (r: Result<AptLayer>)
    ensures r.Err? <==> Traversal(rels, store).Err?
    ensures r.Err? ==> r.failure == Traversal(rels, store).failure
    ensures r.Ok? ==>
      var d := Traversal(rels, store).value;
      && r.value.name == LayerName(showNodetect)
      && r.value.versions == LAYER_VERSIONS
      && r.value.description == Description(showNodetect)
      && r.value.domain == ENTERPRISE_DOMAIN
      && r.value.legendItems == Legend(showNodetect)
      && |r.value.techniques| == |d.keys|
      && forall i :: 0 <= i < |d.keys| ==> EntryFor(r.value.techniques[i], d.keys[i], d.vals[d.keys[i]], showNodetect)
  {
    var used := Traverse(rels, store);
    if used.Err? {
      return Err(used.failure);
    }
    var techniques := RenderTechniques(used.value, showNodetect);
    r := Ok(AptLayer(LayerName(showNodetect), LAYER_VERSIONS, Description(showNodetect), ENTERPRISE_DOMAIN,
                     techniques, Legend(showNodetect)));
  }

  /** When the fixed IDs name "APT3" and "APT29", every technique of the layer gets a colour. */
  lemma TraversalColoured(rels: seq<Relationship>, store: Store, showNodetect: bool)
    requires APT3_ID in store ==> store[APT3_ID].name == "APT3"
    requires APT29_ID in store ==> store[APT29_ID].name == "APT29"
    ensures Traversal(rels, store).Ok? ==>
      var d := Traversal(rels, store).value;
      forall k :: k in d.vals ==> ColorLookup(d.vals[k], showNodetect).Some?
  {
    TraversalEntries(rels, store);
  }
}
