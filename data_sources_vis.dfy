/** The relationship tables of scripts/techniques_data_sources_vis.py: module-level dicts
    linking techniques, software, groups, tactics, permissions and data sources, filled from
    STIX records and written out as CSV lines. */
module DataSourcesVis {
  import opened Wrappers
  import opened StixData
  import opened Text
  import opened OrderedDict
  import opened Seqs

  /** A dict from a name to a list of names (`tech_to_tac`, `software_to_group`, ...). */
  type Links = ODict<seq<string>>

  // ----- Records read from the STIX data -----

  /** One entry of `kill_chain_phases`; `phase_name` may be absent. */
  datatype KillChainPhase = KillChainPhase(phaseName: Option<string>)

  /** The fields of an attack-pattern that `parse_techniques` reads; `None` is an absent key. */
  datatype TechniqueRecord = TechniqueRecord(
    name: string,
    id: Option<string>,
    killChainPhases: Option<seq<KillChainPhase>>,
    platforms: Option<seq<string>>,
    dataSources: Option<seq<string>>,
    defenseBypassed: Option<seq<string>>,
    permissionsRequired: Option<seq<string>>)

  /** A software or group object: only its `name` and `id` are read. */
  datatype NamedRecord = NamedRecord(name: string, id: string)

  // ----- Lists without repeats -----

  /** `for x in xs: if x not in l: l.append(x)`. */
  function ExtendUnique(l: seq<string>, xs: seq<string>): (r: seq<string>)
    ensures l <= r
    ensures forall x :: x in r <==> x in l || x in xs
    ensures Distinct(l) ==> Distinct(r)
    decreases |xs|
  {
    if xs == [] then l
    else
      var r' := ExtendUnique(l, xs[..|xs| - 1]);
      var x := xs[|xs| - 1];
      assert xs == xs[..|xs| - 1] + [x];
      if x in r' then r' else r' + [x]
  }

  /** Extending by a concatenation extends by each part in turn. */
  lemma {:induction false} ExtendUniqueConcat(l: seq<string>, a: seq<string>, b: seq<string>)
    ensures ExtendUnique(l, a + b) == ExtendUnique(ExtendUnique(l, a), b)
    decreases |b|
  {
    if b == [] {
      assert a + b == a;
    } else {
      var init, last := b[..|b| - 1], b[|b| - 1];
      assert (a + b)[..|a + b| - 1] == a + init && (a + b)[|a + b| - 1] == last;
      ExtendUniqueConcat(l, a, init);
    }
  }

  /** Extending a list free of repeats gives the first-appearance order of the list followed
      by the new values: new values are appended in the order they are first met. */
  lemma {:induction false} ExtendUniqueDedup(l: seq<string>, xs: seq<string>)
    requires Distinct(l)
    ensures ExtendUnique(l, xs) == Dedup(l + xs)
    decreases |xs|
  {
    if xs == [] {
      assert l + xs == l;
      DedupDistinct(l);
    } else {
      var init, last := xs[..|xs| - 1], xs[|xs| - 1];
      ExtendUniqueDedup(l, init);
      assert l + xs == (l + init) + [last];
      DedupSnoc(l + init, last);
    }
  }

  /** The `phase_name` of each phase that has one. */
  function PhaseNames(phases: seq<KillChainPhase>): (r: seq<string>)
    ensures forall x :: x in r <==> exists i :: 0 <= i < |phases| && phases[i].phaseName == Some(x)
    decreases |phases|
  {
    if phases == [] then []
    else
      var init, last := phases[..|phases| - 1], phases[|phases| - 1];
      assert forall i :: 0 <= i < |init| ==> init[i] == phases[i];
      PhaseNames(init) + if last.phaseName.Some? then [last.phaseName.value] else []
  }

  /** The names of a concatenation are the names of each part. */
  lemma {:induction false} PhaseNamesConcat(a: seq<KillChainPhase>, b: seq<KillChainPhase>)
    ensures PhaseNames(a + b) == PhaseNames(a) + PhaseNames(b)
    decreases |b|
  {
    if b == [] {
      assert a + b == a;
    } else {
      var init, last := b[..|b| - 1], b[|b| - 1];
      assert (a + b)[..|a + b| - 1] == a + init && (a + b)[|a + b| - 1] == last;
      PhaseNamesConcat(a, init);
    }
  }

  /** The values of an optional list field, `[]` when the key is absent. */
  function Listed(field: Option<seq<string>>): seq<string>
  {
    if field.Some? then field.value else []
  }

  /** The inner `if x not in l: l.append(x)` loops of `parse_techniques`. */
  method AddMissing(l: seq<string>, xs: seq<string>) returns (r: seq<string>)
    ensures r == ExtendUnique(l, xs)
  {
    r := l;
    var j := 0;
    while j < |xs|
      invariant 0 <= j <= |xs|
      invariant r == ExtendUnique(l, xs[..j])
    {
      assert xs[..j + 1][..j] == xs[..j];
      if xs[j] !in r {
        r := r + [xs[j]];
      }
      j := j + 1;
    }
    assert xs[..j] == xs;
  }

  /** The loop over `kill_chain_phases`, skipping phases without a `phase_name`. */
  method AddPhases(l: seq<string>, phases: seq<KillChainPhase>) returns (r: seq<string>)
    ensures r == ExtendUnique(l, PhaseNames(phases))
  {
    r := l;
    var j := 0;
    while j < |phases|
      invariant 0 <= j <= |phases|
      invariant r == ExtendUnique(l, PhaseNames(phases[..j]))
    {
      assert phases[..j + 1][..j] == phases[..j];
      if phases[j].phaseName.Some? {
        var tac := phases[j].phaseName.value;
        assert PhaseNames(phases[..j + 1]) == PhaseNames(phases[..j]) + [tac];
        if tac !in r {
          r := r + [tac];
        }
      } else {
        assert PhaseNames(phases[..j + 1]) == PhaseNames(phases[..j]) + [];
        assert PhaseNames(phases[..j]) + [] == PhaseNames(phases[..j]);
      }
      j := j + 1;
    }
    assert phases[..j] == phases;
  }

  // ----- add_link -----

  /** Every list of the dict is free of repeats. */
  predicate NoDupLists(d: Links)
  {
    forall k :: k in d.vals ==> Distinct(d.vals[k])
  }

  /** `b` lists `x` under `y` exactly when `a` lists `y` under `x`. */
  ghost predicate Symmetric(a: Links, b: Links)
  {
    forall x, y :: y in ListAt(a, x) <==> x in ListAt(b, y)
  }

  /** One side of `add_link`: `x` gets a list if it has none (at the end of the key order),
      and the list gains `y` unless it already holds it. */
  function LinkSide(d: Links, x: string, y: string): (r: Links)
    requires Valid(d)
    ensures Valid(r)
    ensures r.keys == if x in d.vals then d.keys else d.keys + [x]
    ensures r.vals.Keys == d.vals.Keys + {x}
    ensures forall k :: k in d.vals && k != x ==> r.vals[k] == d.vals[k]
    ensures forall z :: z in r.vals[x] <==> z in ListAt(d, x) || z == y
    ensures Distinct(ListAt(d, x)) ==> Distinct(r.vals[x])
  {
    var l := ListAt(d, x);
    Put(d, x, if y in l then l else l + [y])
  }

  /** `add_link(alpha, beta, alpha_dict, beta_dict)`, returning both dicts. The two dicts
      are distinct at every call, so the source's four steps (create both lists, then append
      to each) amount to one `LinkSide` on each dict. */
  function AddLink(alpha: string, beta: string, alphaDict: Links, betaDict: Links): (r: (Links, Links))
    requires Valid(alphaDict) && Valid(betaDict)
    ensures Valid(r.0) && Valid(r.1)
  {
    (LinkSide(alphaDict, alpha, beta), LinkSide(betaDict, beta, alpha))
  }

  /** After `add_link` both keys exist and each lists the other. */
  lemma AddLinkLinks(alpha: string, beta: string, alphaDict: Links, betaDict: Links)
    requires Valid(alphaDict) && Valid(betaDict)
    ensures var r := AddLink(alpha, beta, alphaDict, betaDict);
      alpha in r.0.vals && beta in r.1.vals && beta in r.0.vals[alpha] && alpha in r.1.vals[beta]
  {
  }

  lemma LinkSideIdempotent(d: Links, x: string, y: string)
    requires Valid(d)
    ensures LinkSide(LinkSide(d, x, y), x, y) == LinkSide(d, x, y)
  {
    var d' := LinkSide(d, x, y);
    assert d'.vals[x := d'.vals[x]] == d'.vals;
  }

  /** A second identical call changes nothing. */
  lemma AddLinkIdempotent(alpha: string, beta: string, alphaDict: Links, betaDict: Links)
    requires Valid(alphaDict) && Valid(betaDict)
    ensures var r := AddLink(alpha, beta, alphaDict, betaDict);
      AddLink(alpha, beta, r.0, r.1) == r
  {
    LinkSideIdempotent(alphaDict, alpha, beta);
    LinkSideIdempotent(betaDict, beta, alpha);
  }

  lemma LinkSideNoDup(d: Links, x: string, y: string)
    requires Valid(d) && NoDupLists(d)
    ensures NoDupLists(LinkSide(d, x, y))
  {
    var d' := LinkSide(d, x, y);
    forall k | k in d'.vals ensures Distinct(d'.vals[k]) {
      if k != x {
        assert d'.vals[k] == d.vals[k];
      }
    }
  }

  /** `add_link` keeps every list free of repeats. */
  lemma AddLinkNoDup(alpha: string, beta: string, alphaDict: Links, betaDict: Links)
    requires Valid(alphaDict) && Valid(betaDict)
    requires NoDupLists(alphaDict) && NoDupLists(betaDict)
    ensures NoDupLists(AddLink(alpha, beta, alphaDict, betaDict).0)
    ensures NoDupLists(AddLink(alpha, beta, alphaDict, betaDict).1)
  {
    LinkSideNoDup(alphaDict, alpha, beta);
    LinkSideNoDup(betaDict, beta, alpha);
  }

  /** What `LinkSide` lists under any key. */
  lemma LinkSideListAt(d: Links, x: string, y: string, k: string, z: string)
    requires Valid(d)
    ensures z in ListAt(LinkSide(d, x, y), k) <==> z in ListAt(d, k) || (k == x && z == y)
  {
  }

  /** `add_link` keeps a pair of dicts mirror images of each other. */
  lemma AddLinkSymmetric(alpha: string, beta: string, alphaDict: Links, betaDict: Links)
    requires Valid(alphaDict) && Valid(betaDict)
    requires Symmetric(alphaDict, betaDict)
    ensures Symmetric(AddLink(alpha, beta, alphaDict, betaDict).0, AddLink(alpha, beta, alphaDict, betaDict).1)
  {
    var r := AddLink(alpha, beta, alphaDict, betaDict);
    forall x, y ensures y in ListAt(r.0, x) <==> x in ListAt(r.1, y) {
      LinkSideListAt(alphaDict, alpha, beta, x, y);
      LinkSideListAt(betaDict, beta, alpha, y, x);
    }
  }

  /** Symmetry does not depend on which side is named first. */
  lemma SymmetricFlip(a: Links, b: Links)
    requires Symmetric(a, b)
    ensures Symmetric(b, a)
  {
  }

  /** `LinkSide` as the source performs it: create the empty list, then append when absent. */
  function LinkSideSteps(d: Links, x: string, y: string): Links
    requires Valid(d)
  {
    var d1 := if x !in d.vals then Put(d, x, []) else d;
    if y !in d1.vals[x] then Put(d1, x, d1.vals[x] + [y]) else d1
  }

  lemma LinkSideBySteps(d: Links, x: string, y: string)
    requires Valid(d)
    ensures LinkSideSteps(d, x, y) == LinkSide(d, x, y)
  {
    var d1 := if x !in d.vals then Put(d, x, []) else d;
    if y in d1.vals[x] {
      assert d1.vals[x := d1.vals[x]] == d1.vals;
    }
  }

  /** `add_link` step by step, on the two dicts it is given. */
  method AddLinkTo(alpha: string, beta: string, alphaDict: Links, betaDict: Links) returns (a: Links, b: Links)
    requires Valid(alphaDict) && Valid(betaDict)
    ensures (a, b) == AddLink(alpha, beta, alphaDict, betaDict)
  {
    a, b := alphaDict, betaDict;
    if alpha !in a.vals {
      a := Put(a, alpha, []);
    }
    if beta !in b.vals {
      b := Put(b, beta, []);
    }
    if alpha !in b.vals[beta] {
      b := Put(b, beta, b.vals[beta] + [alpha]);
    }
    if beta !in a.vals[alpha] {
      a := Put(a, alpha, a.vals[alpha] + [beta]);
    }
    assert a == LinkSideSteps(alphaDict, alpha, beta);
    assert b == LinkSideSteps(betaDict, beta, alpha);
    LinkSideBySteps(alphaDict, alpha, beta);
    LinkSideBySteps(betaDict, beta, alpha);
  }

  // ----- makelower -----

  /** `{k.lower(): v for k, v in indict.items()}`: only keys are lowered; when two keys lower
      to the same string, the later value wins at the place of the first. */
  function MakeLower(d: ODict<string>): (r: ODict<string>)
    requires Valid(d)
    ensures Valid(r)
  {
    MakeLowerOf(d, d.keys)
  }

  function MakeLowerOf(d: ODict<string>, keys: seq<string>): (r: ODict<string>)
    requires forall k :: k in keys ==> k in d.vals
    ensures Valid(r)
    decreases |keys|
  {
    if keys == [] then Empty()
    else
      var last := keys[|keys| - 1];
      Put(MakeLowerOf(d, keys[..|keys| - 1]), Lower(last), d.vals[last])
  }

  lemma LowerIdempotent(s: string)
    ensures Lower(Lower(s)) == Lower(s)
  {
    assert forall i :: 0 <= i < |s| ==> Lower(Lower(s))[i] == LowerChar(LowerChar(s[i]));
  }

  /** The lowered keys, in order. */
  function LowerAll(keys: seq<string>): (r: seq<string>)
    ensures |r| == |keys|
    ensures forall i :: 0 <= i < |keys| ==> r[i] == Lower(keys[i])
  {
    seq(|keys|, i requires 0 <= i < |keys| => Lower(keys[i]))
  }

  /** The result's keys are exactly the lowered input keys. */
  lemma {:induction false} MakeLowerOfKeys(d: ODict<string>, keys: seq<string>)
    requires forall k :: k in keys ==> k in d.vals
    ensures forall k :: k in MakeLowerOf(d, keys).vals <==> k in LowerAll(keys)
    decreases |keys|
  {
    if keys != [] {
      var init := keys[..|keys| - 1];
      MakeLowerOfKeys(d, init);
      assert LowerAll(keys) == LowerAll(init) + [Lower(keys[|keys| - 1])];
    }
  }

  /** A key whose lowered form no later key shares keeps its value. */
  lemma {:induction false} MakeLowerOfLastWins(d: ODict<string>, keys: seq<string>, i: nat)
    requires forall k :: k in keys ==> k in d.vals
    requires i < |keys| && forall j :: i < j < |keys| ==> Lower(keys[j]) != Lower(keys[i])
    ensures Lower(keys[i]) in MakeLowerOf(d, keys).vals
    ensures MakeLowerOf(d, keys).vals[Lower(keys[i])] == d.vals[keys[i]]
    decreases |keys|
  {
    if i < |keys| - 1 {
      var init := keys[..|keys| - 1];
      assert init[i] == keys[i];
      assert forall j :: i < j < |init| ==> init[j] == keys[j];
      MakeLowerOfLastWins(d, init, i);
    }
  }

  /** `makelower` lowers the keys only: every key of the result is lower case, and the keys
      are exactly the lowered input keys. */
  lemma MakeLowerKeys(d: ODict<string>)
    requires Valid(d)
    ensures forall k :: k in MakeLower(d).vals ==> Lower(k) == k
    ensures forall k :: k in MakeLower(d).vals <==> exists k' :: k' in d.vals && Lower(k') == k
  {
    var r := MakeLower(d);
    MakeLowerOfKeys(d, d.keys);
    var lowered := LowerAll(d.keys);
    forall k ensures k in r.vals <==> exists k' :: k' in d.vals && Lower(k') == k {
      if k in r.vals {
        var i :| 0 <= i < |lowered| && lowered[i] == k;
        assert d.keys[i] in d.vals;
      }
      if exists k' :: k' in d.vals && Lower(k') == k {
        var k' :| k' in d.vals && Lower(k') == k;
        var i :| 0 <= i < |d.keys| && d.keys[i] == k';
        assert lowered[i] == k;
      }
    }
    forall k | k in r.vals ensures Lower(k) == k {
      var i :| 0 <= i < |lowered| && lowered[i] == k;
      LowerIdempotent(d.keys[i]);
    }
  }

  /** Values are copied unchanged: a key that no other key collides with after lowering keeps
      its value under its lowered form. */
  lemma MakeLowerValues(d: ODict<string>)
    requires Valid(d)
    ensures forall k :: k in d.vals && (forall k' :: k' in d.vals && k' != k ==> Lower(k') != Lower(k)) ==>
      Lower(k) in MakeLower(d).vals && MakeLower(d).vals[Lower(k)] == d.vals[k]
  {
    forall k | k in d.vals && (forall k' :: k' in d.vals && k' != k ==> Lower(k') != Lower(k))
      ensures Lower(k) in MakeLower(d).vals && MakeLower(d).vals[Lower(k)] == d.vals[k]
    {
      var i :| 0 <= i < |d.keys| && d.keys[i] == k;
      MakeLowerOfLastWins(d, d.keys, i);
    }
  }

  // ----- parse_techniques -----

  /** The five list-valued technique dicts, by the record field that fills them. */
  datatype Field = DataSources | Tactics | Permissions | Platforms | Defenses

  /** The technique dicts `parse_techniques` fills: `tech_to_id`, `id_to_tech` and the five
      lists `tech_to_data`, `tech_to_tac`, `tech_to_perm`, `tech_to_plat`, `tech_to_def`. */
  datatype TechniqueMaps = TechniqueMaps(
    techToId: map<string, string>,
    idToTech: map<string, string>,
    data: Links,
    tac: Links,
    perm: Links,
    plat: Links,
    def: Links)

  function Dict(m: TechniqueMaps, f: Field): Links
  {
    match f
    case DataSources => m.data
    case Tactics => m.tac
    case Permissions => m.perm
    case Platforms => m.plat
    case Defenses => m.def
  }

  /** The values a record contributes to the dict of field `f`; `None` when the key is absent. */
  function FieldOf(obj: TechniqueRecord, f: Field): Option<seq<string>>
  {
    match f
    case DataSources => obj.dataSources
    case Tactics => if obj.killChainPhases.Some? then Some(PhaseNames(obj.killChainPhases.value)) else None
    case Permissions => obj.permissionsRequired
    case Platforms => obj.platforms
    case Defenses => obj.defenseBypassed
  }

  predicate MapsValid(m: TechniqueMaps)
  {
    Valid(m.data) && Valid(m.tac) && Valid(m.perm) && Valid(m.plat) && Valid(m.def)
  }

  /** `if tech not in d: d[tech] = []`, then, when the field is present, its values appended
      unless already listed. */
  function AddField(d: Links, k: string, xs: Option<seq<string>>): (r: Links)
    requires Valid(d)
    ensures Valid(r)
    ensures r.keys == if k in d.vals then d.keys else d.keys + [k]
    ensures r.vals.Keys == d.vals.Keys + {k}
    ensures forall k' :: k' in d.vals && k' != k ==> r.vals[k'] == d.vals[k']
    ensures ListAt(d, k) <= r.vals[k]
    ensures forall x :: x in r.vals[k] <==> x in ListAt(d, k) || x in Listed(xs)
    ensures Distinct(ListAt(d, k)) ==> Distinct(r.vals[k])
  {
    var d0 := if k in d.vals then d else Put(d, k, []);
    if xs.Some? then Put(d0, k, ExtendUnique(d0.vals[k], xs.value)) else d0
  }

  /** The body of the loop over techniques for one record. A record with an `id` maps its name
      to that id and the id back to the name, overwriting earlier entries. */
  function ParseTechnique(m: TechniqueMaps, obj: TechniqueRecord): (r: TechniqueMaps)
    requires MapsValid(m)
    ensures MapsValid(r)
  {
    var tech := obj.name;
    TechniqueMaps(
      if obj.id.Some? then m.techToId[tech := obj.id.value] else m.techToId,
      if obj.id.Some? then m.idToTech[obj.id.value := tech] else m.idToTech,
      AddField(m.data, tech, FieldOf(obj, DataSources)),
      AddField(m.tac, tech, FieldOf(obj, Tactics)),
      AddField(m.perm, tech, FieldOf(obj, Permissions)),
      AddField(m.plat, tech, FieldOf(obj, Platforms)),
      AddField(m.def, tech, FieldOf(obj, Defenses)))
  }

  lemma ParseTechniqueField(m: TechniqueMaps, obj: TechniqueRecord, f: Field)
    requires MapsValid(m)
    ensures Valid(Dict(m, f))
    ensures Dict(ParseTechnique(m, obj), f) == AddField(Dict(m, f), obj.name, FieldOf(obj, f))
  {
  }

  /** The loop over the technique records. */
  function ParseAll(m: TechniqueMaps, objs: seq<TechniqueRecord>): (r: TechniqueMaps)
    requires MapsValid(m)
    ensures MapsValid(r)
    decreases |objs|
  {
    if objs == [] then m else ParseTechnique(ParseAll(m, objs[..|objs| - 1]), objs[|objs| - 1])
  }

  /** The closing loop: a permission list that contains 'User' becomes `['User']`. */
  function UserOnly(perm: Links, keys: seq<string>): (r: Links)
    requires Valid(perm) && forall k :: k in keys ==> k in perm.vals
    ensures Valid(r) && r.keys == perm.keys && r.vals.Keys == perm.vals.Keys
    decreases |keys|
  {
    if keys == [] then perm
    else
      var p := UserOnly(perm, keys[..|keys| - 1]);
      var last := keys[|keys| - 1];
      if "User" in p.vals[last] then Put(p, last, ["User"]) else p
  }

  /** `parse_techniques(techniques)` on the dicts `m`. */
  function ParsedTechniques(m: TechniqueMaps, objs: seq<TechniqueRecord>): (r: TechniqueMaps)
    requires MapsValid(m)
    ensures MapsValid(r)
  {
    var m' := ParseAll(m, objs);
    m'.(perm := UserOnly(m'.perm, m'.perm.keys))
  }

  /** The walk seen from the dict of one field. */
  function FieldWalk(d: Links, objs: seq<TechniqueRecord>, f: Field): (r: Links)
    requires Valid(d)
    ensures Valid(r)
    decreases |objs|
  {
    if objs == [] then d else AddField(FieldWalk(d, objs[..|objs| - 1], f), objs[|objs| - 1].name, FieldOf(objs[|objs| - 1], f))
  }

  lemma {:induction false} ParseAllDict(m: TechniqueMaps, objs: seq<TechniqueRecord>, f: Field)
    requires MapsValid(m)
    ensures Valid(Dict(m, f))
    ensures Dict(ParseAll(m, objs), f) == FieldWalk(Dict(m, f), objs, f)
    decreases |objs|
  {
    if objs != [] {
      ParseAllDict(m, objs[..|objs| - 1], f);
      ParseTechniqueField(ParseAll(m, objs[..|objs| - 1]), objs[|objs| - 1], f);
    }
  }

  /** Some record is named `n`. */
  predicate HasName(objs: seq<TechniqueRecord>, n: string)
  {
    exists i :: 0 <= i < |objs| && objs[i].name == n
  }

  /** Some record named `n` lists `x` in field `f`. */
  predicate HasValue(objs: seq<TechniqueRecord>, f: Field, n: string, x: string)
  {
    exists i :: 0 <= i < |objs| && Carries(objs[i], f, n, x)
  }

  /** Record `o` is named `n` and lists `x` in field `f`. */
  predicate Carries(o: TechniqueRecord, f: Field, n: string, x: string)
  {
    o.name == n && x in Listed(FieldOf(o, f))
  }

  lemma HasNameSnoc(objs: seq<TechniqueRecord>, n: string)
    requires objs != []
    ensures HasName(objs, n) <==> HasName(objs[..|objs| - 1], n) || objs[|objs| - 1].name == n
  {
    var init := objs[..|objs| - 1];
    if HasName(objs, n) {
      var i :| 0 <= i < |objs| && objs[i].name == n;
      if i < |init| { assert init[i] == objs[i]; }
    }
    if HasName(init, n) {
      var i :| 0 <= i < |init| && init[i].name == n;
      assert init[i] == objs[i];
    }
  }

  lemma HasValueSnoc(objs: seq<TechniqueRecord>, f: Field, n: string, x: string)
    requires objs != []
    ensures HasValue(objs, f, n, x) <==> HasValue(objs[..|objs| - 1], f, n, x) || Carries(objs[|objs| - 1], f, n, x)
  {
    var init := objs[..|objs| - 1];
    if HasValue(objs, f, n, x) {
      var i :| 0 <= i < |objs| && Carries(objs[i], f, n, x);
      if i < |init| { assert init[i] == objs[i]; }
    }
    if HasValue(init, f, n, x) {
      var i :| 0 <= i < |init| && Carries(init[i], f, n, x);
      assert init[i] == objs[i];
    }
  }

  /** A name has a list after the walk exactly when it had one before or some record carries it. */
  lemma {:induction false} FieldWalkKeys(d: Links, objs: seq<TechniqueRecord>, f: Field, n: string)
    requires Valid(d)
    ensures n in FieldWalk(d, objs, f).vals <==> n in d.vals || HasName(objs, n)
    decreases |objs|
  {
    if objs != [] {
      FieldWalkKeys(d, objs[..|objs| - 1], f, n);
      HasNameSnoc(objs, n);
    }
  }

  /** Existing lists only grow at the end, and stay free of repeats. */
  lemma {:induction false} FieldWalkGrows(d: Links, objs: seq<TechniqueRecord>, f: Field)
    requires Valid(d)
    ensures forall n :: ListAt(d, n) <= ListAt(FieldWalk(d, objs, f), n)
    ensures NoDupLists(d) ==> NoDupLists(FieldWalk(d, objs, f))
    decreases |objs|
  {
    if objs != [] {
      var init, last := objs[..|objs| - 1], objs[|objs| - 1];
      FieldWalkGrows(d, init, f);
      var di, d' := FieldWalk(d, init, f), FieldWalk(d, objs, f);
      assert forall n :: ListAt(di, n) <= ListAt(d', n);
      if NoDupLists(d) {
        forall n | n in d'.vals ensures Distinct(d'.vals[n]) {
          if n != last.name { assert d'.vals[n] == di.vals[n]; }
        }
      }
    }
  }

  /** What a name's list holds after the walk: what it held before, and the values of every
      record with that name. */
  lemma {:induction false} FieldWalkMembers(d: Links, objs: seq<TechniqueRecord>, f: Field, n: string, x: string)
    requires Valid(d)
    ensures x in ListAt(FieldWalk(d, objs, f), n) <==> x in ListAt(d, n) || HasValue(objs, f, n, x)
    decreases |objs|
  {
    if objs != [] {
      FieldWalkMembers(d, objs[..|objs| - 1], f, n, x);
      HasNameSnoc(objs, n);
      HasValueSnoc(objs, f, n, x);
    }
  }

  /** The values the records named `n` carry in field `f`, repeats included, in record order. */
  function NamedValues(objs: seq<TechniqueRecord>, f: Field, n: string): seq<string>
    decreases |objs|
  {
    if objs == [] then []
    else
      var last := objs[|objs| - 1];
      NamedValues(objs[..|objs| - 1], f, n) + if last.name == n then Listed(FieldOf(last, f)) else []
  }

  /** One record touches only the list under its own name, and extends it by its values; a
      list free of repeats gains the new values in the order they are first met. */
  lemma AddFieldAt(d: Links, k: string, xs: Option<seq<string>>, n: string)
    requires Valid(d)
    ensures ListAt(AddField(d, k, xs), n) == if n == k then ExtendUnique(ListAt(d, k), Listed(xs)) else ListAt(d, n)
    ensures Distinct(ListAt(d, k)) ==> ListAt(AddField(d, k, xs), k) == Dedup(ListAt(d, k) + Listed(xs))
  {
    if Distinct(ListAt(d, k)) {
      ExtendUniqueDedup(ListAt(d, k), Listed(xs));
    }
  }

  /** A name's list after the walk is its list before, extended by the values of the records
      with that name, in record order. */
  lemma {:induction false} FieldWalkList(d: Links, objs: seq<TechniqueRecord>, f: Field, n: string)
    requires Valid(d)
    ensures ListAt(FieldWalk(d, objs, f), n) == ExtendUnique(ListAt(d, n), NamedValues(objs, f, n))
    decreases |objs|
  {
    if objs != [] {
      var init, last := objs[..|objs| - 1], objs[|objs| - 1];
      FieldWalkList(d, init, f, n);
      AddFieldAt(FieldWalk(d, init, f), last.name, FieldOf(last, f), n);
      var own := if last.name == n then Listed(FieldOf(last, f)) else [];
      ExtendUniqueConcat(ListAt(d, n), NamedValues(init, f, n), own);
      if last.name != n {
        assert NamedValues(objs, f, n) == NamedValues(init, f, n) + [];
        assert NamedValues(init, f, n) + [] == NamedValues(init, f, n);
      }
    }
  }

  /** The 'User' rule: a list holding 'User' becomes exactly `['User']`, any other list is
      unchanged. */
  lemma {:induction false} UserOnlySpec(perm: Links, keys: seq<string>)
    requires Valid(perm) && Distinct(keys) && forall k :: k in keys ==> k in perm.vals
    ensures forall k :: k in keys && "User" in perm.vals[k] ==> UserOnly(perm, keys).vals[k] == ["User"]
    ensures forall k :: k in perm.vals && !(k in keys && "User" in perm.vals[k]) ==> UserOnly(perm, keys).vals[k] == perm.vals[k]
    decreases |keys|
  {
    if keys != [] {
      var init, last := keys[..|keys| - 1], keys[|keys| - 1];
      DistinctInit(keys);
      UserOnlySpec(perm, init);
    }
  }

  /** The walk of one field over a dict whose lists have no repeats: every record's name has a
      list, lists keep their earlier contents at the front, stay free of repeats, and are the
      first-appearance order of their earlier contents followed by the values of the records
      with that name. */
  lemma ParseAllSpec(m: TechniqueMaps, objs: seq<TechniqueRecord>, f: Field)
    requires MapsValid(m) && NoDupLists(Dict(m, f))
    ensures forall i :: 0 <= i < |objs| ==> objs[i].name in Dict(ParseAll(m, objs), f).vals
    ensures forall n :: ListAt(Dict(m, f), n) <= ListAt(Dict(ParseAll(m, objs), f), n)
    ensures NoDupLists(Dict(ParseAll(m, objs), f))
    ensures forall n :: ListAt(Dict(ParseAll(m, objs), f), n) == Dedup(ListAt(Dict(m, f), n) + NamedValues(objs, f, n))
  {
    ParseAllDict(m, objs, f);
    forall n ensures ListAt(Dict(ParseAll(m, objs), f), n) == Dedup(ListAt(Dict(m, f), n) + NamedValues(objs, f, n)) {
      FieldWalkList(Dict(m, f), objs, f, n);
      ExtendUniqueDedup(ListAt(Dict(m, f), n), NamedValues(objs, f, n));
    }
    forall i | 0 <= i < |objs| ensures objs[i].name in Dict(ParseAll(m, objs), f).vals {
      FieldWalkKeys(Dict(m, f), objs, f, objs[i].name);
    }
    FieldWalkGrows(Dict(m, f), objs, f);
  }

  /** What the closing loop makes of a list of field `f`: a permission list holding 'User'
      becomes `['User']`. */
  function UserRule(f: Field, l: seq<string>): seq<string>
  {
    if f == Permissions && "User" in l then ["User"] else l
  }

  /** `parse_techniques` over a dict whose lists have no repeats (an empty one, say): every
      technique name has a list in it, every list stays free of repeats, and a name's list is
      the first-appearance order of its earlier contents followed by the values of the records
      with that name, with the 'User' rule applied to permissions. */
  lemma ParsedTechniquesField(m: TechniqueMaps, objs: seq<TechniqueRecord>, f: Field)
    requires MapsValid(m) && NoDupLists(Dict(m, f))
    ensures forall i :: 0 <= i < |objs| ==> objs[i].name in Dict(ParsedTechniques(m, objs), f).vals
    ensures NoDupLists(Dict(ParsedTechniques(m, objs), f))
    ensures forall n :: ListAt(Dict(ParsedTechniques(m, objs), f), n)
                        == UserRule(f, Dedup(ListAt(Dict(m, f), n) + NamedValues(objs, f, n)))
  {
    var m' := ParseAll(m, objs);
    ParseAllSpec(m, objs, f);
    if f == Permissions {
      UserOnlyLists(m'.perm);
    } else {
      assert Dict(ParsedTechniques(m, objs), f) == Dict(m', f);
    }
  }

  /** The closing loop over every key keeps the lists free of repeats and applies the 'User'
      rule to each of them. */
  lemma UserOnlyLists(perm: Links)
    requires Valid(perm)
    ensures NoDupLists(perm) ==> NoDupLists(UserOnly(perm, perm.keys))
    ensures forall n :: ListAt(UserOnly(perm, perm.keys), n) == UserRule(Permissions, ListAt(perm, n))
  {
    var r := UserOnly(perm, perm.keys);
    UserOnlySpec(perm, perm.keys);
    forall n | n in r.vals ensures r.vals[n] == UserRule(Permissions, perm.vals[n]) {
      assert n in perm.keys;
    }
  }

  /** After `parse_techniques` a permission list is `['User']` when the walk gave it 'User',
      and what the walk gave it otherwise. */
  lemma ParsedTechniquesUser(m: TechniqueMaps, objs: seq<TechniqueRecord>)
    requires MapsValid(m)
    ensures var r, m' := ParsedTechniques(m, objs), ParseAll(m, objs);
      && r.perm.keys == m'.perm.keys
      && (forall n :: n in m'.perm.vals && "User" in m'.perm.vals[n] ==> r.perm.vals[n] == ["User"])
      && (forall n :: n in m'.perm.vals && "User" !in m'.perm.vals[n] ==> r.perm.vals[n] == m'.perm.vals[n])
  {
    var m' := ParseAll(m, objs);
    UserOnlySpec(m'.perm, m'.perm.keys);
  }

  /** `parse_techniques` gives every technique a tactic list exactly when it gives it a
      permission list. */
  lemma ParsedTechniquesKeys(m: TechniqueMaps, objs: seq<TechniqueRecord>)
    requires MapsValid(m) && m.tac.vals.Keys == m.perm.vals.Keys
    ensures ParsedTechniques(m, objs).tac.vals.Keys == ParsedTechniques(m, objs).perm.vals.Keys
  {
    var m' := ParseAll(m, objs);
    ParseAllDict(m, objs, Tactics);
    ParseAllDict(m, objs, Permissions);
    forall n ensures n in m'.tac.vals <==> n in m'.perm.vals {
      FieldWalkKeys(m.tac, objs, Tactics, n);
      FieldWalkKeys(m.perm, objs, Permissions, n);
    }
  }

  // ----- parse_software and parse_groups -----

  /** The loop of `parse_software` and `parse_groups` over `entries`, on the dicts `x_to_id`
      and `id_to_x`: a name not yet recorded maps to its id, and the id back to the name. */
  function RecordNames(toId: map<string, string>, idTo: map<string, string>, entries: seq<NamedRecord>)
    : (r: (map<string, string>, map<string, string>))
    ensures forall id :: id in r.1 ==> id in idTo || exists i :: 0 <= i < |entries| && entries[i].id == id
    decreases |entries|
  {
    if entries == [] then (toId, idTo)
    else
      var init, e := entries[..|entries| - 1], entries[|entries| - 1];
      assert forall i :: 0 <= i < |init| ==> init[i] == entries[i];
      var p := RecordNames(toId, idTo, init);
      if e.name in p.0 then p else (p.0[e.name := e.id], p.1[e.id := e.name])
  }

  /** No earlier entry has the name of entry `i`. */
  predicate FirstWithName(entries: seq<NamedRecord>, i: int)
    requires 0 <= i < |entries|
  {
    forall j :: 0 <= j < i ==> entries[j].name != entries[i].name
  }

  /** Some entry is named `n`. */
  predicate HasEntryNamed(entries: seq<NamedRecord>, n: string)
  {
    exists i :: 0 <= i < |entries| && entries[i].name == n
  }

  lemma HasEntryNamedSnoc(entries: seq<NamedRecord>, n: string)
    requires entries != []
    ensures HasEntryNamed(entries, n) <==> HasEntryNamed(entries[..|entries| - 1], n) || entries[|entries| - 1].name == n
  {
    var init := entries[..|entries| - 1];
    assert forall i :: 0 <= i < |init| ==> init[i] == entries[i];
    if HasEntryNamed(entries, n) {
      var i :| 0 <= i < |entries| && entries[i].name == n;
    }
  }

  /** The names recorded are the old ones and those of the entries, and a recorded name keeps
      its id. */
  lemma {:induction false} RecordNamesKeys(toId: map<string, string>, idTo: map<string, string>, entries: seq<NamedRecord>, n: string)
    ensures var r := RecordNames(toId, idTo, entries);
      && (n in r.0 <==> n in toId || HasEntryNamed(entries, n))
      && (n in toId ==> r.0[n] == toId[n])
    decreases |entries|
  {
    if entries != [] {
      RecordNamesKeys(toId, idTo, entries[..|entries| - 1], n);
      HasEntryNamedSnoc(entries, n);
    }
  }

  /** The first id seen for a name wins: a new name gets the id of its first entry. */
  lemma {:induction false} RecordNamesFirstWins(toId: map<string, string>, idTo: map<string, string>, entries: seq<NamedRecord>, i: nat)
    requires i < |entries| && entries[i].name !in toId && FirstWithName(entries, i)
    ensures entries[i].name in RecordNames(toId, idTo, entries).0
    ensures RecordNames(toId, idTo, entries).0[entries[i].name] == entries[i].id
    decreases |entries|
  {
    var init := entries[..|entries| - 1];
    var n := entries[i].name;
    RecordNamesKeys(toId, idTo, init, n);
    if i < |init| {
      assert init[i] == entries[i];
      assert FirstWithName(init, i) by {
        forall j | 0 <= j < i ensures init[j].name != init[i].name { assert init[j] == entries[j]; }
      }
      RecordNamesFirstWins(toId, idTo, init, i);
    } else {
      assert !HasEntryNamed(init, n) by {
        forall j | 0 <= j < |init| ensures init[j].name != n { assert init[j] == entries[j]; }
      }
    }
  }

  /** `id_to_x[x_to_id[n]] == n` for every recorded name. */
  predicate Inverse(toId: map<string, string>, idTo: map<string, string>)
  {
    forall n :: n in toId ==> toId[n] in idTo && idTo[toId[n]] == n
  }

  /** The entries' ids are new and pairwise distinct, as STIX ids are. */
  predicate FreshIds(entries: seq<NamedRecord>, idTo: map<string, string>)
  {
    && (forall i :: 0 <= i < |entries| ==> entries[i].id !in idTo)
    && (forall i, j :: 0 <= i < j < |entries| ==> entries[i].id != entries[j].id)
  }

  /** With fresh ids, recording names keeps the two dicts inverse to each other. */
  lemma {:induction false} RecordNamesInverse(toId: map<string, string>, idTo: map<string, string>, entries: seq<NamedRecord>)
    requires Inverse(toId, idTo) && FreshIds(entries, idTo)
    ensures Inverse(RecordNames(toId, idTo, entries).0, RecordNames(toId, idTo, entries).1)
    decreases |entries|
  {
    if entries != [] {
      var init, e := entries[..|entries| - 1], entries[|entries| - 1];
      assert FreshIds(init, idTo) by {
        assert forall i :: 0 <= i < |init| ==> init[i] == entries[i];
      }
      RecordNamesInverse(toId, idTo, init);
      var p := RecordNames(toId, idTo, init);
      if e.name !in p.0 {
        assert e.id !in p.1;
      }
    }
  }

  // ----- parse_tactics -----

  /** `tactics_to_permission`: tactic -> permission -> number of techniques. */
  type Counts = ODict<ODict<nat>>

  predicate CountsValid(t: Counts)
  {
    Valid(t) && forall k :: k in t.vals ==> Valid(t.vals[k])
  }

  /** `tactics_to_permission[tac][perm]`, 0 where either key is missing. */
  function Get2(t: Counts, tac: string, perm: string): nat
  {
    if tac in t.vals && perm in t.vals[tac].vals then t.vals[tac].vals[perm] else 0
  }

  /** The loop over the permissions of one technique within one tactic's counters. */
  function CountPermissions(c: ODict<nat>, perms: seq<string>): (r: ODict<nat>)
    requires Valid(c)
    ensures Valid(r)
    decreases |perms|
  {
    if perms == [] then c
    else
      CountPermission(CountPermissions(c, perms[..|perms| - 1]), perms[|perms| - 1])
  }

  /** `tactics_to_permission[tac][perm] += 1`, the counter starting at zero. */
  function CountPermission(c: ODict<nat>, perm: string): (r: ODict<nat>)
    requires Valid(c)
    ensures Valid(r)
  {
    Put(c, perm, (if perm in c.vals then c.vals[perm] else 0) + 1)
  }

  /** The loop over the tactics of one technique. */
  function CountTactics(t: Counts, tacs: seq<string>, perms: seq<string>): (r: Counts)
    requires CountsValid(t)
    ensures CountsValid(r)
    decreases |tacs|
  {
    if tacs == [] then t
    else
      CountTactic(CountTactics(t, tacs[..|tacs| - 1], perms), tacs[|tacs| - 1], perms)
  }

  /** One tactic of a technique: its counter dict is created if missing, then counts the
      technique's permissions. */
  function CountTactic(t: Counts, tac: string, perms: seq<string>): (r: Counts)
    requires CountsValid(t)
    ensures CountsValid(r)
  {
    var row: ODict<nat> := if tac in t.vals then t.vals[tac] else Empty();
    Put(t, tac, CountPermissions(row, perms))
  }

  lemma CountTacticSpec(t: Counts, tac: string, perms: seq<string>, tac': string, perm: string)
    requires CountsValid(t) && Distinct(perms)
    ensures tac' in CountTactic(t, tac, perms).vals <==> tac' in t.vals || tac' == tac
    ensures Get2(CountTactic(t, tac, perms), tac', perm) == Get2(t, tac', perm) + (if tac' == tac && perm in perms then 1 else 0)
  {
    var row: ODict<nat> := if tac in t.vals then t.vals[tac] else Empty();
    if tac' == tac {
      CountPermissionsSpec(row, perms, perm);
    }
  }

  /** `parse_tactics` over the techniques `techs` (the keys of `tech_to_tac`, in order). */
  function CountAll(t: Counts, techs: seq<string>, tacOf: Links, permOf: Links): (r: Counts)
    requires CountsValid(t)
    requires forall tech :: tech in techs ==> tech in tacOf.vals && tech in permOf.vals
    ensures CountsValid(r)
    decreases |techs|
  {
    if techs == [] then t
    else
      var tech := techs[|techs| - 1];
      CountTactics(CountAll(t, techs[..|techs| - 1], tacOf, permOf), tacOf.vals[tech], permOf.vals[tech])
  }

  /** How many of `techs` list both `tac` and `perm`. */
  function NumListing(techs: seq<string>, tacOf: Links, permOf: Links, tac: string, perm: string): nat
    requires forall tech :: tech in techs ==> tech in tacOf.vals && tech in permOf.vals
    decreases |techs|
  {
    if techs == [] then 0
    else
      var tech := techs[|techs| - 1];
      NumListing(techs[..|techs| - 1], tacOf, permOf, tac, perm)
        + if tac in tacOf.vals[tech] && perm in permOf.vals[tech] then 1 else 0
  }

  lemma {:induction false} CountPermissionsSpec(c: ODict<nat>, perms: seq<string>, perm: string)
    requires Valid(c) && Distinct(perms)
    ensures var r := CountPermissions(c, perms);
      (if perm in r.vals then r.vals[perm] else 0) == (if perm in c.vals then c.vals[perm] else 0) + (if perm in perms then 1 else 0)
    decreases |perms|
  {
    if perms != [] {
      var init := perms[..|perms| - 1];
      assert perms == init + [perms[|perms| - 1]];
      DistinctInit(perms);
      CountPermissionsSpec(c, init, perm);
    }
  }

  lemma {:induction false} CountTacticsSpec(t: Counts, tacs: seq<string>, perms: seq<string>, tac: string, perm: string)
    requires CountsValid(t) && Distinct(tacs) && Distinct(perms)
    ensures tac in CountTactics(t, tacs, perms).vals <==> tac in t.vals || tac in tacs
    ensures Get2(CountTactics(t, tacs, perms), tac, perm) == Get2(t, tac, perm) + (if tac in tacs && perm in perms then 1 else 0)
    decreases |tacs|
  {
    if tacs != [] {
      var init, last := tacs[..|tacs| - 1], tacs[|tacs| - 1];
      assert tacs == init + [last];
      DistinctInit(tacs);
      CountTacticsSpec(t, init, perms, tac, perm);
      CountTacticSpec(CountTactics(t, init, perms), last, perms, tac, perm);
    }
  }

  lemma {:induction false} CountTacticsKeys(t: Counts, tacs: seq<string>, perms: seq<string>, tac: string)
    requires CountsValid(t)
    ensures tac in CountTactics(t, tacs, perms).vals <==> tac in t.vals || tac in tacs
    decreases |tacs|
  {
    if tacs != [] {
      var init := tacs[..|tacs| - 1];
      assert tacs == init + [tacs[|tacs| - 1]];
      CountTacticsKeys(t, init, perms, tac);
    }
  }

  /** Some technique of `techs` lists `tac`. */
  predicate SomeListsTactic(techs: seq<string>, tacOf: Links, tac: string)
    requires forall tech :: tech in techs ==> tech in tacOf.vals
  {
    exists i :: 0 <= i < |techs| && tac in tacOf.vals[techs[i]]
  }

  lemma SomeListsTacticSnoc(techs: seq<string>, tacOf: Links, tac: string)
    requires techs != [] && forall tech :: tech in techs ==> tech in tacOf.vals
    ensures SomeListsTactic(techs, tacOf, tac) <==>
      SomeListsTactic(techs[..|techs| - 1], tacOf, tac) || tac in tacOf.vals[techs[|techs| - 1]]
  {
    var init := techs[..|techs| - 1];
    if SomeListsTactic(techs, tacOf, tac) {
      var i :| 0 <= i < |techs| && tac in tacOf.vals[techs[i]];
      if i < |init| { assert init[i] == techs[i]; }
    }
    if SomeListsTactic(init, tacOf, tac) {
      var i :| 0 <= i < |init| && tac in tacOf.vals[init[i]];
      assert init[i] == techs[i];
    }
  }

  /** A tactic gets an entry exactly when some technique lists it. */
  lemma {:induction false} CountAllKeys(t: Counts, techs: seq<string>, tacOf: Links, permOf: Links, tac: string)
    requires CountsValid(t)
    requires forall tech :: tech in techs ==> tech in tacOf.vals && tech in permOf.vals
    ensures tac in CountAll(t, techs, tacOf, permOf).vals <==> tac in t.vals || exists i :: 0 <= i < |techs| && tac in tacOf.vals[techs[i]]
    decreases |techs|
  {
    if techs != [] {
      var init, tech := techs[..|techs| - 1], techs[|techs| - 1];
      CountAllKeys(t, init, tacOf, permOf, tac);
      CountTacticsKeys(CountAll(t, init, tacOf, permOf), tacOf.vals[tech], permOf.vals[tech], tac);
      SomeListsTacticSnoc(techs, tacOf, tac);
    }
  }

  /** `parse_tactics` adds, for each tactic and permission, the number of techniques listing
      both (each technique's lists being free of repeats, as `parse_techniques` leaves them). */
  lemma {:induction false} CountAllSpec(t: Counts, techs: seq<string>, tacOf: Links, permOf: Links, tac: string, perm: string)
    requires CountsValid(t)
    requires forall tech :: tech in techs ==> tech in tacOf.vals && tech in permOf.vals
    requires NoDupLists(tacOf) && NoDupLists(permOf)
    ensures Get2(CountAll(t, techs, tacOf, permOf), tac, perm) == Get2(t, tac, perm) + NumListing(techs, tacOf, permOf, tac, perm)
    decreases |techs|
  {
    if techs != [] {
      var init, tech := techs[..|techs| - 1], techs[|techs| - 1];
      CountAllSpec(t, init, tacOf, permOf, tac, perm);
      CountTacticsSpec(CountAll(t, init, tacOf, permOf), tacOf.vals[tech], permOf.vals[tech], tac, perm);
    }
  }

  // ----- parse_relationships -----

  /** The three kinds of object `parse_relationships` links. */
  datatype Role = Tech | Software | Group

  /** The six link dicts, `tech_to_group` ... `group_to_software`. */
  datatype LinkMaps = LinkMaps(
    techToGroup: Links,
    groupToTech: Links,
    techToSoftware: Links,
    softwareToTech: Links,
    softwareToGroup: Links,
    groupToSoftware: Links)

  /** `id_to_tech`, `id_to_software` and `id_to_group`. */
  datatype IdMaps = IdMaps(tech: map<string, string>, software: map<string, string>, group: map<string, string>)

  function IdsOf(ids: IdMaps, a: Role): map<string, string>
  {
    match a
    case Tech => ids.tech
    case Software => ids.software
    case Group => ids.group
  }

  /** The dict from names of role `a` to names of role `b`. */
  function Table(m: LinkMaps, a: Role, b: Role): Links
    requires a != b
  {
    match (a, b)
    case (Tech, Group) => m.techToGroup
    case (Group, Tech) => m.groupToTech
    case (Tech, Software) => m.techToSoftware
    case (Software, Tech) => m.softwareToTech
    case (Software, Group) => m.softwareToGroup
    case (Group, Software) => m.groupToSoftware
  }

  function SetTable(m: LinkMaps, a: Role, b: Role, d: Links): (r: LinkMaps)
    requires a != b
    ensures Table(r, a, b) == d
    ensures forall c, e :: c != e && (c, e) != (a, b) ==> Table(r, c, e) == Table(m, c, e)
  {
    match (a, b)
    case (Tech, Group) => m.(techToGroup := d)
    case (Group, Tech) => m.(groupToTech := d)
    case (Tech, Software) => m.(techToSoftware := d)
    case (Software, Tech) => m.(softwareToTech := d)
    case (Software, Group) => m.(softwareToGroup := d)
    case (Group, Software) => m.(groupToSoftware := d)
  }

  predicate LinksValid(m: LinkMaps)
  {
    forall a, b :: a != b ==> Valid(Table(m, a, b))
  }

  /** `if src in id_to_a and tgt in id_to_b: add_link(id_to_a[src], id_to_b[tgt], a_to_b, b_to_a)`. */
  function LinkCase(m: LinkMaps, ids: IdMaps, rel: Relationship, a: Role, b: Role): (r: LinkMaps)
    requires a != b && LinksValid(m)
    ensures LinksValid(r)
  {
    var src, tgt := rel.sourceRef, rel.targetRef;
    if src in IdsOf(ids, a) && tgt in IdsOf(ids, b) then
      var p := AddLink(IdsOf(ids, a)[src], IdsOf(ids, b)[tgt], Table(m, a, b), Table(m, b, a));
      SetTable(SetTable(m, a, b, p.0), b, a, p.1)
    else m
  }

  /** The body of the loop over relationships: the six cases in the order of the source. */
  function LinkRelationship(m: LinkMaps, ids: IdMaps, rel: Relationship): (r: LinkMaps)
    requires LinksValid(m)
    ensures LinksValid(r)
  {
    var m1 := LinkCase(m, ids, rel, Tech, Group);
    var m2 := LinkCase(m1, ids, rel, Tech, Software);
    var m3 := LinkCase(m2, ids, rel, Software, Group);
    var m4 := LinkCase(m3, ids, rel, Software, Tech);
    var m5 := LinkCase(m4, ids, rel, Group, Tech);
    LinkCase(m5, ids, rel, Group, Software)
  }

  /** `parse_relationships(relationships)`. */
  function LinkAll(m: LinkMaps, ids: IdMaps, rels: seq<Relationship>): (r: LinkMaps)
    requires LinksValid(m)
    ensures LinksValid(r)
    decreases |rels|
  {
    if rels == [] then m else LinkRelationship(LinkAll(m, ids, rels[..|rels| - 1]), ids, rels[|rels| - 1])
  }

  /** Every name linked in `d` is a name of the map `from`, and every name listed a name of `to`. */
  predicate Resolved(d: Links, from: map<string, string>, to: map<string, string>)
  {
    forall k :: k in d.vals ==> k in from.Values && forall x :: x in d.vals[k] ==> x in to.Values
  }

  /** A pair of opposite dicts: mirror images, free of repeats, linking only resolved names. */
  ghost predicate PairInv(d: Links, e: Links, from: map<string, string>, to: map<string, string>)
  {
    Symmetric(d, e) && NoDupLists(d) && NoDupLists(e) && Resolved(d, from, to) && Resolved(e, to, from)
  }

  ghost predicate LinksInv(m: LinkMaps, ids: IdMaps)
    requires LinksValid(m)
  {
    forall a, b :: a != b ==> PairInv(Table(m, a, b), Table(m, b, a), IdsOf(ids, a), IdsOf(ids, b))
  }

  lemma AddLinkKeeps(alpha: string, beta: string, d: Links, e: Links, from: map<string, string>, to: map<string, string>)
    requires Valid(d) && Valid(e) && PairInv(d, e, from, to)
    requires alpha in from.Values && beta in to.Values
    ensures PairInv(AddLink(alpha, beta, d, e).0, AddLink(alpha, beta, d, e).1, from, to)
  {
    AddLinkSymmetric(alpha, beta, d, e);
    AddLinkNoDup(alpha, beta, d, e);
    var r := AddLink(alpha, beta, d, e);
    forall k | k in r.0.vals ensures k in from.Values && forall x :: x in r.0.vals[k] ==> x in to.Values {
      if k != alpha { assert r.0.vals[k] == d.vals[k]; }
    }
    forall k | k in r.1.vals ensures k in to.Values && forall x :: x in r.1.vals[k] ==> x in from.Values {
      if k != beta { assert r.1.vals[k] == e.vals[k]; }
    }
  }

  /** One pair of dicts after one case of the loop body. */
  lemma LinkCasePair(m: LinkMaps, ids: IdMaps, rel: Relationship, a: Role, b: Role, c: Role, e: Role)
    requires a != b && c != e && LinksValid(m) && LinksInv(m, ids)
    ensures PairInv(Table(LinkCase(m, ids, rel, a, b), c, e), Table(LinkCase(m, ids, rel, a, b), e, c), IdsOf(ids, c), IdsOf(ids, e))
  {
    var r := LinkCase(m, ids, rel, a, b);
    assert PairInv(Table(m, c, e), Table(m, e, c), IdsOf(ids, c), IdsOf(ids, e));
    if Joins(ids, rel, a, b) {
      var alpha, beta := IdsOf(ids, a)[rel.sourceRef], IdsOf(ids, b)[rel.targetRef];
      var p := AddLink(alpha, beta, Table(m, a, b), Table(m, b, a));
      if (c, e) == (a, b) {
        AddLinkKeeps(alpha, beta, Table(m, a, b), Table(m, b, a), IdsOf(ids, a), IdsOf(ids, b));
      } else if (c, e) == (b, a) {
        AddLinkKeeps(alpha, beta, Table(m, a, b), Table(m, b, a), IdsOf(ids, a), IdsOf(ids, b));
        SymmetricFlip(p.0, p.1);
      } else {
        assert Table(r, c, e) == Table(m, c, e) && Table(r, e, c) == Table(m, e, c);
      }
    }
  }

  lemma LinkCaseKeeps(m: LinkMaps, ids: IdMaps, rel: Relationship, a: Role, b: Role)
    requires a != b && LinksValid(m) && LinksInv(m, ids)
    ensures LinksInv(LinkCase(m, ids, rel, a, b), ids)
  {
    forall c, e | c != e
      ensures PairInv(Table(LinkCase(m, ids, rel, a, b), c, e), Table(LinkCase(m, ids, rel, a, b), e, c), IdsOf(ids, c), IdsOf(ids, e))
    {
      LinkCasePair(m, ids, rel, a, b, c, e);
    }
  }

  lemma LinkRelationshipKeeps(m: LinkMaps, ids: IdMaps, rel: Relationship)
    requires LinksValid(m) && LinksInv(m, ids)
    ensures LinksInv(LinkRelationship(m, ids, rel), ids)
  {
    var m1 := LinkCase(m, ids, rel, Tech, Group);
    LinkCaseKeeps(m, ids, rel, Tech, Group);
    var m2 := LinkCase(m1, ids, rel, Tech, Software);
    LinkCaseKeeps(m1, ids, rel, Tech, Software);
    var m3 := LinkCase(m2, ids, rel, Software, Group);
    LinkCaseKeeps(m2, ids, rel, Software, Group);
    var m4 := LinkCase(m3, ids, rel, Software, Tech);
    LinkCaseKeeps(m3, ids, rel, Software, Tech);
    var m5 := LinkCase(m4, ids, rel, Group, Tech);
    LinkCaseKeeps(m4, ids, rel, Group, Tech);
    LinkCaseKeeps(m5, ids, rel, Group, Software);
  }

  /** After `parse_relationships` the link dicts are, pair by pair, mirror images of each other
      (`x in a_to_b[y]` exactly when `y in b_to_a[x]`), free of repeats, and link only names
      resolved through the `id_to_*` maps, when they were so before (empty, say). */
  lemma {:induction false} LinkAllKeeps(m: LinkMaps, ids: IdMaps, rels: seq<Relationship>)
    requires LinksValid(m) && LinksInv(m, ids)
    ensures LinksInv(LinkAll(m, ids, rels), ids)
    decreases |rels|
  {
    if rels != [] {
      LinkAllKeeps(m, ids, rels[..|rels| - 1]);
      LinkRelationshipKeeps(LinkAll(m, ids, rels[..|rels| - 1]), ids, rels[|rels| - 1]);
    }
  }

  /** A relationship between an object of role `a` and one of role `b`, both resolved. */
  predicate Joins(ids: IdMaps, rel: Relationship, a: Role, b: Role)
  {
    rel.sourceRef in IdsOf(ids, a) && rel.targetRef in IdsOf(ids, b)
  }

  /** The link `rel` asks for between roles `a` and `b` is present in `m`. */
  predicate Linked(m: LinkMaps, ids: IdMaps, rel: Relationship, a: Role, b: Role)
    requires a != b
  {
    Joins(ids, rel, a, b) && IdsOf(ids, b)[rel.targetRef] in ListAt(Table(m, a, b), IdsOf(ids, a)[rel.sourceRef])
  }

  /** One case keeps every link there was. */
  lemma LinkCaseGrows(m: LinkMaps, ids: IdMaps, rel: Relationship, a: Role, b: Role, c: Role, e: Role, k: string, x: string)
    requires a != b && c != e && LinksValid(m)
    requires x in ListAt(Table(m, c, e), k)
    ensures x in ListAt(Table(LinkCase(m, ids, rel, a, b), c, e), k)
  {
    if Joins(ids, rel, a, b) {
      var alpha, beta := IdsOf(ids, a)[rel.sourceRef], IdsOf(ids, b)[rel.targetRef];
      if (c, e) == (a, b) {
        LinkSideListAt(Table(m, a, b), alpha, beta, k, x);
      } else if (c, e) == (b, a) {
        LinkSideListAt(Table(m, b, a), beta, alpha, k, x);
      }
    }
  }

  /** Case `(c, e)` makes the link it is about, and keeps the links of the other cases. */
  lemma LinkCaseLinks(m: LinkMaps, ids: IdMaps, rel: Relationship, c: Role, e: Role, a: Role, b: Role)
    requires a != b && c != e && LinksValid(m)
    requires Joins(ids, rel, a, b) && (Linked(m, ids, rel, a, b) || (c, e) == (a, b))
    ensures Linked(LinkCase(m, ids, rel, c, e), ids, rel, a, b)
  {
    var alpha, beta := IdsOf(ids, a)[rel.sourceRef], IdsOf(ids, b)[rel.targetRef];
    if Linked(m, ids, rel, a, b) {
      LinkCaseGrows(m, ids, rel, c, e, a, b, alpha, beta);
    }
  }

  lemma LinkRelationshipGrows(m: LinkMaps, ids: IdMaps, rel: Relationship, c: Role, e: Role, k: string, x: string)
    requires c != e && LinksValid(m)
    requires x in ListAt(Table(m, c, e), k)
    ensures x in ListAt(Table(LinkRelationship(m, ids, rel), c, e), k)
  {
    var m1 := LinkCase(m, ids, rel, Tech, Group);
    LinkCaseGrows(m, ids, rel, Tech, Group, c, e, k, x);
    var m2 := LinkCase(m1, ids, rel, Tech, Software);
    LinkCaseGrows(m1, ids, rel, Tech, Software, c, e, k, x);
    var m3 := LinkCase(m2, ids, rel, Software, Group);
    LinkCaseGrows(m2, ids, rel, Software, Group, c, e, k, x);
    var m4 := LinkCase(m3, ids, rel, Software, Tech);
    LinkCaseGrows(m3, ids, rel, Software, Tech, c, e, k, x);
    var m5 := LinkCase(m4, ids, rel, Group, Tech);
    LinkCaseGrows(m4, ids, rel, Group, Tech, c, e, k, x);
    LinkCaseGrows(m5, ids, rel, Group, Software, c, e, k, x);
  }

  /** The loop body links a relationship between any two resolved objects. */
  lemma LinkRelationshipLinks(m: LinkMaps, ids: IdMaps, rel: Relationship, a: Role, b: Role)
    requires a != b && LinksValid(m) && Joins(ids, rel, a, b)
    ensures Linked(LinkRelationship(m, ids, rel), ids, rel, a, b)
  {
    var m1 := LinkCase(m, ids, rel, Tech, Group);
    var m2 := LinkCase(m1, ids, rel, Tech, Software);
    var m3 := LinkCase(m2, ids, rel, Software, Group);
    var m4 := LinkCase(m3, ids, rel, Software, Tech);
    var m5 := LinkCase(m4, ids, rel, Group, Tech);
    if (a, b) == (Tech, Group) { LinkCaseLinks(m, ids, rel, Tech, Group, a, b); }
    if Linked(m1, ids, rel, a, b) || (a, b) == (Tech, Software) { LinkCaseLinks(m1, ids, rel, Tech, Software, a, b); }
    if Linked(m2, ids, rel, a, b) || (a, b) == (Software, Group) { LinkCaseLinks(m2, ids, rel, Software, Group, a, b); }
    if Linked(m3, ids, rel, a, b) || (a, b) == (Software, Tech) { LinkCaseLinks(m3, ids, rel, Software, Tech, a, b); }
    if Linked(m4, ids, rel, a, b) || (a, b) == (Group, Tech) { LinkCaseLinks(m4, ids, rel, Group, Tech, a, b); }
    LinkCaseLinks(m5, ids, rel, Group, Software, a, b);
  }

  /** The relationship `rels[i]` is linked after the walk over `rels`. */
  lemma {:induction false} LinkAllLinks(m: LinkMaps, ids: IdMaps, rels: seq<Relationship>, i: nat, a: Role, b: Role)
    requires a != b && LinksValid(m) && i < |rels| && Joins(ids, rels[i], a, b)
    ensures Linked(LinkAll(m, ids, rels), ids, rels[i], a, b)
    decreases |rels|
  {
    var init := rels[..|rels| - 1];
    if i == |rels| - 1 {
      LinkRelationshipLinks(LinkAll(m, ids, init), ids, rels[i], a, b);
    } else {
      assert init[i] == rels[i];
      LinkAllLinks(m, ids, init, i, a, b);
      var alpha, beta := IdsOf(ids, a)[rels[i].sourceRef], IdsOf(ids, b)[rels[i].targetRef];
      LinkRelationshipGrows(LinkAll(m, ids, init), ids, rels[|rels| - 1], a, b, alpha, beta);
    }
  }

  /** The link `rel` asks for between roles `a` and `b` is present in `m` in both directions. */
  predicate LinkedBoth(m: LinkMaps, ids: IdMaps, rel: Relationship, a: Role, b: Role)
    requires a != b
  {
    && Linked(m, ids, rel, a, b)
    && IdsOf(ids, a)[rel.sourceRef] in ListAt(Table(m, b, a), IdsOf(ids, b)[rel.targetRef])
  }

  /** Every relationship between two resolved objects is linked, in both directions, after
      `parse_relationships`; together with `LinkAllKeeps`, the links are exactly mirrored. */
  lemma LinkAllComplete(m: LinkMaps, ids: IdMaps, rels: seq<Relationship>)
    requires LinksValid(m) && LinksInv(m, ids)
    ensures forall i, a, b :: 0 <= i < |rels| && a != b && Joins(ids, rels[i], a, b) ==>
      LinkedBoth(LinkAll(m, ids, rels), ids, rels[i], a, b)
  {
    LinkAllKeeps(m, ids, rels);
    var r := LinkAll(m, ids, rels);
    forall i, a, b | 0 <= i < |rels| && a != b && Joins(ids, rels[i], a, b)
      ensures LinkedBoth(r, ids, rels[i], a, b)
    {
      LinkAllLinks(m, ids, rels, i, a, b);
      var alpha, beta := IdsOf(ids, a)[rels[i].sourceRef], IdsOf(ids, b)[rels[i].targetRef];
      assert PairInv(Table(r, a, b), Table(r, b, a), IdsOf(ids, a), IdsOf(ids, b));
      assert beta in ListAt(Table(r, a, b), alpha) <==> alpha in ListAt(Table(r, b, a), beta);
    }
  }
}
