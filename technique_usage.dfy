/** The relationship walk shared by the "bear" and software-execution layers
    (scripts/layers/samples/bear_APT.py:42-54, scripts/layers/samples/software_execution.py:29-41):
    for each relationship of an actor, skip non-technique targets and deprecated or revoked
    techniques, take the technique's first external ID and append the actor's name under it. */
module TechniqueUsage {
  import opened Wrappers
  import opened StixData
  import opened Text
  import opened OrderedDict

  /** A relationship visited on behalf of an actor, with the name recorded for that actor. */
  type Visit = (string, Relationship)

  /** `rel` makes technique `k` used: its target is a live technique whose first external ID is `k`. */
  predicate Contributes(rel: Relationship, store: Store, k: string)
  {
    && Contains(rel.targetRef, "attack-pattern")
    && rel.targetRef in store
    && !DeprecatedOrRevoked(store[rel.targetRef])
    && |store[rel.targetRef].externalRefs| > 0
    && store[rel.targetRef].externalRefs[0].externalId == k
  }

  /** `rel` crashes the script: its technique target is missing from the store, or is live
      and has no external references. */
  predicate Defective(rel: Relationship, store: Store)
  {
    && Contains(rel.targetRef, "attack-pattern")
    && (rel.targetRef !in store
        || (!DeprecatedOrRevoked(store[rel.targetRef]) && store[rel.targetRef].externalRefs == []))
  }

  /** The technique ID one relationship contributes, `None` when it is skipped. */
  function TechniqueIdOf(rel: Relationship, store: Store): (r: Result<Option<string>>)
    ensures r.Err? <==> Defective(rel, store)
    ensures forall k :: r == Ok(Some(k)) <==> Contributes(rel, store, k)
  {
    if !Contains(rel.targetRef, "attack-pattern") then Ok(None)
    else if rel.targetRef !in store then Err(MissingObject(rel.targetRef))
    else
      var technique := store[rel.targetRef];
      if DeprecatedOrRevoked(technique) then Ok(None)
      else if |technique.externalRefs| == 0 then Err(NoExternalReferences(technique.id))
      else Ok(Some(technique.externalRefs[0].externalId))
  }

  /** The dict `used` after visiting `visits` in order, or the exception that stopped the walk. */
  function Record(used: ODict<seq<string>>, visits: seq<Visit>, store: Store): (r: Result<ODict<seq<string>>>)
    requires Valid(used)
    ensures r.Ok? ==> Valid(r.value)
    decreases |visits|
  {
    if visits == [] then Ok(used)
    else
      var last := visits[|visits| - 1];
      match Record(used, visits[..|visits| - 1], store)
      case Err(e) => Err(e)
      case Ok(d) =>
        match TechniqueIdOf(last.1, store)
        case Err(e) => Err(e)
        case Ok(None) => Ok(d)
        case Ok(Some(k)) => Ok(Append(d, k, last.0))
  }

  /** The (technique ID, name) pairs the visits contribute, in visiting order. */
  function Contributions(visits: seq<Visit>, store: Store): seq<Pair>
    decreases |visits|
  {
    if visits == [] then []
    else
      var last := visits[|visits| - 1];
      Contributions(visits[..|visits| - 1], store)
        + match TechniqueIdOf(last.1, store)
          case Ok(Some(k)) => [(k, last.0)]
          case _ => []
  }

  /** The names of the visits that contribute technique `k`, in visiting order. */
  function UsesOf(visits: seq<Visit>, store: Store, k: string): seq<string>
    decreases |visits|
  {
    if visits == [] then []
    else
      var last := visits[|visits| - 1];
      UsesOf(visits[..|visits| - 1], store, k) + (if Contributes(last.1, store, k) then [last.0] else [])
  }

  /** `[(name, rel) for rel in rels]`: the visits of one actor. */
  function VisitsOf(name: string, rels: seq<Relationship>): (r: seq<Visit>)
    ensures |r| == |rels|
    ensures forall i :: 0 <= i < |rels| ==> r[i] == (name, rels[i])
  {
    seq(|rels|, i requires 0 <= i < |rels| => (name, rels[i]))
  }

  lemma {:induction false} RecordConcat(used: ODict<seq<string>>, a: seq<Visit>, b: seq<Visit>, store: Store)
    requires Valid(used)
    ensures Record(used, a + b, store) ==
      match Record(used, a, store)
      case Err(e) => Err(e)
      case Ok(d) => Record(d, b, store)
    decreases |b|
  {
    if b == [] {
      assert a + b == a;
    } else {
      var b' := b[..|b| - 1];
      assert (a + b)[..|a + b| - 1] == a + b';
      assert (a + b)[|a + b| - 1] == b[|b| - 1];
      RecordConcat(used, a, b', store);
      match Record(used, a, store)
      case Err(e) =>
      case Ok(d) =>
        assert d == Record(used, a, store).value;
    }
  }

  /** No visited relationship is defective. */
  predicate NoneDefective(visits: seq<Visit>, store: Store)
  {
    forall i :: 0 <= i < |visits| ==> !Defective(visits[i].1, store)
  }

  lemma NoneDefectiveSnoc(visits: seq<Visit>, store: Store)
    requires visits != []
    ensures NoneDefective(visits, store) <==>
      NoneDefective(visits[..|visits| - 1], store) && !Defective(visits[|visits| - 1].1, store)
  {
    var init := visits[..|visits| - 1];
    if NoneDefective(init, store) && !Defective(visits[|visits| - 1].1, store) {
      forall i | 0 <= i < |visits| ensures !Defective(visits[i].1, store) {
        if i < |init| { assert visits[i] == init[i]; }
      }
    }
    if NoneDefective(visits, store) {
      forall i | 0 <= i < |init| ensures !Defective(init[i].1, store) {
        assert visits[i] == init[i];
      }
    }
  }

  lemma {:induction false} RecordOk(used: ODict<seq<string>>, visits: seq<Visit>, store: Store)
    requires Valid(used)
    ensures Record(used, visits, store).Ok? <==> forall i :: 0 <= i < |visits| ==> !Defective(visits[i].1, store)
    ensures Record(used, visits, store).Ok? ==> Record(used, visits, store).value == AppendAll(used, Contributions(visits, store))
    decreases |visits|
  {
    if visits != [] {
      var init, last := visits[..|visits| - 1], visits[|visits| - 1];
      RecordOk(used, init, store);
      NoneDefectiveSnoc(visits, store);
      var c := Contributions(init, store);
      match TechniqueIdOf(last.1, store)
      case Err(_) =>
      case Ok(None) =>
        assert Contributions(visits, store) == c + [];
        assert c + [] == c;
      case Ok(Some(k)) =>
        assert Contributions(visits, store) == c + [(k, last.0)];
        assert (c + [(k, last.0)])[..|c|] == c;
    }
  }

  lemma {:induction false} ContributionsUses(visits: seq<Visit>, store: Store, k: string)
    ensures ValuesFor(Contributions(visits, store), k) == UsesOf(visits, store, k)
    decreases |visits|
  {
    if visits != [] {
      var init, last := visits[..|visits| - 1], visits[|visits| - 1];
      var c := Contributions(init, store);
      ContributionsUses(init, store, k);
      match TechniqueIdOf(last.1, store)
      case Err(_) =>
        assert Contributions(visits, store) == c + [];
        assert c + [] == c;
      case Ok(None) =>
        assert Contributions(visits, store) == c + [];
        assert c + [] == c;
      case Ok(Some(k')) =>
        assert Contributions(visits, store) == c + [(k', last.0)];
        assert (c + [(k', last.0)])[..|c|] == c;
    }
  }

  lemma {:induction false} UsesOfNonEmpty(visits: seq<Visit>, store: Store, k: string)
    ensures UsesOf(visits, store, k) != [] <==> exists i :: 0 <= i < |visits| && Contributes(visits[i].1, store, k)
    decreases |visits|
  {
    if visits != [] {
      var init, last := visits[..|visits| - 1], visits[|visits| - 1];
      UsesOfNonEmpty(init, store, k);
      assert forall i :: 0 <= i < |init| ==> init[i] == visits[i];
      if UsesOf(init, store, k) == [] && !Contributes(last.1, store, k) {
        assert !exists i :: 0 <= i < |visits| && Contributes(visits[i].1, store, k) by {
          forall i | 0 <= i < |visits| ensures !Contributes(visits[i].1, store, k) {
            if i < |init| { assert visits[i] == init[i]; }
          }
        }
      }
    }
  }

  /** The whole walk from an empty dict: it fails exactly when some visited relationship is
      defective; otherwise it holds one entry per contributed technique ID, in first-seen order,
      whose list is the names of the contributing visits in order (one per visit, never empty). */
  lemma RecordSpec(visits: seq<Visit>, store: Store)
    ensures Record(Empty(), visits, store).Ok? <==> forall i :: 0 <= i < |visits| ==> !Defective(visits[i].1, store)
    ensures Record(Empty(), visits, store).Ok? ==>
      var d := Record(Empty(), visits, store).value;
      && d == Grouped(Contributions(visits, store))
      && d.keys == FirstSeen(Contributions(visits, store))
      && (forall k :: k in d.vals <==> exists i :: 0 <= i < |visits| && Contributes(visits[i].1, store, k))
      && (forall k :: k in d.vals ==> d.vals[k] == UsesOf(visits, store, k) != [])
  {
    RecordOk(Empty(), visits, store);
    var c := Contributions(visits, store);
    GroupedSpec(c);
    forall k ensures ValuesFor(c, k) == UsesOf(visits, store, k)
      && (UsesOf(visits, store, k) != [] <==> exists i :: 0 <= i < |visits| && Contributes(visits[i].1, store, k))
    {
      ContributionsUses(visits, store, k);
      UsesOfNonEmpty(visits, store, k);
    }
  }

  /** Visiting one more relationship of an actor. */
  lemma RecordStep(used: ODict<seq<string>>, name: string, rels: seq<Relationship>, j: nat, store: Store)
    requires Valid(used) && j < |rels|
    ensures Record(used, VisitsOf(name, rels[..j + 1]), store) ==
      match Record(used, VisitsOf(name, rels[..j]), store)
      case Err(e) => Err(e)
      case Ok(d) =>
        match TechniqueIdOf(rels[j], store)
        case Err(e) => Err(e)
        case Ok(None) => Ok(d)
        case Ok(Some(k)) => Ok(Append(d, k, name))
  {
    var visits := VisitsOf(name, rels[..j + 1]);
    assert visits[..j] == VisitsOf(name, rels[..j]);
    assert visits[j] == (name, rels[j]);
  }

  /** An exception at relationship `j` ends the walk of the whole actor with that exception. */
  lemma RecordStopped(used: ODict<seq<string>>, name: string, rels: seq<Relationship>, j: nat, store: Store)
    requires Valid(used) && j < |rels|
    requires Record(used, VisitsOf(name, rels[..j + 1]), store).Err?
    ensures Record(used, VisitsOf(name, rels), store) == Record(used, VisitsOf(name, rels[..j + 1]), store)
  {
    RecordConcat(used, VisitsOf(name, rels[..j + 1]), VisitsOf(name, rels[j + 1..]), store);
    assert VisitsOf(name, rels[..j + 1]) + VisitsOf(name, rels[j + 1..]) == VisitsOf(name, rels);
  }

  /** The inner loop of both scripts: visit each relationship of one actor in order. */
  method AddUsages(used: ODict<seq<string>>, name: string, rels: seq<Relationship>, store: Store)
    returns (r: Result<ODict<seq<string>>>)
    requires Valid(used)
    ensures r == Record(used, VisitsOf(name, rels), store)
  {
    var d := used;
    var j := 0;
    while j < |rels|
      invariant 0 <= j <= |rels|
      invariant Valid(d)
      invariant Record(used, VisitsOf(name, rels[..j]), store) == Ok(d)
    {
      RecordStep(used, name, rels, j, store);
      var techniqueId := TechniqueIdOf(rels[j], store);
      match techniqueId {
        case Err(e) =>
          RecordStopped(used, name, rels, j, store);
          return Err(e);
        case Ok(None) =>
        case Ok(Some(k)) =>
          d := Append(d, k, name);
      }
      j := j + 1;
    }
    assert rels[..j] == rels;
    r := Ok(d);
  }
}
