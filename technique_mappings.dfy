/** Mapping techniques to the groups, mitigations or software that use them, as rows of a
    spreadsheet: the query helpers' deprecation filter, external-ID lookup, newline escaping,
    row assembly, the final sort, and the choice of mapping and source name. */
module TechniqueMappings {
  import opened Wrappers
  import opened StixData
  import opened OrderedDict
  import opened StableSort
  import opened Seqs

  // ---------------------------------------------------------------- remove_deprecated

  /** An object survives the filter when both flags are absent or are the boolean False. */
  predicate Live(flags: (Flag, Flag))
  {
    IsFalse(flags.0) && IsFalse(flags.1)
  }

  function ObjectFlags(o: StixObject): (Flag, Flag)
  {
    (o.deprecated, o.revoked)
  }

  function RelationshipFlags(r: Relationship): (Flag, Flag)
  {
    (r.deprecated, r.revoked)
  }

  /** `remove_deprecated`: the live elements, in their original order. */
  function RemoveDeprecated<T(!new)>(xs: seq<T>, flagsOf: T -> (Flag, Flag)): (r: seq<T>)
    ensures forall x :: x in r <==> x in xs && Live(flagsOf(x))
    ensures |r| <= |xs|
    decreases |xs|
  {
    if xs == [] then []
    else (if Live(flagsOf(xs[0])) then [xs[0]] else []) + RemoveDeprecated(xs[1..], flagsOf)
  }

  /** Filtering distributes over concatenation, so the survivors keep their relative order. */
  lemma {:induction false} RemoveDeprecatedConcat<T(!new)>(a: seq<T>, b: seq<T>, flagsOf: T -> (Flag, Flag))
    ensures RemoveDeprecated(a + b, flagsOf) == RemoveDeprecated(a, flagsOf) + RemoveDeprecated(b, flagsOf)
    decreases |a|
  {
    if a != [] {
      var head := if Live(flagsOf(a[0])) then [a[0]] else [];
      calc {
        RemoveDeprecated(a + b, flagsOf);
        { assert (a + b)[0] == a[0] && (a + b)[1..] == a[1..] + b; }
        head + RemoveDeprecated(a[1..] + b, flagsOf);
        { RemoveDeprecatedConcat(a[1..], b, flagsOf); }
        head + (RemoveDeprecated(a[1..], flagsOf) + RemoveDeprecated(b, flagsOf));
      }
    } else {
      assert a + b == b;
    }
  }

  /** A second application removes nothing more. */
  lemma {:induction false} RemoveDeprecatedIdempotent<T(!new)>(xs: seq<T>, flagsOf: T -> (Flag, Flag))
    ensures RemoveDeprecated(RemoveDeprecated(xs, flagsOf), flagsOf) == RemoveDeprecated(xs, flagsOf)
    decreases |xs|
  {
    if xs != [] {
      var head := if Live(flagsOf(xs[0])) then [xs[0]] else [];
      RemoveDeprecatedIdempotent(xs[1..], flagsOf);
      RemoveDeprecatedConcat(head, RemoveDeprecated(xs[1..], flagsOf), flagsOf);
      if head != [] {
        assert head[1..] == [];
      }
    }
  }

  /** The filter uses `is False`: a flag holding any other falsy value (0, "", None) still
      drops the object, because only the boolean False itself passes. */
  lemma OtherFalsyDropped(o: StixObject)
    requires o.deprecated == Other(false) || o.revoked == Other(false)
    ensures RemoveDeprecated([o], ObjectFlags) == []
  {
    assert [o][1..] == [];
  }

  // ---------------------------------------------------------------- grab_external_id

  /** `grab_external_id`: the external ID of the first reference whose source name equals
      `sourceName`, or None when no reference has that source name. */
  function GrabExternalId(refs: seq<ExternalRef>, sourceName: string): (r: Option<string>)
    ensures r.None? <==> forall i :: 0 <= i < |refs| ==> refs[i].sourceName != Some(sourceName)
    ensures r.Some? ==> exists i :: 0 <= i < |refs| && refs[i].sourceName == Some(sourceName)
                                  && r.value == refs[i].externalId
                                  && forall j :: 0 <= j < i ==> refs[j].sourceName != Some(sourceName)
    decreases |refs|
  {
    if refs == [] then None
    else if refs[0].sourceName == Some(sourceName) then Some(refs[0].externalId)
    else
      var r := GrabExternalId(refs[1..], sourceName);
      assert forall i :: 0 < i < |refs| ==> refs[i] == refs[1..][i - 1];
      r
  }

  /** References after the first match never change the answer. */
  lemma {:induction false} GrabExternalIdFirst(a: seq<ExternalRef>, b: seq<ExternalRef>, sourceName: string)
    requires GrabExternalId(a, sourceName).Some?
    ensures GrabExternalId(a + b, sourceName) == GrabExternalId(a, sourceName)
    decreases |a|
  {
    if a[0].sourceName != Some(sourceName) {
      assert (a + b)[1..] == a[1..] + b;
      GrabExternalIdFirst(a[1..], b, sourceName);
    }
  }

  // ---------------------------------------------------------------- escape_chars

  /** The replacement for one character: a newline becomes backslash, backslash, `n`. */
  function EscapeChar(c: char): string
  {
    if c == '\n' then "\\\\n" else [c]
  }

  function NewlineCount(s: string): nat
    decreases |s|
  {
    if s == [] then 0 else (if s[0] == '\n' then 1 else 0) + NewlineCount(s[1..])
  }

  /** `escape_chars`: the string with every newline translated; the result has none left. */
  function EscapeChars(s: string): (r: string)
    ensures '\n' !in r
    ensures |r| == |s| + 2 * NewlineCount(s)
    decreases |s|
  {
    if s == [] then [] else EscapeChar(s[0]) + EscapeChars(s[1..])
  }

  /** Translation works character by character. */
  lemma {:induction false} EscapeCharsConcat(a: string, b: string)
    ensures EscapeChars(a + b) == EscapeChars(a) + EscapeChars(b)
    decreases |a|
  {
    if a != [] {
      calc {
        EscapeChars(a + b);
        { assert (a + b)[0] == a[0] && (a + b)[1..] == a[1..] + b; }
        EscapeChar(a[0]) + EscapeChars(a[1..] + b);
        { EscapeCharsConcat(a[1..], b); }
        EscapeChar(a[0]) + (EscapeChars(a[1..]) + EscapeChars(b));
      }
    } else {
      assert a + b == b;
    }
  }

  /** A string without newlines comes back unchanged. */
  lemma {:induction false} EscapeCharsUnchanged(s: string)
    requires '\n' !in s
    ensures EscapeChars(s) == s
    decreases |s|
  {
    if s != [] {
      assert s[0] in s;
      assert '\n' !in s[1..] by {
        forall k | 0 <= k < |s[1..]| ensures s[1..][k] != '\n' {
          assert s[1..][k] == s[k + 1];
        }
      }
      EscapeCharsUnchanged(s[1..]);
      assert s == [s[0]] + s[1..];
    }
  }

  // ---------------------------------------------------------------- rows

  /** `dict(zip(fieldnames, row_data))`. */
  type Row = map<string, Option<string>>

  /** `dict(zip(ks, vs))`: pairs up to the shorter length; a repeated key keeps its last value. */
  function Zip(ks: seq<string>, vs: seq<Option<string>>): (r: Row)
    ensures forall k :: k in r <==> exists i :: 0 <= i < |ks| && i < |vs| && ks[i] == k
    decreases |ks|
  {
    if ks == [] || vs == [] then map[]
    else
      var rest := Zip(ks[1..], vs[1..]);
      assert forall i :: 0 < i < |ks| && i < |vs| ==> ks[i] == ks[1..][i - 1];
      if ks[0] in rest then rest else rest[ks[0] := vs[0]]
  }

  /** With distinct field names, each one is paired with the value at its own position. */
  lemma {:induction false} ZipPositional(ks: seq<string>, vs: seq<Option<string>>, i: nat)
    requires Distinct(ks) && i < |ks| && i < |vs|
    ensures ks[i] in Zip(ks, vs) && Zip(ks, vs)[ks[i]] == vs[i]
    decreases |ks|
  {
    var rest := Zip(ks[1..], vs[1..]);
    assert Distinct(ks[1..]) by {
      forall a, b | 0 <= a < b < |ks[1..]| ensures ks[1..][a] != ks[1..][b] {
        assert ks[1..][a] == ks[a + 1] && ks[1..][b] == ks[b + 1];
      }
    }
    assert ks[0] !in rest by {
      forall j | 0 <= j < |ks[1..]| ensures ks[1..][j] != ks[0] {
        assert ks[1..][j] == ks[j + 1];
      }
    }
    if i > 0 {
      ZipPositional(ks[1..], vs[1..], i - 1);
      assert ks[1..][i - 1] == ks[i];
    }
  }

  /** The six values of one row: technique ID and name, the related object's ID, name and
      escaped description, and the escaped relationship description. */
  function RowValues(sourceName: string, ap: StixObject, obj: StixObject, rel: Relationship): (r: seq<Option<string>>)
    ensures |r| == 6
  {
    [GrabExternalId(ap.externalRefs, sourceName), Some(ap.name),
     GrabExternalId(obj.externalRefs, sourceName), Some(obj.name),
     Some(EscapeChars(obj.description)), Some(EscapeChars(rel.description))]
  }

  /** What one relationship contributes: a row built from the first live object the lookup
      returns, or nothing when the lookup returns none. */
  function RelationshipRows(fieldnames: seq<string>, sourceName: string, ap: StixObject, rel: Relationship,
                            objectsFor: string -> seq<StixObject>): (r: seq<Row>)
    ensures |r| <= 1
  {
    var results := RemoveDeprecated(objectsFor(rel.sourceRef), ObjectFlags);
    if results == [] then [] else [Zip(fieldnames, RowValues(sourceName, ap, results[0], rel))]
  }

  /** The rows of one technique, over its relationships in order. */
  function TechniqueRows(fieldnames: seq<string>, sourceName: string, ap: StixObject, rels: seq<Relationship>,
                         objectsFor: string -> seq<StixObject>): seq<Row>
  {
    ConcatMap(rels, rel => RelationshipRows(fieldnames, sourceName, ap, rel, objectsFor))
  }

  /** The rows collected over the techniques in order, before sorting: each technique's
      relationships pass through `remove_deprecated` first. */
  function CollectedRows(fieldnames: seq<string>, sourceName: string, aps: seq<StixObject>,
                         relationshipsFor: string -> seq<Relationship>,
                         objectsFor: string -> seq<StixObject>): seq<Row>
  {
    ConcatMap(aps, (ap: StixObject) => TechniqueRows(fieldnames, sourceName, ap,
                                       RemoveDeprecated(relationshipsFor(ap.id), RelationshipFlags), objectsFor))
  }

  /** `row` is what relationship `rel` of technique `ap` yields: the lookup by the
      relationship's source found a live object and the row is built from the first one. */
  predicate Emits(fieldnames: seq<string>, sourceName: string, row: Row, ap: StixObject, rel: Relationship,
                  objectsFor: string -> seq<StixObject>)
  {
    var results := RemoveDeprecated(objectsFor(rel.sourceRef), ObjectFlags);
    results != [] && row == Zip(fieldnames, RowValues(sourceName, ap, results[0], rel))
  }

  /** Some live relationship targeting `ap` yields `row`. */
  predicate EmittedBy(fieldnames: seq<string>, sourceName: string, row: Row, ap: StixObject,
                      relationshipsFor: string -> seq<Relationship>, objectsFor: string -> seq<StixObject>)
  {
    exists rel :: rel in relationshipsFor(ap.id) && Live(RelationshipFlags(rel))
                  && Emits(fieldnames, sourceName, row, ap, rel, objectsFor)
  }

  lemma TechniqueRowsMember(fieldnames: seq<string>, sourceName: string, ap: StixObject,
                            rels: seq<Relationship>, objectsFor: string -> seq<StixObject>, row: Row)
    ensures row in TechniqueRows(fieldnames, sourceName, ap, rels, objectsFor)
            <==> exists rel :: rel in rels && Emits(fieldnames, sourceName, row, ap, rel, objectsFor)
  {
    var f := rel => RelationshipRows(fieldnames, sourceName, ap, rel, objectsFor);
    ConcatMapMember(rels, f, row);
    forall rel ensures row in f(rel) <==> Emits(fieldnames, sourceName, row, ap, rel, objectsFor) {
    }
  }

  /** A row is collected exactly when some live technique has a live relationship whose
      lookup yields that row: deprecated or revoked techniques, relationships and objects
      never contribute. */
  lemma CollectedRowsMember(fieldnames: seq<string>, sourceName: string, aps: seq<StixObject>,
                            relationshipsFor: string -> seq<Relationship>,
                            objectsFor: string -> seq<StixObject>, row: Row)
    ensures row in CollectedRows(fieldnames, sourceName, RemoveDeprecated(aps, ObjectFlags), relationshipsFor, objectsFor)
            <==> exists ap :: ap in aps && Live(ObjectFlags(ap))
                              && EmittedBy(fieldnames, sourceName, row, ap, relationshipsFor, objectsFor)
  {
    var live := RemoveDeprecated(aps, ObjectFlags);
    var f := (ap: StixObject) => TechniqueRows(fieldnames, sourceName, ap,
                                 RemoveDeprecated(relationshipsFor(ap.id), RelationshipFlags), objectsFor);
    ConcatMapMember(live, f, row);
    forall ap ensures row in f(ap) <==> EmittedBy(fieldnames, sourceName, row, ap, relationshipsFor, objectsFor) {
      TechniqueRowsMember(fieldnames, sourceName, ap, RemoveDeprecated(relationshipsFor(ap.id), RelationshipFlags),
                          objectsFor, row);
    }
  }

  // ---------------------------------------------------------------- sorting

  /** `row[k]` when it is present and not None. */
  predicate HasValue(row: Row, k: string)
  {
    k in row && row[k].Some?
  }

  function ValueAt(row: Row, k: string): string
  {
    if HasValue(row, k) then row[k].value else ""
  }

  /** The sort key `(x[sorting_keys[0]], x[sorting_keys[1]])`. */
  function SortKey(keys: (string, string)): Row -> Key
  {
    row => (ValueAt(row, keys.0), ValueAt(row, keys.1))
  }

  predicate Keyed(rows: seq<Row>, keys: (string, string))
  {
    forall row :: row in rows ==> HasValue(row, keys.0) && HasValue(row, keys.1)
  }

  /** `main`'s per-mapping parameters. */
  datatype Mapping = Mapping(
    filename: string,
    fieldnames: seq<string>,
    relationshipType: string,
    typeFilter: string,
    sortingKeys: (string, string))

  // ---------------------------------------------------------------- do_mapping

  /** The rows of one technique, appended one relationship at a time. */
  method AppendTechniqueRows(fieldnames: seq<string>, sourceName: string, ap: StixObject, rels: seq<Relationship>,
                             objectsFor: string -> seq<StixObject>, rows: seq<Row>) returns (out: seq<Row>)
    ensures out == rows + TechniqueRows(fieldnames, sourceName, ap, rels, objectsFor)
  {
    out := rows;
    var j := 0;
    while j < |rels|
      invariant 0 <= j <= |rels|
      invariant out == rows + TechniqueRows(fieldnames, sourceName, ap, rels[..j], objectsFor)
    {
      var rel := rels[j];
      var stixResults := RemoveDeprecated(objectsFor(rel.sourceRef), ObjectFlags);
      assert rels[..j + 1][..j] == rels[..j];
      assert TechniqueRows(fieldnames, sourceName, ap, rels[..j + 1], objectsFor)
          == TechniqueRows(fieldnames, sourceName, ap, rels[..j], objectsFor)
             + RelationshipRows(fieldnames, sourceName, ap, rel, objectsFor);
      if stixResults != [] {
        var rowData := RowValues(sourceName, ap, stixResults[0], rel);
        out := out + [Zip(fieldnames, rowData)];
      }
      j := j + 1;
    }
    assert rels[..j] == rels;
  }

  /** `do_mapping` over the query results it would obtain: `techniques` is the technique query,
      `relationshipsFor(id)` the relationships whose target is `id`, and `objectsFor(ref)` the
      objects of the mapping's type with ID `ref`; each passes through `remove_deprecated`.
      The collected rows come back sorted, stably, by the two sort keys. */
  method DoMapping(fieldnames: seq<string>, sourceName: string, sortingKeys: (string, string),
                   techniques: seq<StixObject>, relationshipsFor: string -> seq<Relationship>,
                   objectsFor: string -> seq<StixObject>) returns (rows: seq<Row>)
    requires Keyed(CollectedRows(fieldnames, sourceName, RemoveDeprecated(techniques, ObjectFlags),
                                 relationshipsFor, objectsFor), sortingKeys)
    ensures rows == SortBy(CollectedRows(fieldnames, sourceName, RemoveDeprecated(techniques, ObjectFlags),
                                         relationshipsFor, objectsFor), SortKey(sortingKeys))
    ensures multiset(rows) == multiset(CollectedRows(fieldnames, sourceName, RemoveDeprecated(techniques, ObjectFlags),
                                                     relationshipsFor, objectsFor))
    ensures SortedBy(rows, SortKey(sortingKeys))
  {
    var allAttackPatterns := RemoveDeprecated(techniques, ObjectFlags);
    var writableResults := [];
    var i := 0;
    while i < |allAttackPatterns|
      invariant 0 <= i <= |allAttackPatterns|
      invariant writableResults == CollectedRows(fieldnames, sourceName, allAttackPatterns[..i], relationshipsFor, objectsFor)
    {
      var ap := allAttackPatterns[i];
      var relationships := RemoveDeprecated(relationshipsFor(ap.id), RelationshipFlags);
      assert allAttackPatterns[..i + 1][..i] == allAttackPatterns[..i];
      assert CollectedRows(fieldnames, sourceName, allAttackPatterns[..i + 1], relationshipsFor, objectsFor)
          == CollectedRows(fieldnames, sourceName, allAttackPatterns[..i], relationshipsFor, objectsFor)
             + TechniqueRows(fieldnames, sourceName, ap, relationships, objectsFor);
      writableResults := AppendTechniqueRows(fieldnames, sourceName, ap, relationships, objectsFor, writableResults);
      i := i + 1;
    }
    assert allAttackPatterns[..i] == allAttackPatterns;
    rows := SortBy(writableResults, SortKey(sortingKeys));
    SortBySorted(writableResults, SortKey(sortingKeys));
  }

  /** On ties, sorted rows keep the order in which they were collected. */
  lemma DoMappingStable(fieldnames: seq<string>, sourceName: string, sortingKeys: (string, string),
                        techniques: seq<StixObject>, relationshipsFor: string -> seq<Relationship>,
                        objectsFor: string -> seq<StixObject>, k: Key)
    ensures var collected := CollectedRows(fieldnames, sourceName, RemoveDeprecated(techniques, ObjectFlags),
                                           relationshipsFor, objectsFor);
            WithKey(SortBy(collected, SortKey(sortingKeys)), SortKey(sortingKeys), k)
            == WithKey(collected, SortKey(sortingKeys), k)
  {
    var collected := CollectedRows(fieldnames, sourceName, RemoveDeprecated(techniques, ObjectFlags),
                                   relationshipsFor, objectsFor);
    SortByStable(collected, SortKey(sortingKeys), k);
  }

  // ---------------------------------------------------------------- main's configuration

  /** `source_map[domain]`; an unknown domain raises KeyError. */
  function SourceName(domain: string): (r: Result<string>)
    ensures r.Ok? <==> domain == "enterprise_attack" || domain == "mobile_attack"
    ensures r.Err? ==> r.failure == UnknownDomain(domain)
    ensures r.Ok? ==> (r.value == "mitre-attack" <==> domain == "enterprise_attack")
                      && (r.value == "mitre-mobile-attack" <==> domain == "mobile_attack")
  {
    if domain == "enterprise_attack" then Ok("mitre-attack")
    else if domain == "mobile_attack" then Ok("mitre-mobile-attack")
    else Err(UnknownDomain(domain))
  }

  /** `args.save or default`: an absent or empty name falls back to the default. */
  function OutputName(save: Option<string>, default: string): string
  {
    if save.Some? && save.value != "" then save.value else default
  }

  /** The parameters `main` passes to `do_mapping` for a mapping type; any other type
      raises RuntimeError. */
  function MappingFor(op: string, save: Option<string>): (r: Result<Mapping>)
    ensures r.Ok? <==> op in {"groups", "mitigations", "software"}
    ensures r.Err? ==> r.failure == UnknownOption(op)
    ensures r.Ok? ==> r.value.filename == OutputName(save, op + ".csv")
    ensures r.Ok? ==> |r.value.fieldnames| == 6 && Distinct(r.value.fieldnames)
                      && r.value.sortingKeys == (r.value.fieldnames[0], r.value.fieldnames[2])
                      && r.value.fieldnames[0] == "TID" && r.value.fieldnames[1] == "Technique Name"
                      && r.value.fieldnames[2] == (if op == "groups" then "GID" else if op == "mitigations" then "MID" else "SID")
    ensures r.Ok? ==> (r.value.relationshipType == "mitigates" <==> op == "mitigations")
                      && (r.value.relationshipType == "uses" <==> op != "mitigations")
    ensures r.Ok? ==> (r.value.typeFilter == "intrusion-set" <==> op == "groups")
                      && (r.value.typeFilter == "course-of-action" <==> op == "mitigations")
                      && (r.value.typeFilter == "malware" <==> op == "software")
  {
    if op == "groups" then
      Ok(Mapping(OutputName(save, "groups.csv"),
                 ["TID", "Technique Name", "GID", "Group Name", "Group Description", "Usage"],
                 "uses", "intrusion-set", ("TID", "GID")))
    else if op == "mitigations" then
      Ok(Mapping(OutputName(save, "mitigations.csv"),
                 ["TID", "Technique Name", "MID", "Mitigation Name", "Mitigation Description", "Application"],
                 "mitigates", "course-of-action", ("TID", "MID")))
    else if op == "software" then
      Ok(Mapping(OutputName(save, "software.csv"),
                 ["TID", "Technique Name", "SID", "Software Name", "Software Description", "Use"],
                 "uses", "malware", ("TID", "SID")))
    else Err(UnknownOption(op))
  }

  /** `main` up to the call of `do_mapping`: the domain is looked up before the mapping type
      is examined, so an unknown domain is reported even when the type is unknown too. */
  function Setup(domain: string, op: string, save: Option<string>): (r: Result<(string, Mapping)>)
    ensures SourceName(domain).Err? ==> r == Err(UnknownDomain(domain))
    ensures SourceName(domain).Ok? && MappingFor(op, save).Err? ==> r == Err(UnknownOption(op))
    ensures r.Ok? <==> SourceName(domain).Ok? && MappingFor(op, save).Ok?
  {
    match SourceName(domain)
    case Err(e) => Err(e)
    case Ok(sourceName) =>
      match MappingFor(op, save)
      case Err(e) => Err(e)
      case Ok(m) => Ok((sourceName, m))
  }

  /** Every row `do_mapping` collects under a configured mapping has its sort-key columns
      present, and the technique's columns hold the technique's ID and name. */
  lemma MappingRowColumns(op: string, save: Option<string>, sourceName: string, ap: StixObject,
                          obj: StixObject, rel: Relationship)
    requires MappingFor(op, save).Ok?
    ensures var m := MappingFor(op, save).value;
            var row := Zip(m.fieldnames, RowValues(sourceName, ap, obj, rel));
            m.sortingKeys.0 in row && m.sortingKeys.1 in row
            && row["TID"] == GrabExternalId(ap.externalRefs, sourceName)
            && row["Technique Name"] == Some(ap.name)
            && row[m.sortingKeys.1] == GrabExternalId(obj.externalRefs, sourceName)
  {
    var m := MappingFor(op, save).value;
    var vs := RowValues(sourceName, ap, obj, rel);
    ZipPositional(m.fieldnames, vs, 0);
    ZipPositional(m.fieldnames, vs, 1);
    ZipPositional(m.fieldnames, vs, 2);
  }
}
