/** Option and Result wrappers, and the STIX records that the ATT&CK scripts read. */
module Wrappers {

  datatype Option<+T> = None | Some(value: T)

  /** The exceptions the scripts can raise while transforming data. */
  datatype Failure =
    | MissingObject(ref: string)             // `ms.get(ref)` gave None and the next access raised TypeError
    | NoExternalReferences(objectId: string) // `external_references[0]` raised IndexError
    | UnknownOption(op: string)              // RuntimeError for an unknown mapping type
    | UnknownDomain(domain: string)          // KeyError in the domain -> source-name table

  datatype Result<+T> = Ok(value: T) | Err(failure: Failure)
}

module StixData {
  import opened Wrappers

  /** A STIX flag such as `x_mitre_deprecated` or `revoked`: absent, a boolean,
      or some other JSON value, of which only its Python truthiness matters. */
  datatype Flag = Unset | Bool(b: bool) | Other(truthy: bool)

  /** `"flag" in obj and obj["flag"]`, the test the layer scripts use. */
  predicate Truthy(f: Flag)
  {
    match f
    case Unset => false
    case Bool(b) => b
    case Other(t) => t
  }

  /** `obj.get("flag", False) is False`: absent, or the boolean False itself. */
  predicate IsFalse(f: Flag)
  {
    f == Unset || f == Bool(false)
  }

  datatype ExternalRef = ExternalRef(sourceName: Option<string>, externalId: string)

  /** The fields of a STIX domain object (technique, group, software, ...) the core reads. */
  datatype StixObject = StixObject(
    id: string,
    typ: string,
    name: string,
    description: string,
    aliases: seq<string>,
    deprecated: Flag,
    revoked: Flag,
    externalRefs: seq<ExternalRef>,
    dataSources: Option<seq<string>>)

  /** A STIX relationship object. */
  datatype Relationship = Relationship(
    sourceRef: string,
    targetRef: string,
    description: string,
    deprecated: Flag,
    revoked: Flag)

  /** The `MemoryStore`, looked up by `ms.get(id)`. */
  type Store = map<string, StixObject>

  /** The layer scripts' skip test for deprecated or revoked objects. */
  predicate DeprecatedOrRevoked(o: StixObject)
  {
    Truthy(o.deprecated) || Truthy(o.revoked)
  }

  /** The relationships `ms.relationships(id)` yields that start at `id`, in store order. */
  function RelationshipsOf(rels: seq<Relationship>, id: string): (r: seq<Relationship>)
    ensures forall x :: x in r <==> x in rels && x.sourceRef == id
    ensures |r| <= |rels|
  {
    if rels == [] then []
    else if rels[0].sourceRef == id then [rels[0]] + RelationshipsOf(rels[1..], id)
    else RelationshipsOf(rels[1..], id)
  }
}
