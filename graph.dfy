/**
 * An object-graph node as the node pairs read it: read-only data whose
 * construction from live objects is not part of this model.
 */
module Graph {
  import opened Wrappers
  import opened Metamodel

  /**
   * One snapshot of a domain object: its global id, its managed type, the values
   * of its properties, and the global ids of what its reference properties point
   * to. Properties are looked up by name; a name missing from `values` or from
   * `reference` reads as null, one missing from `references` as no references.
   */
  datatype ObjectNode = ObjectNode(
    globalId: GlobalId,
    managedType: ManagedType,
    values: map<string, Value>,
    reference: map<string, GlobalId>,
    references: map<string, seq<GlobalId>>
  )

  function GetPropertyValue(node: ObjectNode, p: Property): Value {
    if p.name in node.values then node.values[p.name] else Null
  }

  function GetReference(node: ObjectNode, p: Property): Option<GlobalId> {
    if p.name in node.reference then Some(node.reference[p.name]) else None
  }

  function GetReferences(node: ObjectNode, p: Property): seq<GlobalId> {
    if p.name in node.references then node.references[p.name] else []
  }
}
