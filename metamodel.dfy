/**
 * The part of the type metamodel that the id factory and the node pairs read:
 * type descriptors, runtime values, the kinds of managed types, entity types and
 * the registry that maps an entity-typed id to its id entity. Everything here is
 * read-only data supplied by the type registry.
 */
module Metamodel {

  type TypeName = string

  /** A reflective type descriptor (java.lang.reflect.Type), known only by its name. */
  datatype TypeDescriptor = TypeDescriptor(typeName: string)

  /** The descriptor of java.lang.String. */
  const StringClass: TypeDescriptor := TypeDescriptor("java.lang.String")

  /**
   * A runtime value (a Java Object): null, a java.lang.String, or any other
   * instance, known only by an opaque handle.
   */
  datatype Value = Null | Str(chars: string) | Instance(handle: nat)

  /**
   * The closed set of kinds a managed type can have. Every type that is not an
   * entity, a value object or a primitive/value type (collections, maps, arrays,
   * optionals, ...) has the kind OtherKind.
   */
  datatype TypeKind = EntityKind | ValueObjectKind | PrimitiveOrValueKind | OtherKind

  /** A managed type: its kind and its name. An entity kind names an entry of the registry. */
  datatype JaversType = JaversType(kind: TypeKind, name: TypeName)

  /** An entity type together with what it says about its id property. */
  datatype EntityType = EntityType(
    name: TypeName,                       // getName()
    baseJavaClassName: string,            // getBaseJavaClass().getName()
    idPropertyType: JaversType,           // getIdProperty().getType()
    idPropertyGenericType: TypeDescriptor // getIdPropertyGenericType()
  )

  /** A declared property: its name, its declared generic type and its managed type. */
  datatype Property = Property(name: string, genericType: TypeDescriptor, propertyType: JaversType)

  /** A managed type with its properties in declaration order. */
  datatype ManagedType = ManagedType(name: TypeName, properties: seq<Property>)

  /** The global id of an entity instance: owner type name, dehydrated local id and its string form. */
  datatype InstanceId = InstanceId(typeName: TypeName, dehydratedLocalId: Value, localIdAsString: string)

  /** A global id: an entity instance id, or an id of another kind (not part of this model). */
  datatype GlobalId = InstanceGlobalId(instanceId: InstanceId) | OtherGlobalId(typeName: TypeName, value: string)

  /**
   * The metamodel as the id factory sees it: the registry of entity types by name,
   * and the behaviour of the type objects and of Object.toString, whose internals
   * are not part of this model.
   */
  datatype Metamodel = Metamodel(
    entities: map<TypeName, EntityType>,
    getIdOf: (EntityType, Value) -> Value,         // EntityType.getIdOf
    smartToString: (JaversType, Value) -> string,  // JaversType.smartToString
    objectToString: nat -> string                  // Object.toString of a non-String instance
  )

  /** The id property of `e` is itself an entity, and that entity is registered. */
  predicate HasIdEntity(m: Metamodel, e: EntityType) {
    e.idPropertyType.kind == EntityKind && e.idPropertyType.name in m.entities
  }

  /** The entity type of `e`'s id property (getIdPropertyType() on an entity-typed id). */
  function IdEntityType(m: Metamodel, e: EntityType): EntityType
    requires HasIdEntity(m, e)
  {
    m.entities[e.idPropertyType.name]
  }

  /**
   * Following entity-typed ids from `e` reaches, after exactly `n` steps through
   * registered entities, an entity whose id is not an entity.
   */
  ghost predicate IdChain(m: Metamodel, e: EntityType, n: nat)
    decreases n
  {
    if e.idPropertyType.kind == EntityKind then
      n > 0 && HasIdEntity(m, e) && IdChain(m, IdEntityType(m, e), n - 1)
    else
      n == 0
  }

  /**
   * The id chain from `e` is finite: the well-formedness the metamodel must
   * guarantee; the id factory relies on it and does not check it.
   */
  ghost predicate Acyclic(m: Metamodel, e: EntityType) {
    exists n: nat :: IdChain(m, e, n)
  }

  /** The id chain has one length only. */
  lemma {:induction false} IdChainUnique(m: Metamodel, e: EntityType, n: nat, k: nat)
    requires IdChain(m, e, n) && IdChain(m, e, k)
    ensures n == k
    decreases n
  {
    if e.idPropertyType.kind == EntityKind {
      IdChainUnique(m, IdEntityType(m, e), n - 1, k - 1);
    }
  }

  /** The length of the id chain from `e`: the measure on which the id factories recurse. */
  ghost function Depth(m: Metamodel, e: EntityType): (n: nat)
    requires Acyclic(m, e)
    ensures IdChain(m, e, n)
  {
    var n: nat :| IdChain(m, e, n); n
  }

  /** An entity-typed id leads to a registered id entity whose chain is strictly shorter. */
  lemma DepthStep(m: Metamodel, e: EntityType)
    requires Acyclic(m, e) && e.idPropertyType.kind == EntityKind
    ensures HasIdEntity(m, e)
    ensures Acyclic(m, IdEntityType(m, e))
    ensures Depth(m, IdEntityType(m, e)) == Depth(m, e) - 1
  {
    var n := Depth(m, e);
    var f := IdEntityType(m, e);
    assert IdChain(m, f, n - 1);
    IdChainUnique(m, f, n - 1, Depth(m, f));
  }

  /** The last entity of the id chain from `e`: the first one whose id is not an entity. */
  function TerminalEntity(m: Metamodel, e: EntityType): (t: EntityType)
    requires Acyclic(m, e)
    ensures t.idPropertyType.kind != EntityKind
    ensures Acyclic(m, t)
    decreases Depth(m, e)
  {
    if e.idPropertyType.kind == EntityKind then
      DepthStep(m, e);
      TerminalEntity(m, IdEntityType(m, e))
    else
      e
  }
}
