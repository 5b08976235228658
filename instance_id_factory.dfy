/**
 * The instance-id factory of an entity type: it builds the canonical InstanceId
 * of an entity instance from its local id, or from a local id that is already
 * dehydrated. A factory is identified by the metamodel `m` and its entity type
 * `e`; every operation dispatches on the kind of `e`'s id property type.
 */
module InstanceIdFactory {
  import opened Wrappers
  import opened Exceptions
  import opened Metamodel

  // ---------------------------------------------------------------------------
  // Classifiers of the id property's type
  // ---------------------------------------------------------------------------

  predicate IsIdEntity(e: EntityType)
    ensures IsIdEntity(e) <==> e.idPropertyType.kind == EntityKind
  {
    e.idPropertyType.kind == EntityKind
  }

  predicate IsIdValueObject(e: EntityType)
    ensures IsIdValueObject(e) <==> e.idPropertyType.kind == ValueObjectKind
  {
    e.idPropertyType.kind == ValueObjectKind
  }

  predicate IsIdPrimitiveOrValue(e: EntityType)
    ensures IsIdPrimitiveOrValue(e) <==> e.idPropertyType.kind == PrimitiveOrValueKind
  {
    e.idPropertyType.kind == PrimitiveOrValueKind
  }

  /** One of the three classifiers holds: the factory can handle `e`'s id. */
  predicate IsIdSupported(e: EntityType) {
    IsIdEntity(e) || IsIdValueObject(e) || IsIdPrimitiveOrValue(e)
  }

  /** The classifiers are mutually exclusive and cover exactly the supported kinds. */
  lemma ClassifiersPartitionKinds(e: EntityType)
    ensures !(IsIdEntity(e) && IsIdValueObject(e))
    ensures !(IsIdEntity(e) && IsIdPrimitiveOrValue(e))
    ensures !(IsIdValueObject(e) && IsIdPrimitiveOrValue(e))
    ensures IsIdSupported(e) <==> e.idPropertyType.kind != OtherKind
  {
  }

  /**
   * An entity-typed id names a registered entity: all that the non-recursive
   * operations need of the metamodel. Unlike `Acyclic`, it also holds of cyclic
   * metamodels.
   */
  predicate IdEntityResolvable(m: Metamodel, e: EntityType) {
    IsIdEntity(e) ==> HasIdEntity(m, e)
  }

  /** The failure raised for an id type outside the supported kinds. */
  function IdTypeNotSupportedFailure(e: EntityType): (f: Failure)
    ensures f.JaversException? && f.code == IdTypeNotSupported
    ensures f.args == [e.idPropertyType.name, e.baseJavaClassName]
  {
    JaversException(IdTypeNotSupported, [e.idPropertyType.name, e.baseJavaClassName])
  }

  /** Object.toString: the identity on strings, a failure on null. */
  function ToString(m: Metamodel, v: Value): (r: Outcome<string>)
    ensures r.Err? <==> v == Null
    ensures v.Str? ==> r == Ok(v.chars)
  {
    match v
    case Null => Err(NullPointer)
    case Str(s) => Ok(s)
    case Instance(h) => Ok(m.objectToString(h))
  }

  // ---------------------------------------------------------------------------
  // The operations of the factory
  // ---------------------------------------------------------------------------

  /** The string form of a dehydrated id for an entity whose id is not an entity. */
  function NonEntityIdAsString(m: Metamodel, e: EntityType, dehydratedLocalId: Value): (r: Outcome<string>)
    requires !IsIdEntity(e)
    ensures !IsIdSupported(e) ==> r == Err(IdTypeNotSupportedFailure(e))
    ensures r.Ok? <==> IsIdSupported(e) && !(IsIdValueObject(e) && dehydratedLocalId == Null)
    ensures r.Err? && IsIdSupported(e) ==> r.error == NullPointer
  {
    if IsIdValueObject(e) then
      ToString(m, dehydratedLocalId)
    else if IsIdPrimitiveOrValue(e) then
      Ok(m.smartToString(e.idPropertyType, dehydratedLocalId))
    else
      Err(IdTypeNotSupportedFailure(e))
  }

  /**
   * The string form of a dehydrated local id. An entity-typed id is handed to
   * the id entity's own factory; the recursion ends because the id chain is
   * acyclic. The only failures are an unsupported id type at the end of the id
   * chain, or a null value-object id.
   */
  function LocalIdAsString(m: Metamodel, e: EntityType, dehydratedLocalId: Value): (r: Outcome<string>)
    requires Acyclic(m, e)
    ensures r.Err? ==> r.error == IdTypeNotSupportedFailure(TerminalEntity(m, e)) || r.error == NullPointer
    ensures r.Err? && r.error != NullPointer ==> !IsIdSupported(TerminalEntity(m, e))
    decreases Depth(m, e)
  {
    if IsIdEntity(e) then
      DepthStep(m, e);
      LocalIdAsString(m, IdEntityType(m, e), dehydratedLocalId)
    else
      NonEntityIdAsString(m, e, dehydratedLocalId)
  }

  /**
   * The type descriptor a dehydrated local id has. For an entity-typed id it is
   * the id entity's own id generic type: one step down the id chain, not its end.
   */
  function GetLocalIdDehydratedType(m: Metamodel, e: EntityType): (r: Outcome<TypeDescriptor>)
    requires IdEntityResolvable(m, e)
    ensures r.Ok? <==> IsIdSupported(e)
    ensures r.Err? ==> r.error == IdTypeNotSupportedFailure(e)
  {
    if IsIdEntity(e) then
      Ok(IdEntityType(m, e).idPropertyGenericType)
    else if IsIdValueObject(e) then
      Ok(StringClass)
    else if IsIdPrimitiveOrValue(e) then
      Ok(e.idPropertyGenericType)
    else
      Err(IdTypeNotSupportedFailure(e))
  }

  /**
   * The dehydrated form of a local id: an entity-typed id is replaced by that
   * entity's id (one getIdOf step), a value-object id by its smartToString, and a
   * primitive id is kept as it is.
   */
  function DehydratedLocalId(m: Metamodel, e: EntityType, localId: Value): (r: Outcome<Value>)
    requires IdEntityResolvable(m, e)
    ensures r.Ok? <==> IsIdSupported(e)
    ensures r.Err? ==> r.error == IdTypeNotSupportedFailure(e)
    ensures IsIdPrimitiveOrValue(e) ==> r == Ok(localId)
    ensures IsIdValueObject(e) ==> r.Ok? && r.value.Str?
  {
    if IsIdEntity(e) then
      Ok(m.getIdOf(IdEntityType(m, e), localId))
    else if IsIdValueObject(e) then
      Ok(Str(m.smartToString(e.idPropertyType, localId)))
    else if IsIdPrimitiveOrValue(e) then
      Ok(localId)
    else
      Err(IdTypeNotSupportedFailure(e))
  }

  /**
   * The InstanceId of an instance of `e` with local id `localId`. A null local id
   * is rejected first; otherwise the id carries `e`'s name, the dehydrated local
   * id and that id's string form, and the failures are exactly those of
   * dehydration and of stringification, in that order.
   */
  function Create(m: Metamodel, e: EntityType, localId: Value): (r: Outcome<InstanceId>)
    requires Acyclic(m, e)
    ensures localId == Null ==> r == Err(NullArgument)
    ensures localId != Null && !IsIdSupported(e) ==> r == Err(IdTypeNotSupportedFailure(e))
    ensures r.Ok? ==> r.value.typeName == e.name
    ensures r.Ok? ==> DehydratedLocalId(m, e, localId) == Ok(r.value.dehydratedLocalId)
    ensures r.Ok? ==> LocalIdAsString(m, e, r.value.dehydratedLocalId) == Ok(r.value.localIdAsString)
    ensures r.Err? && localId != Null && IsIdSupported(e) ==>
      LocalIdAsString(m, e, DehydratedLocalId(m, e, localId).value) == Err(r.error)
  {
    if localId == Null then
      Err(NullArgument)
    else
      match DehydratedLocalId(m, e, localId)
      case Err(f) => Err(f)
      case Ok(dehydrated) =>
        match LocalIdAsString(m, e, dehydrated)
        case Err(f) => Err(f)
        case Ok(s) => Ok(InstanceId(e.name, dehydrated, s))
  }

  /**
   * The InstanceId of an instance of `e` whose local id is already dehydrated.
   * A null id is rejected first; otherwise the id carries `e`'s name, the given
   * id unchanged, and its string form.
   */
  function CreateFromDehydratedLocalId(m: Metamodel, e: EntityType, dehydratedLocalId: Value): (r: Outcome<InstanceId>)
    requires Acyclic(m, e)
    ensures dehydratedLocalId == Null ==> r == Err(NullArgument)
    ensures r.Ok? ==> r.value.typeName == e.name && r.value.dehydratedLocalId == dehydratedLocalId
    ensures r.Ok? ==> LocalIdAsString(m, e, dehydratedLocalId) == Ok(r.value.localIdAsString)
    ensures dehydratedLocalId != Null && LocalIdAsString(m, e, dehydratedLocalId).Err? ==>
      r == Err(LocalIdAsString(m, e, dehydratedLocalId).error)
    ensures dehydratedLocalId != Null && LocalIdAsString(m, e, dehydratedLocalId).Ok? ==>
      r == Ok(InstanceId(e.name, dehydratedLocalId, LocalIdAsString(m, e, dehydratedLocalId).value))
  {
    if dehydratedLocalId == Null then
      Err(NullArgument)
    else
      match LocalIdAsString(m, e, dehydratedLocalId)
      case Err(f) => Err(f)
      case Ok(s) => Ok(InstanceId(e.name, dehydratedLocalId, s))
  }

  // ---------------------------------------------------------------------------
  // Properties
  // ---------------------------------------------------------------------------

  /**
   * The string form is decided by the last entity of the id chain: following
   * entity-typed ids through each nested factory ends in that entity's
   * non-entity case.
   */
  lemma {:induction false} LocalIdAsStringAtTerminal(m: Metamodel, e: EntityType, d: Value)
    requires Acyclic(m, e)
    ensures LocalIdAsString(m, e, d) == NonEntityIdAsString(m, TerminalEntity(m, e), d)
    decreases Depth(m, e)
  {
    if IsIdEntity(e) {
      DepthStep(m, e);
      LocalIdAsStringAtTerminal(m, IdEntityType(m, e), d);
    }
  }

  /**
   * Stringification fails with ID_TYPE_NOT_SUPPORTED exactly when the last
   * entity of the id chain has an unsupported id type, and the failure names
   * that entity's id type and class.
   */
  lemma LocalIdAsStringUnsupportedIff(m: Metamodel, e: EntityType, d: Value)
    requires Acyclic(m, e)
    ensures (LocalIdAsString(m, e, d).Err? && LocalIdAsString(m, e, d).error.JaversException?)
        <==> !IsIdSupported(TerminalEntity(m, e))
    ensures !IsIdSupported(TerminalEntity(m, e)) ==>
        LocalIdAsString(m, e, d) == Err(IdTypeNotSupportedFailure(TerminalEntity(m, e)))
  {
    LocalIdAsStringAtTerminal(m, e, d);
  }

  /**
   * Stringification succeeds exactly when the last entity of the id chain has a
   * supported id type, unless that type is a value object and the id is null.
   */
  lemma LocalIdAsStringSucceedsIff(m: Metamodel, e: EntityType, d: Value)
    requires Acyclic(m, e)
    ensures var t := TerminalEntity(m, e);
            LocalIdAsString(m, e, d).Ok? <==> IsIdSupported(t) && !(IsIdValueObject(t) && d == Null)
  {
    LocalIdAsStringAtTerminal(m, e, d);
  }

  /** An entity whose id has the entity's own type has no finite id chain of any length. */
  lemma {:induction false} SelfKeyedEntityHasNoIdChain(m: Metamodel, e: EntityType, n: nat)
    requires e.idPropertyType == JaversType(EntityKind, e.name)
    requires e.name in m.entities && m.entities[e.name] == e
    ensures !IdChain(m, e, n)
    decreases n
  {
    if n > 0 {
      SelfKeyedEntityHasNoIdChain(m, e, n - 1);
    }
  }

  /**
   * The dehydrated type and dehydration do not recurse, so they return even on a
   * cyclic metamodel: an entity keyed by its own type is not acyclic, yet both
   * operations give their one-step results.
   */
  lemma NonRecursiveOperationsOnCyclicMetamodel(m: Metamodel, e: EntityType, localId: Value)
    requires e.idPropertyType == JaversType(EntityKind, e.name)
    requires e.name in m.entities && m.entities[e.name] == e
    ensures !Acyclic(m, e)
    ensures GetLocalIdDehydratedType(m, e) == Ok(e.idPropertyGenericType)
    ensures DehydratedLocalId(m, e, localId) == Ok(m.getIdOf(e, localId))
  {
    forall n: nat
      ensures !IdChain(m, e, n)
    {
      SelfKeyedEntityHasNoIdChain(m, e, n);
    }
  }

  /** For an entity-typed id, the string form is the one the id entity's factory gives. */
  lemma EntityIdAsStringDelegates(m: Metamodel, e: EntityType, d: Value)
    requires Acyclic(m, e) && IsIdEntity(e)
    ensures HasIdEntity(m, e) && Acyclic(m, IdEntityType(m, e))
    ensures LocalIdAsString(m, e, d) == LocalIdAsString(m, IdEntityType(m, e), d)
  {
    DepthStep(m, e);
  }

  /**
   * For an entity-typed id, dehydration is one getIdOf step of the id entity and
   * the reported dehydrated type is the id entity's id generic type.
   */
  lemma EntityIdDehydration(m: Metamodel, e: EntityType, localId: Value)
    requires IsIdEntity(e) && HasIdEntity(m, e)
    ensures HasIdEntity(m, e)
    ensures DehydratedLocalId(m, e, localId) == Ok(m.getIdOf(IdEntityType(m, e), localId))
    ensures GetLocalIdDehydratedType(m, e) == Ok(IdEntityType(m, e).idPropertyGenericType)
  {
  }

  /**
   * An id that is an entity with a primitive id: the instance id holds the id
   * entity's id, and its string form is the one the id entity's own factory gives
   * for that id.
   */
  lemma EntityWithPrimitiveIdCreate(m: Metamodel, e: EntityType, localId: Value)
    requires Acyclic(m, e) && IsIdEntity(e) && localId != Null
    requires HasIdEntity(m, e) && IsIdPrimitiveOrValue(IdEntityType(m, e))
    ensures Acyclic(m, IdEntityType(m, e))
    ensures var f := IdEntityType(m, e);
            var d := m.getIdOf(f, localId);
            Create(m, e, localId) == Ok(InstanceId(e.name, d, m.smartToString(f.idPropertyType, d)))
            && (d != Null ==>
                CreateFromDehydratedLocalId(m, f, d).Ok? &&
                CreateFromDehydratedLocalId(m, f, d).value.localIdAsString == Create(m, e, localId).value.localIdAsString)
  {
    var f := IdEntityType(m, e);
    var d := m.getIdOf(f, localId);
    EntityIdDehydration(m, e, localId);
    EntityIdAsStringDelegates(m, e, d);
    assert LocalIdAsString(m, f, d) == Ok(m.smartToString(f.idPropertyType, d));
  }

  /**
   * A chain of three entities ending in a primitive id: dehydration still takes
   * one getIdOf step only, and the last entity's primitive smartToString is
   * applied to that one-step value.
   */
  lemma ThreeEntityChainDehydratesOneStep(m: Metamodel, e: EntityType, localId: Value)
    requires Acyclic(m, e) && IsIdEntity(e) && localId != Null
    requires HasIdEntity(m, e) && IsIdEntity(IdEntityType(m, e))
    requires HasIdEntity(m, IdEntityType(m, e)) && IsIdPrimitiveOrValue(IdEntityType(m, IdEntityType(m, e)))
    ensures var f := IdEntityType(m, e);
            var g := IdEntityType(m, f);
            var d := m.getIdOf(f, localId);
            Create(m, e, localId) == Ok(InstanceId(e.name, d, m.smartToString(g.idPropertyType, d)))
  {
    var f := IdEntityType(m, e);
    var d := m.getIdOf(f, localId);
    EntityIdDehydration(m, e, localId);
    EntityIdAsStringDelegates(m, e, d);
    EntityIdAsStringDelegates(m, f, d);
  }

  /**
   * For a primitive id, the dehydrated id is the local id itself, and create and
   * createFromDehydratedLocalId give the same InstanceId.
   */
  lemma PrimitiveIdCreate(m: Metamodel, e: EntityType, localId: Value)
    requires Acyclic(m, e) && IsIdPrimitiveOrValue(e)
    ensures localId != Null ==>
      Create(m, e, localId) == Ok(InstanceId(e.name, localId, m.smartToString(e.idPropertyType, localId)))
    ensures Create(m, e, localId) == CreateFromDehydratedLocalId(m, e, localId)
    ensures GetLocalIdDehydratedType(m, e) == Ok(e.idPropertyGenericType)
  {
  }

  /**
   * For a value-object id, the dehydrated id is the value object's smartToString,
   * the string form is that same string, and the dehydrated type is String.
   */
  lemma ValueObjectIdCreate(m: Metamodel, e: EntityType, localId: Value)
    requires Acyclic(m, e) && IsIdValueObject(e) && localId != Null
    ensures var s := m.smartToString(e.idPropertyType, localId);
            DehydratedLocalId(m, e, localId) == Ok(Str(s)) &&
            Create(m, e, localId) == Ok(InstanceId(e.name, Str(s), s))
    ensures GetLocalIdDehydratedType(m, e) == Ok(StringClass)
  {
  }

  /**
   * An id type outside the three supported kinds makes stringification, the
   * dehydrated type, dehydration and creation fail with ID_TYPE_NOT_SUPPORTED,
   * naming the id type and the owning class.
   */
  lemma UnsupportedIdTypeFails(m: Metamodel, e: EntityType, localId: Value, d: Value)
    requires Acyclic(m, e) && !IsIdSupported(e)
    ensures var f := JaversException(IdTypeNotSupported, [e.idPropertyType.name, e.baseJavaClassName]);
            LocalIdAsString(m, e, d) == Err(f) &&
            GetLocalIdDehydratedType(m, e) == Err(f) &&
            DehydratedLocalId(m, e, localId) == Err(f) &&
            (localId != Null ==> Create(m, e, localId) == Err(f)) &&
            (d != Null ==> CreateFromDehydratedLocalId(m, e, d) == Err(f))
  {
  }

  /** The dehydrated type is reported exactly for the ids that dehydration accepts. */
  lemma DehydratedTypeAgreesWithDehydration(m: Metamodel, e: EntityType, localId: Value)
    requires IdEntityResolvable(m, e)
    ensures GetLocalIdDehydratedType(m, e).Ok? <==> DehydratedLocalId(m, e, localId).Ok?
    ensures GetLocalIdDehydratedType(m, e).Err? ==>
      GetLocalIdDehydratedType(m, e).error == DehydratedLocalId(m, e, localId).error
  {
  }

  /**
   * Re-creating an InstanceId from its stored dehydrated id gives back the same
   * InstanceId, whatever the kind of the id.
   */
  lemma CreateFromDehydratedRoundTrip(m: Metamodel, e: EntityType, localId: Value)
    requires Acyclic(m, e)
    requires Create(m, e, localId).Ok? && Create(m, e, localId).value.dehydratedLocalId != Null
    ensures CreateFromDehydratedLocalId(m, e, Create(m, e, localId).value.dehydratedLocalId) == Create(m, e, localId)
  {
  }

  /** Two local ids with the same dehydrated id give equal InstanceIds (same name, id and string). */
  lemma SameDehydratedIdSameInstanceId(m: Metamodel, e: EntityType, x: Value, y: Value)
    requires Acyclic(m, e)
    requires Create(m, e, x).Ok? && Create(m, e, y).Ok?
    requires Create(m, e, x).value.dehydratedLocalId == Create(m, e, y).value.dehydratedLocalId
    ensures Create(m, e, x) == Create(m, e, y)
  {
  }
}
