# Instance ids and the one-sided node pair of the JaVers diff engine

This project models two leaf components of the JaVers object-diff engine.

- **The instance-id factory** (`InstanceIdFactory`). For an entity type, it builds the canonical `InstanceId` of an instance: the entity's name, the dehydrated local id, and that id's string form. It dispatches on the kind of the id property's type. The kinds form a closed set: entity, value object, primitive/value, and every other kind, which is unsupported. An entity-typed id is stringified by the id entity's own factory, so the operation recurses along the chain of entity-typed ids.
- **The fake node pair** (`FakeNodePair`). This is the node pair the diff uses when an object exists only on the right (new) side. Right-side queries read the right node. The left side is synthesised: default values, no reference and an empty reference list. Asking for the left node is a contract violation.

Both components are pure. They are modelled as datatypes, functions and lemmas:

- `wrappers.dfy` holds `Option` and `Result`.
- `exceptions.dfy` holds the failures: a `JaversException` with its code and message arguments, a rejected null argument, and a null dereference.
- `metamodel.dfy` holds the read-only metamodel: type descriptors, runtime values, managed-type kinds, entity types and the registry of entity types. It also holds the acyclicity of id chains (`Acyclic`), stated through the exact chain length `IdChain` and the measure `Depth`.
- `graph.dfy` holds the right node as a read-only record: a global id, a managed type, a property-value map and two reference maps.
- `instance_id_factory.dfy` holds the factory and its properties.
- `fake_node_pair.dfy` holds the fake pair and its properties.

Collaborators whose internals are not part of this model are parameters. They are the arrow fields of `Metamodel.Metamodel` (`getIdOf`, `smartToString`, `Object.toString` of non-string instances) and of `Diff.Collaborators` (`Defaults.defaultValue`, `sanitize`). As arrow fields they are total, deterministic functions: they always return a value and never fail. Their results are otherwise unconstrained. One fact about Java is built in: `toString()` of a `java.lang.String` is that string itself, and calling it on null fails.

The code performs no cycle detection on the chain of entity-typed ids. The operations that recurse along that chain (`localIdAsString` and the two create operations) therefore require `Acyclic(m, e)`, and the recursion decreases `Depth(m, e)`, the chain's length. `getLocalIdDehydratedType` and the dehydration step do not recurse. They only require that an entity-typed id names a registered entity (`IdEntityResolvable`), so they also apply to cyclic metamodels (`NonRecursiveOperationsOnCyclicMetamodel`).

An entity-typed id is dehydrated by one `getIdOf` step only (`InstanceIdFactory.java:73-76`), and `getLocalIdDehydratedType` also looks one step down (`InstanceIdFactory.java:58-61`). String derivation, however, follows the whole chain (`InstanceIdFactory.java:36-39`). `EntityIdDehydration` states this one-step behaviour, and `ThreeEntityChainDehydratesOneStep` states its consequence for a chain of three entities.

## Model

| member | source | states |
|---|---|---|
| `Metamodel.IdChainUnique` | javers-core/src/main/java/org/javers/core/metamodel/type/InstanceIdFactory.java:36-39 | the chain of entity-typed ids that the recursion follows has a single length |
| `Metamodel.DepthStep` | javers-core/src/main/java/org/javers/core/metamodel/type/InstanceIdFactory.java:36-39 | on an acyclic metamodel, an entity-typed id leads to a registered id entity whose chain is exactly one shorter, so the recursion terminates |
| `Metamodel.TerminalEntity` | javers-core/src/main/java/org/javers/core/metamodel/type/InstanceIdFactory.java:36-39 | following entity-typed ids ends at an entity whose id is not an entity, and that entity's chain is acyclic |
| `InstanceIdFactory.IsIdEntity` | javers-core/src/main/java/org/javers/core/metamodel/type/InstanceIdFactory.java:88-90 | holds exactly when the id property's type is an entity |
| `InstanceIdFactory.IsIdValueObject` | javers-core/src/main/java/org/javers/core/metamodel/type/InstanceIdFactory.java:92-94 | holds exactly when the id property's type is a value object |
| `InstanceIdFactory.IsIdPrimitiveOrValue` | javers-core/src/main/java/org/javers/core/metamodel/type/InstanceIdFactory.java:96-98 | holds exactly when the id property's type is a primitive or value type |
| `InstanceIdFactory.IdTypeNotSupportedFailure` | javers-core/src/main/java/org/javers/core/metamodel/type/InstanceIdFactory.java:51-55 | the JaversException ID_TYPE_NOT_SUPPORTED with the id type's name and the owning class's name |
| `InstanceIdFactory.ClassifiersPartitionKinds` | javers-core/src/main/java/org/javers/core/metamodel/type/InstanceIdFactory.java:88-98 | the three `isId*` classifiers are mutually exclusive, and one of them holds exactly when the id type's kind is not an unsupported one |
| `InstanceIdFactory.ToString` | javers-core/src/main/java/org/javers/core/metamodel/type/InstanceIdFactory.java:41 | `toString()` fails exactly on null and returns a string unchanged |
| `InstanceIdFactory.NonEntityIdAsString` | javers-core/src/main/java/org/javers/core/metamodel/type/InstanceIdFactory.java:40-48 | for an entity whose id is not an entity: an unsupported id type fails with ID_TYPE_NOT_SUPPORTED for this entity; a supported one succeeds except on a null value-object id, which is a null dereference |
| `InstanceIdFactory.LocalIdAsString` | javers-core/src/main/java/org/javers/core/metamodel/type/InstanceIdFactory.java:35-49 | stringifying a dehydrated id fails only with ID_TYPE_NOT_SUPPORTED naming the last entity of the id chain, which then has an unsupported id type, or with a null dereference |
| `InstanceIdFactory.GetLocalIdDehydratedType` | javers-core/src/main/java/org/javers/core/metamodel/type/InstanceIdFactory.java:57-70 | a dehydrated type is reported exactly when the id type is supported; otherwise the call fails with ID_TYPE_NOT_SUPPORTED for this entity |
| `InstanceIdFactory.DehydratedLocalId` | javers-core/src/main/java/org/javers/core/metamodel/type/InstanceIdFactory.java:72-86 | dehydration succeeds exactly for supported id types; a primitive id passes through unchanged; a value-object id becomes a string; an unsupported one fails with ID_TYPE_NOT_SUPPORTED |
| `InstanceIdFactory.Create` | javers-core/src/main/java/org/javers/core/metamodel/type/InstanceIdFactory.java:17-25 | a null local id is rejected before any work; a produced id carries the entity's name, the dehydrated local id, and the string form of that dehydrated id; failures come only from dehydration and then from stringification, given collaborators that never throw |
| `InstanceIdFactory.CreateFromDehydratedLocalId` | javers-core/src/main/java/org/javers/core/metamodel/type/InstanceIdFactory.java:27-33 | a null id is rejected first; a produced id carries the entity's name, the given id unchanged, and its string form; a stringification failure is passed on; a non-null id whose string form succeeds gives that InstanceId |
| `InstanceIdFactory.LocalIdAsStringAtTerminal` | javers-core/src/main/java/org/javers/core/metamodel/type/InstanceIdFactory.java:35-49 | following the id chain through each nested factory gives the string form that the chain's last entity gives |
| `InstanceIdFactory.LocalIdAsStringUnsupportedIff` | javers-core/src/main/java/org/javers/core/metamodel/type/InstanceIdFactory.java:35-55 | stringification fails with a JaversException exactly when the last entity of the chain has an unsupported id type, and the failure names that entity's id type and class |
| `InstanceIdFactory.LocalIdAsStringSucceedsIff` | javers-core/src/main/java/org/javers/core/metamodel/type/InstanceIdFactory.java:35-49 | stringification succeeds exactly when the last entity of the id chain has a supported id type, unless that type is a value object and the id is null |
| `InstanceIdFactory.SelfKeyedEntityHasNoIdChain` | javers-core/src/main/java/org/javers/core/metamodel/type/InstanceIdFactory.java:36-39 | an entity whose id has the entity's own type has no finite id chain, so the recursion of `localIdAsString` would not end on it |
| `InstanceIdFactory.NonRecursiveOperationsOnCyclicMetamodel` | javers-core/src/main/java/org/javers/core/metamodel/type/InstanceIdFactory.java:57-86 | on a cyclic metamodel (an entity keyed by its own type), the dehydrated type and dehydration still return their one-step results |
| `InstanceIdFactory.EntityIdAsStringDelegates` | javers-core/src/main/java/org/javers/core/metamodel/type/InstanceIdFactory.java:36-39 | for an entity-typed id, the string form equals the one the id entity's factory gives for the same value |
| `InstanceIdFactory.EntityIdDehydration` | javers-core/src/main/java/org/javers/core/metamodel/type/InstanceIdFactory.java:58-61 | for an entity-typed id, the dehydrated id is exactly one `getIdOf` step of the id entity, and the dehydrated type is the id entity's id generic type |
| `InstanceIdFactory.EntityWithPrimitiveIdCreate` | javers-core/src/main/java/org/javers/core/metamodel/type/InstanceIdFactory.java:17-25 | an id that is an entity with a primitive id dehydrates to that entity's id; its string form equals the one the id entity's own factory gives for it |
| `InstanceIdFactory.ThreeEntityChainDehydratesOneStep` | javers-core/src/main/java/org/javers/core/metamodel/type/InstanceIdFactory.java:73-76 | in a chain of three entities, dehydration takes one `getIdOf` step, and the last entity's primitive `smartToString` is applied to that value |
| `InstanceIdFactory.PrimitiveIdCreate` | javers-core/src/main/java/org/javers/core/metamodel/type/InstanceIdFactory.java:81-83 | for a primitive id, the dehydrated id is the local id itself; `create` and `createFromDehydratedLocalId` return equal results; the dehydrated type is the id's generic type |
| `InstanceIdFactory.ValueObjectIdCreate` | javers-core/src/main/java/org/javers/core/metamodel/type/InstanceIdFactory.java:62-64 | for a value-object id, both the dehydrated id and the string form are the value object's `smartToString`, and the dehydrated type is `String` |
| `InstanceIdFactory.UnsupportedIdTypeFails` | javers-core/src/main/java/org/javers/core/metamodel/type/InstanceIdFactory.java:51-55 | an unsupported id type makes stringification, the dehydrated type, dehydration and both create operations fail with ID_TYPE_NOT_SUPPORTED, naming the id type and the owning class |
| `InstanceIdFactory.DehydratedTypeAgreesWithDehydration` | javers-core/src/main/java/org/javers/core/metamodel/type/InstanceIdFactory.java:57-86 | a dehydrated type is reported exactly when dehydration succeeds, and both fail with the same error |
| `InstanceIdFactory.CreateFromDehydratedRoundTrip` | javers-core/src/main/java/org/javers/core/metamodel/type/InstanceIdFactory.java:17-33 | re-creating an id from its non-null stored dehydrated id gives back the same InstanceId, for every id kind |
| `InstanceIdFactory.SameDehydratedIdSameInstanceId` | javers-core/src/main/java/org/javers/core/metamodel/type/InstanceIdFactory.java:17-25 | two local ids with the same dehydrated id give equal InstanceIds (same name, id and string) |
| `Diff.GetManagedType` | javers-core/src/main/java/org/javers/core/diff/FakeNodePair.java:23-26 | the managed type is the right node's |
| `Diff.IsNullOnBothSides` | javers-core/src/main/java/org/javers/core/diff/FakeNodePair.java:28-31 | holds exactly when the right node's value for the property is null |
| `Diff.GetGlobalId` | javers-core/src/main/java/org/javers/core/diff/FakeNodePair.java:33-36 | the global id is the right node's |
| `Diff.GetRight` | javers-core/src/main/java/org/javers/core/diff/FakeNodePair.java:38-41 | the right node is the one the pair was built from |
| `Diff.GetLeft` | javers-core/src/main/java/org/javers/core/diff/FakeNodePair.java:43-46 | never returns a node; always fails with NOT_IMPLEMENTED naming `FakeNodePair.getLeft()` |
| `Diff.GetLeftDehydratedPropertyValueAndSanitize` | javers-core/src/main/java/org/javers/core/diff/FakeNodePair.java:48-51 | the default of the property's generic type, sanitized for the property's type |
| `Diff.GetProperties` | javers-core/src/main/java/org/javers/core/diff/FakeNodePair.java:53-56 | exactly the managed type's property list, in the same order |
| `Diff.GetLeftPropertyValue` | javers-core/src/main/java/org/javers/core/diff/FakeNodePair.java:58-61 | the default of the property's generic type |
| `Diff.GetRightPropertyValue` | javers-core/src/main/java/org/javers/core/diff/FakeNodePair.java:63-66 | the right node's value for the property |
| `Diff.GetRightReference` | javers-core/src/main/java/org/javers/core/diff/FakeNodePair.java:67-70 | the right node's reference for the property |
| `Diff.GetLeftReference` | javers-core/src/main/java/org/javers/core/diff/FakeNodePair.java:72-75 | null (no reference), for every property |
| `Diff.GetRightReferences` | javers-core/src/main/java/org/javers/core/diff/FakeNodePair.java:77-80 | the right node's reference list for the property |
| `Diff.GetLeftReferences` | javers-core/src/main/java/org/javers/core/diff/FakeNodePair.java:82-85 | the empty list, for every property |
| `Diff.LeftSideIgnoresRight` | javers-core/src/main/java/org/javers/core/diff/FakeNodePair.java:43-85 | every left-side query gives the same answer whatever the right node holds |
| `Diff.LeftDehydratedIsSanitizedLeftValue` | javers-core/src/main/java/org/javers/core/diff/FakeNodePair.java:48-61 | the left dehydrated value is the left value passed through `sanitize` |
| `Diff.NullOnBothSidesIffRightNull` | javers-core/src/main/java/org/javers/core/diff/FakeNodePair.java:28-31 | "null on both sides" holds exactly when the right value is null, even when the left default is not null |
| `Diff.AppearedValueChangedIffNotDefault` | javers-core/src/main/java/org/javers/core/diff/FakeNodePair.java:58-66 | left and right values differ exactly when the right node's value differs from the declared default |
| `Diff.PairDescribesRightNode` | javers-core/src/main/java/org/javers/core/diff/FakeNodePair.java:23-56 | the pair's global id, managed type and property list are the right node's, and it has no left node |

## Left out

- The internals of `getIdOf`, `smartToString`, `toString` of non-string objects, `Defaults.defaultValue` and `sanitize`. They are parameters, modelled as total, deterministic functions. Any exception they raise is not modelled. So the statements that the only failures are those named here (`InstanceIdFactory.Create`, `InstanceIdFactory.LocalIdAsString`) hold only for collaborators that do not throw.
- Java reflection types. A `java.lang.reflect.Type` is a descriptor known only by its name, and `String.class` is the descriptor named `java.lang.String`.
- The internals of `ObjectNode`, `ManagedType`, `JaversProperty` and the type registry. The right node is a read-only record, and properties are looked up in it by name. A property missing from the node reads as null or as no references.
- `Property` and `JaversProperty` are one record here, holding the name, the generic type and the managed type.
- The message formatting of `JaversException` and the `Validate` helper. A failure carries the exception code and the names passed to it. A rejected null argument is the failure `NullArgument`.
- Cycle detection in the id chain. The code performs none, so acyclicity is a precondition of `localIdAsString`, `create` and `createFromDehydratedLocalId`. On a cyclic metamodel their Java recursion would not terminate, and this model does not describe that case. This also leaves out a null argument on a cyclic metamodel: there Java fails with the null-argument failure before any recursion (`InstanceIdFactory.java:18`, 28), but the model's precondition excludes the input. `getLocalIdDehydratedType` and dehydration do not recurse and are modelled on cyclic metamodels too.
- The null check on `entityType` in `Validate.argumentsAreNotNull`. An entity type is a value here and cannot be null.
- Null arguments to the fake pair. Its right node and every property argument are values here and are never null. In the code, a null right node makes `getManagedType`, `isNullOnBothSides`, `getGlobalId`, `getProperties`, `getRightPropertyValue`, `getRightReference` and `getRightReferences` throw a NullPointerException (`FakeNodePair.java:19-20`, 25, 30, 35, 55, 65, 69, 79). A null property makes `getLeftDehydratedPropertyValueAndSanitize` and `getLeftPropertyValue` throw one too (`FakeNodePair.java:50`, 60). Neither case is modelled.
- Global ids other than instance ids (value-object ids). The fake pair only passes them through, so they are an opaque variant.
