/**
 * The one-sided node pair used when an object exists only on the right (new)
 * side of a diff. Right-side queries read the right node; the left side is
 * synthesised from defaults and holds no node and no references.
 */
module Diff {
  import opened Wrappers
  import opened Exceptions
  import opened Metamodel
  import opened Graph

  /**
   * The collaborators the fake pair calls but whose internals are not part of
   * this model: the default value of a declared type, and the sanitizing step
   * every dehydrated property value goes through.
   */
  datatype Collaborators = Collaborators(
    defaultValue: TypeDescriptor -> Value,
    sanitize: (Value, JaversType) -> Value
  )

  datatype FakeNodePair = FakeNodePair(right: ObjectNode)

  function GetManagedType(pair: FakeNodePair): (t: ManagedType)
    ensures t == pair.right.managedType
  {
    pair.right.managedType
  }

  /** With no left side, "null on both sides" means null on the right. */
  function IsNullOnBothSides(pair: FakeNodePair, p: Property): (b: bool)
    ensures b <==> GetPropertyValue(pair.right, p) == Null
  {
    GetPropertyValue(pair.right, p) == Null
  }

  function GetGlobalId(pair: FakeNodePair): (g: GlobalId)
    ensures g == pair.right.globalId
  {
    pair.right.globalId
  }

  function GetRight(pair: FakeNodePair): (n: ObjectNode)
    ensures n == pair.right
  {
    pair.right
  }

  /** There is no left node: asking for it is a contract violation. */
  function GetLeft(pair: FakeNodePair): (r: Outcome<ObjectNode>)
    ensures r.Err? && r.error == JaversException(NotImplemented, ["FakeNodePair.getLeft()"])
  {
    Err(JaversException(NotImplemented, ["FakeNodePair.getLeft()"]))
  }

  /** The left dehydrated value: the default of the declared type, sanitized for the property's type. */
  function GetLeftDehydratedPropertyValueAndSanitize(c: Collaborators, pair: FakeNodePair, p: Property): (v: Value)
    ensures v == c.sanitize(c.defaultValue(p.genericType), p.propertyType)
  {
    c.sanitize(c.defaultValue(p.genericType), p.propertyType)
  }

  function GetProperties(pair: FakeNodePair): (ps: seq<Property>)
    ensures ps == pair.right.managedType.properties
  {
    GetManagedType(pair).properties
  }

  /** The left value: the default of the declared generic type. */
  function GetLeftPropertyValue(c: Collaborators, pair: FakeNodePair, p: Property): (v: Value)
    ensures v == c.defaultValue(p.genericType)
  {
    c.defaultValue(p.genericType)
  }

  function GetRightPropertyValue(pair: FakeNodePair, p: Property): (v: Value)
    ensures v == GetPropertyValue(pair.right, p)
  {
    GetPropertyValue(pair.right, p)
  }

  function GetRightReference(pair: FakeNodePair, p: Property): (g: Option<GlobalId>)
    ensures g == GetReference(pair.right, p)
  {
    GetReference(pair.right, p)
  }

  /** The left side references nothing. */
  function GetLeftReference(pair: FakeNodePair, p: Property): (g: Option<GlobalId>)
    ensures g == None
  {
    None
  }

  function GetRightReferences(pair: FakeNodePair, p: Property): (gs: seq<GlobalId>)
    ensures gs == GetReferences(pair.right, p)
  {
    GetReferences(pair.right, p)
  }

  /** The left side has no reference list entries. */
  function GetLeftReferences(pair: FakeNodePair, p: Property): (gs: seq<GlobalId>)
    ensures gs == []
  {
    []
  }

  // ---------------------------------------------------------------------------
  // Properties
  // ---------------------------------------------------------------------------

  /** Every left-side query answers the same for any two right nodes. */
  lemma LeftSideIgnoresRight(c: Collaborators, pair: FakeNodePair, other: FakeNodePair, p: Property)
    ensures GetLeftPropertyValue(c, pair, p) == GetLeftPropertyValue(c, other, p)
    ensures GetLeftDehydratedPropertyValueAndSanitize(c, pair, p) == GetLeftDehydratedPropertyValueAndSanitize(c, other, p)
    ensures GetLeftReference(pair, p) == GetLeftReference(other, p) == None
    ensures GetLeftReferences(pair, p) == GetLeftReferences(other, p) == []
    ensures GetLeft(pair) == GetLeft(other)
  {
  }

  /** The left dehydrated value is the left value passed through sanitize. */
  lemma LeftDehydratedIsSanitizedLeftValue(c: Collaborators, pair: FakeNodePair, p: Property)
    ensures GetLeftDehydratedPropertyValueAndSanitize(c, pair, p)
         == c.sanitize(GetLeftPropertyValue(c, pair, p), p.propertyType)
  {
  }

  /** "Null on both sides" is decided by the right value alone, whatever the left default is. */
  lemma NullOnBothSidesIffRightNull(pair: FakeNodePair, p: Property)
    ensures IsNullOnBothSides(pair, p) <==> GetRightPropertyValue(pair, p) == Null
  {
  }

  /**
   * An object that appears on the right reads as changed in a property exactly
   * when its value differs from the declared default.
   */
  lemma AppearedValueChangedIffNotDefault(c: Collaborators, pair: FakeNodePair, p: Property)
    ensures GetLeftPropertyValue(c, pair, p) != GetRightPropertyValue(pair, p)
        <==> GetPropertyValue(pair.right, p) != c.defaultValue(p.genericType)
  {
  }

  /** The pair's identity, type and schema are those of its right node. */
  lemma PairDescribesRightNode(pair: FakeNodePair)
    ensures GetGlobalId(pair) == GetRight(pair).globalId
    ensures GetManagedType(pair) == GetRight(pair).managedType
    ensures GetProperties(pair) == GetManagedType(pair).properties
    ensures GetLeft(pair).Err? && GetLeft(pair).error.code == NotImplemented
  {
  }
}
