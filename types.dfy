/**
 * Runtime type descriptors (DataType in src/interpreter/types/types.cpp).
 * A descriptor is a tag plus, for enum, pointer and record types, the name
 * of the definition it was resolved from.
 */
module Types {
  import opened Wrappers

  /** The classes of `DataType::Type`; `PTR` is the pointer class. */
  datatype Tag = NONE | INTEGER | REAL | BOOLEAN | CHAR | STRING | DATE | ENUM | PTR | COMPOSITE

  /** `name` is the definition name; only types resolved from a definition carry one. */
  datatype DataType = DataType(tag: Tag, name: Option<string>)

  /** The default-constructed descriptor. */
  function DefaultType(): (t: DataType)
    ensures t.tag == NONE && t.name.None?
  {
    DataType(NONE, None)
  }

  /** An unnamed descriptor for a tag, as built from a bare `DataType::Type`. */
  function Plain(tag: Tag): (t: DataType)
    ensures t.tag == tag && t.name.None?
  {
    DataType(tag, None)
  }

  /** `operator==(Type)`: compares the tag only. */
  predicate HasTag(t: DataType, tag: Tag)
  {
    t.tag == tag
  }

  /**
   * `operator==(const DataType&)`: when either side is unnamed only the tags
   * are compared, otherwise the tags and the name strings.
   */
  predicate SameType(a: DataType, b: DataType)
  {
    if a.name.None? || b.name.None? then HasTag(b, a.tag)
    else a.tag == b.tag && a.name.value == b.name.value
  }

  /** Comparing with a bare tag ignores the name entirely. */
  lemma HasTagIgnoresName(t: DataType, tag: Tag, n: Option<string>)
    ensures HasTag(t, tag) <==> HasTag(DataType(t.tag, n), tag)
  {
  }

  /** With an unnamed side, equality is exactly tag equality. */
  lemma SameTypeUnnamed(a: DataType, b: DataType)
    requires a.name.None? || b.name.None?
    ensures SameType(a, b) <==> a.tag == b.tag
  {
  }

  /** With both sides named, equality needs equal tags and equal names. */
  lemma SameTypeNamed(a: DataType, b: DataType)
    requires a.name.Some? && b.name.Some?
    ensures SameType(a, b) <==> (a.tag == b.tag && a.name == b.name)
  {
  }

  lemma SameTypeReflexive(a: DataType)
    ensures SameType(a, a)
  {
  }

  lemma SameTypeSymmetric(a: DataType, b: DataType)
    ensures SameType(a, b) <==> SameType(b, a)
  {
  }

  /** An unnamed enum descriptor equals two differently named ones that differ from each other. */
  lemma SameTypeNotTransitive()
    ensures exists a: DataType, b: DataType, c: DataType ::
      SameType(a, b) && SameType(b, c) && !SameType(a, c)
  {
    var a := DataType(ENUM, Some("A"));
    var b := DataType(ENUM, None);
    var c := DataType(ENUM, Some("B"));
    assert SameType(a, b) && SameType(b, c);
    assert !SameType(a, c) by { assert a.name.value != c.name.value; }
  }
}
