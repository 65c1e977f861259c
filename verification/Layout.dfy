// Message layouts: the shape of a message, as the text schema describes it.
module Layouts {

  const INT := 1
  const STRING := 2
  const ARRAY := 3
  const STRUCT := 4

  /**
   * One field of a layout. An UnsetField comes from a schema line that ends right after "name:";
   * the parser accepts it and leaves the type of the field uninitialised.
   */
  datatype Field =
    | IntField(name: string)
    | StringField(name: string)
    | ArrayField(name: string, fields: Layout)
    | UnsetField(name: string)
  {
    /** The type byte that stands before a value of this field. */
    function Code(): (c: nat)
      requires !UnsetField?
    {
      match this
      case IntField(_) => INT
      case StringField(_) => STRING
      case ArrayField(_, _) => ARRAY
    }
  }

  type Layout = seq<Field>

  predicate DistinctNames(fields: Layout) {
    forall i, j :: 0 <= i < j < |fields| ==> fields[i].name != fields[j].name
  }

  /** No field anywhere in the layout has been left without a type. */
  ghost predicate Typed(fields: Layout)
    decreases fields
  {
    forall f :: f in fields ==> !f.UnsetField? && (f.ArrayField? ==> Typed(f.fields))
  }
}
