/**
  The node types the definition layer refers to but does not define. Each is
  an opaque class: only its identity (and whether a reference is nil) is
  observable here. The zero-argument constructor stands for Go's `&T{}`.
*/
module Nodes {

  class Location { constructor () {} }
  class Name { constructor () {} }
  class SelectionSet { constructor () {} }
  class Directive { constructor () {} }
  class Named { constructor () {} }
  class Variable { constructor () {} }
  /** Go interface `Type`; a nil interface is a null reference. */
  class Type { constructor () {} }
  /** Go interface `Value`; a nil interface is a null reference. */
  class Value { constructor () {} }
  class StringValue { constructor () {} }
  class InputValueDefinition { constructor () {} }

  /** The base type-system definitions that the extension variants wrap. */
  class ScalarDefinition { constructor () {} }
  class ObjectDefinition { constructor () {} }
  class InterfaceDefinition { constructor () {} }
  class UnionDefinition { constructor () {} }
  class EnumDefinition { constructor () {} }
  class InputObjectDefinition { constructor () {} }

  /**
    A Go slice as a value: `Nil` is the nil slice (the zero value of a slice
    field), `Make(xs)` a non-nil slice holding `xs`. Both have length 0 when
    empty, but only `Make([])` is non-nil.
  */
  datatype Slice<T> = Nil | Make(elems: seq<T>) {
    function Len(): nat {
      match this
      case Nil => 0
      case Make(xs) => |xs|
    }
  }
}
