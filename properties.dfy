/**
  Properties of the definition layer that relate several calls: what a
  caller reads back after construction, why a nil argument is the same as a
  zero-valued one, and why a node's kind tag tells its variant.
*/
module DefinitionLaws {

  import Kinds
  import opened Nodes
  import opened Definitions

  // ---------------------------------------------------------------------
  // The kind tag identifies the variant

  /** Reading GetKind of a stamped node and decoding it gives back the node's variant. */
  lemma KindIdentifiesVariant(d: Definition)
    requires d.Stamped()
    ensures Kinds.KindOfTag(d.GetKind()) == Kinds.Some(d.Variant())
  {
    Kinds.KindOfTagInverts(d.Variant());
  }

  /** Two stamped nodes report the same kind exactly when they are of the same variant. */
  lemma KindsTellVariantsApart(d1: Definition, d2: Definition)
    requires d1.Stamped() && d2.Stamped()
    ensures d1.GetKind() == d2.GetKind() <==> d1.Variant() == d2.Variant()
  {
    Kinds.TagInjective(d1.Variant(), d2.Variant());
  }

  // ---------------------------------------------------------------------
  // Construction and read-back

  /**
    An operation populated by the caller and then constructed: the very same
    object comes back, its Kind overwritten whatever it held, and every
    accessor returns what the caller stored.
  */
  method OperationRoundTrip(
    priorKind: string, loc: Location?, operation: string, name: Name?,
    vars: Slice<VariableDefinition?>, dirs: Slice<Directive?>, ss: SelectionSet?)
    returns (input: OperationDefinition, r: OperationDefinition)
    ensures r == input
    ensures r.GetKind() == Kinds.OperationDefinition
    ensures r.GetLoc() == loc && r.GetOperation() == operation && r.GetName() == name
    ensures r.GetVariableDefinitions() == vars && r.GetDirectives() == dirs
    ensures r.GetSelectionSet() == ss
  {
    input := new OperationDefinition();
    input.Kind, input.Loc, input.Operation, input.Name := priorKind, loc, operation, name;
    input.VariableDefinitions, input.Directives, input.SelectionSet := vars, dirs, ss;
    r := NewOperationDefinition(input);
  }

  /**
    A fragment populated by the caller and then constructed: a different
    object comes back carrying the caller's fields, while the caller's object
    keeps the Kind it had.
  */
  method FragmentRoundTrip(
    priorKind: string, loc: Location?, operation: string, name: Name?,
    vars: Slice<VariableDefinition?>, typeCondition: Named?, dirs: Slice<Directive?>,
    ss: SelectionSet?)
    returns (input: FragmentDefinition, r: FragmentDefinition)
    ensures r != input && input.Kind == priorKind
    ensures r.GetKind() == Kinds.FragmentDefinition
    ensures r.GetLoc() == loc && r.GetOperation() == operation && r.GetName() == name
    ensures r.GetVariableDefinitions() == vars && r.GetSelectionSet() == ss
    ensures r.TypeCondition == typeCondition && r.Directives == dirs
  {
    input := new FragmentDefinition();
    input.Kind, input.Loc, input.Operation, input.Name := priorKind, loc, operation, name;
    input.VariableDefinitions, input.TypeCondition := vars, typeCondition;
    input.Directives, input.SelectionSet := dirs, ss;
    r := NewFragmentDefinition(input);
  }

  /** A variable definition is constructed in place, like an operation. */
  method VariableRoundTrip(
    priorKind: string, loc: Location?, variable: Variable?, typ: Type?, defaultValue: Value?)
    returns (input: VariableDefinition, r: VariableDefinition)
    ensures r == input
    ensures r.GetKind() == Kinds.VariableDefinition && r.GetLoc() == loc
    ensures r.Variable == variable && r.Type == typ && r.DefaultValue == defaultValue
  {
    input := new VariableDefinition();
    input.Kind, input.Loc, input.Variable, input.Type, input.DefaultValue :=
      priorKind, loc, variable, typ, defaultValue;
    r := NewVariableDefinition(input);
  }

  /** A directive definition is constructed by copying, like a fragment. */
  method DirectiveRoundTrip(
    priorKind: string, loc: Location?, name: Name?, description: StringValue?,
    args: Slice<InputValueDefinition?>, locations: Slice<Name?>)
    returns (input: DirectiveDefinition, r: DirectiveDefinition)
    ensures r != input && input.Kind == priorKind
    ensures r.GetKind() == Kinds.DirectiveDefinition && r.GetLoc() == loc
    ensures r.GetDescription() == description
    ensures r.Name == name && r.Arguments == args && r.Locations == locations
  {
    input := new DirectiveDefinition();
    input.Kind, input.Loc, input.Name, input.Description := priorKind, loc, name, description;
    input.Arguments, input.Locations := args, locations;
    r := NewDirectiveDefinition(input);
  }

  /** A type extension is constructed by copying its location and wrapped definition. */
  method ScalarExtensionRoundTrip(priorKind: string, loc: Location?, base: ScalarDefinition?)
    returns (input: ScalarExtensionDefinition, r: ScalarExtensionDefinition)
    ensures r != input && input.Kind == priorKind
    ensures r.GetKind() == Kinds.ScalarExtensionDefinition && r.GetLoc() == loc
    ensures r.Definition == base
  {
    input := new ScalarExtensionDefinition();
    input.Kind, input.Loc, input.Definition := priorKind, loc, base;
    r := NewScalarExtensionDefinition(input);
  }

  // ---------------------------------------------------------------------
  // A nil argument is a zero-valued argument

  method NilOperationIsZeroOperation() returns (a: OperationDefinition, b: OperationDefinition)
    ensures a != b && a.Kind == b.Kind == Kinds.OperationDefinition
    ensures a.FieldsZero() && b.FieldsZero()
  {
    a := NewOperationDefinition(null);
    var zero := new OperationDefinition();
    b := NewOperationDefinition(zero);
  }

  method NilFragmentIsZeroFragment() returns (a: FragmentDefinition, b: FragmentDefinition)
    ensures a != b && a.Kind == b.Kind == Kinds.FragmentDefinition
    ensures a.FieldsZero() && b.FieldsZero()
  {
    a := NewFragmentDefinition(null);
    var zero := new FragmentDefinition();
    b := NewFragmentDefinition(zero);
  }

  method NilVariableIsZeroVariable() returns (a: VariableDefinition, b: VariableDefinition)
    ensures a != b && a.Kind == b.Kind == Kinds.VariableDefinition
    ensures a.FieldsZero() && b.FieldsZero()
  {
    a := NewVariableDefinition(null);
    var zero := new VariableDefinition();
    b := NewVariableDefinition(zero);
  }

  method NilScalarExtensionIsZero() returns (a: ScalarExtensionDefinition, b: ScalarExtensionDefinition)
    ensures a != b && a.Kind == b.Kind == Kinds.ScalarExtensionDefinition
    ensures a.FieldsZero() && b.FieldsZero()
  {
    a := NewScalarExtensionDefinition(null);
    var zero := new ScalarExtensionDefinition();
    b := NewScalarExtensionDefinition(zero);
  }

  method NilObjectExtensionIsZero() returns (a: ObjectExtensionDefinition, b: ObjectExtensionDefinition)
    ensures a != b && a.Kind == b.Kind == Kinds.ObjectExtensionDefinition
    ensures a.FieldsZero() && b.FieldsZero()
  {
    a := NewObjectExtensionDefinition(null);
    var zero := new ObjectExtensionDefinition();
    b := NewObjectExtensionDefinition(zero);
  }

  method NilInterfaceExtensionIsZero() returns (a: InterfaceExtensionDefinition, b: InterfaceExtensionDefinition)
    ensures a != b && a.Kind == b.Kind == Kinds.InterfaceExtensionDefinition
    ensures a.FieldsZero() && b.FieldsZero()
  {
    a := NewInterfaceExtensionDefinition(null);
    var zero := new InterfaceExtensionDefinition();
    b := NewInterfaceExtensionDefinition(zero);
  }

  method NilUnionExtensionIsZero() returns (a: UnionExtensionDefinition, b: UnionExtensionDefinition)
    ensures a != b && a.Kind == b.Kind == Kinds.UnionExtensionDefinition
    ensures a.FieldsZero() && b.FieldsZero()
  {
    a := NewUnionExtensionDefinition(null);
    var zero := new UnionExtensionDefinition();
    b := NewUnionExtensionDefinition(zero);
  }

  method NilEnumExtensionIsZero() returns (a: EnumExtensionDefinition, b: EnumExtensionDefinition)
    ensures a != b && a.Kind == b.Kind == Kinds.EnumExtensionDefinition
    ensures a.FieldsZero() && b.FieldsZero()
  {
    a := NewEnumExtensionDefinition(null);
    var zero := new EnumExtensionDefinition();
    b := NewEnumExtensionDefinition(zero);
  }

  method NilInputObjectExtensionIsZero() returns (a: InputObjectExtensionDefinition, b: InputObjectExtensionDefinition)
    ensures a != b && a.Kind == b.Kind == Kinds.InputObjectExtensionDefinition
    ensures a.FieldsZero() && b.FieldsZero()
  {
    a := NewInputObjectExtensionDefinition(null);
    var zero := new InputObjectExtensionDefinition();
    b := NewInputObjectExtensionDefinition(zero);
  }

  method NilDirectiveIsZeroDirective() returns (a: DirectiveDefinition, b: DirectiveDefinition)
    ensures a != b && a.Kind == b.Kind == Kinds.DirectiveDefinition
    ensures a.FieldsZero() && b.FieldsZero()
  {
    a := NewDirectiveDefinition(null);
    var zero := new DirectiveDefinition();
    b := NewDirectiveDefinition(zero);
  }

  // ---------------------------------------------------------------------
  // Empty defaults

  /**
    For the extension and directive variants, two calls of GetSelectionSet
    on the same node give two different, non-nil selection sets.
  */
  method DefaultSelectionSetsAreDistinct(d: Definition) returns (s1: SelectionSet?, s2: SelectionSet?)
    requires d.HasEmptyDefaults()
    ensures s1 != null && s2 != null && s1 != s2
  {
    s1 := d.GetSelectionSet();
    s2 := d.GetSelectionSet();
  }
}
