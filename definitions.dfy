/**
  The definition-level nodes of a parsed GraphQL document.

  Each node is a class whose fields a caller may set before handing the node
  to its `New*` constructor. The constructors come in two shapes:
  - in place: NewOperationDefinition and NewVariableDefinition overwrite the
    Kind of the object they are given and return that same object;
  - copying: every other constructor allocates a new node, copies the
    argument's fields into it and leaves the argument alone.
  A nil argument is read as a zero-valued node in both shapes.
*/
module Definitions {

  import Kinds
  import opened Nodes

  // ---------------------------------------------------------------------
  // OperationDefinition

  class OperationDefinition {
    var Kind: string
    var Loc: Location?
    var Operation: string
    var Name: Name?
    var VariableDefinitions: Slice<VariableDefinition?>
    var Directives: Slice<Directive?>
    var SelectionSet: SelectionSet?

    /** `&OperationDefinition{}` */
    constructor ()
      ensures Kind == "" && FieldsZero()
    {
      Kind, Loc, Operation, Name := "", null, "", null;
      VariableDefinitions, Directives, SelectionSet := Nil, Nil, null;
    }

    /** Every field other than Kind holds its zero value. */
    predicate FieldsZero()
      reads this
    {
      Loc == null && Operation == "" && Name == null &&
      VariableDefinitions == Nil && Directives == Nil && SelectionSet == null
    }

    /** This node's fields other than Kind are those of `other`. */
    predicate AgreesExceptKind(other: OperationDefinition)
      reads this, other
    {
      Loc == other.Loc && Operation == other.Operation && Name == other.Name &&
      VariableDefinitions == other.VariableDefinitions &&
      Directives == other.Directives && SelectionSet == other.SelectionSet
    }

    function GetKind(): string reads this { Kind }
    function GetLoc(): Location? reads this { Loc }
    function GetOperation(): string reads this { Operation }
    function GetName(): Name? reads this { Name }
    function GetVariableDefinitions(): Slice<VariableDefinition?> reads this { VariableDefinitions }
    function GetDirectives(): Slice<Directive?> reads this { Directives }
    /** The stored selection set, which may be nil. */
    function GetSelectionSet(): SelectionSet? reads this { SelectionSet }
  }

  /** Stamps the kind on `op` itself and returns it; a nil `op` becomes a new zero-valued node. */
  method NewOperationDefinition(op: OperationDefinition?) returns (r: OperationDefinition)
    modifies op
    ensures r.Kind == Kinds.OperationDefinition
    ensures op != null ==> r == op
    ensures op != null ==>
      unchanged(op`Loc, op`Operation, op`Name, op`VariableDefinitions, op`Directives, op`SelectionSet)
    ensures op == null ==> fresh(r) && r.FieldsZero()
    ensures OperationDef(r).Stamped()
  {
    if op == null {
      r := new OperationDefinition();
    } else {
      r := op;
    }
    r.Kind := Kinds.OperationDefinition;
  }

  // ---------------------------------------------------------------------
  // FragmentDefinition

  class FragmentDefinition {
    var Kind: string
    var Loc: Location?
    var Operation: string
    var Name: Name?
    var VariableDefinitions: Slice<VariableDefinition?>
    var TypeCondition: Named?
    var Directives: Slice<Directive?>
    var SelectionSet: SelectionSet?

    /** `&FragmentDefinition{}` */
    constructor ()
      ensures Kind == "" && FieldsZero()
    {
      Kind, Loc, Operation, Name := "", null, "", null;
      VariableDefinitions, TypeCondition, Directives, SelectionSet := Nil, null, Nil, null;
    }

    /** Every field other than Kind holds its zero value. */
    predicate FieldsZero()
      reads this
    {
      Loc == null && Operation == "" && Name == null && VariableDefinitions == Nil &&
      TypeCondition == null && Directives == Nil && SelectionSet == null
    }

    /** This node's fields other than Kind are those of `other`. */
    predicate AgreesExceptKind(other: FragmentDefinition)
      reads this, other
    {
      Loc == other.Loc && Operation == other.Operation && Name == other.Name &&
      VariableDefinitions == other.VariableDefinitions && TypeCondition == other.TypeCondition &&
      Directives == other.Directives && SelectionSet == other.SelectionSet
    }

    function GetKind(): string reads this { Kind }
    function GetLoc(): Location? reads this { Loc }
    /** The stored Operation field: it is not forced to "". */
    function GetOperation(): string reads this { Operation }
    function GetName(): Name? reads this { Name }
    function GetVariableDefinitions(): Slice<VariableDefinition?> reads this { VariableDefinitions }
    function GetSelectionSet(): SelectionSet? reads this { SelectionSet }
  }

  /** A new node with the kind stamped and every other field copied from `fd` (all zero for nil). */
  method NewFragmentDefinition(fd: FragmentDefinition?) returns (r: FragmentDefinition)
    ensures fresh(r)
    ensures r.Kind == Kinds.FragmentDefinition
    ensures fd != null ==> r.AgreesExceptKind(fd) && unchanged(fd)
    ensures fd == null ==> r.FieldsZero()
    ensures FragmentDef(r).Stamped()
  {
    var src := fd;
    if src == null {
      src := new FragmentDefinition();
    }
    r := new FragmentDefinition();
    r.Kind := Kinds.FragmentDefinition;
    r.Loc, r.Operation, r.Name := src.Loc, src.Operation, src.Name;
    r.VariableDefinitions, r.TypeCondition := src.VariableDefinitions, src.TypeCondition;
    r.Directives, r.SelectionSet := src.Directives, src.SelectionSet;
  }

  // ---------------------------------------------------------------------
  // VariableDefinition

  class VariableDefinition {
    var Kind: string
    var Loc: Location?
    var Variable: Variable?
    var Type: Type?
    var DefaultValue: Value?

    /** `&VariableDefinition{}` */
    constructor ()
      ensures Kind == "" && FieldsZero()
    {
      Kind, Loc, Variable, Type, DefaultValue := "", null, null, null, null;
    }

    /** Every field other than Kind holds its zero value. */
    predicate FieldsZero()
      reads this
    {
      Loc == null && Variable == null && Type == null && DefaultValue == null
    }

    /** This node's fields other than Kind are those of `other`. */
    predicate AgreesExceptKind(other: VariableDefinition)
      reads this, other
    {
      Loc == other.Loc && Variable == other.Variable && Type == other.Type &&
      DefaultValue == other.DefaultValue
    }

    function GetKind(): string reads this { Kind }
    function GetLoc(): Location? reads this { Loc }
  }

  /** Stamps the kind on `vd` itself and returns it; a nil `vd` becomes a new zero-valued node. */
  method NewVariableDefinition(vd: VariableDefinition?) returns (r: VariableDefinition)
    modifies vd
    ensures r.Kind == Kinds.VariableDefinition
    ensures vd != null ==> r == vd
    ensures vd != null ==> unchanged(vd`Loc, vd`Variable, vd`Type, vd`DefaultValue)
    ensures vd == null ==> fresh(r) && r.FieldsZero()
    ensures r.GetKind() == Kinds.Tag(Kinds.VariableNode)
  {
    if vd == null {
      r := new VariableDefinition();
    } else {
      r := vd;
    }
    r.Kind := Kinds.VariableDefinition;
  }

  // ---------------------------------------------------------------------
  // The six type-extension wrappers. Each holds the base definition it
  // extends and answers the operation, variable and selection-set queries
  // with fixed empty values.

  class ScalarExtensionDefinition {
    var Kind: string
    var Loc: Location?
    var Definition: ScalarDefinition?

    /** `&ScalarExtensionDefinition{}` */
    constructor ()
      ensures Kind == "" && FieldsZero()
    {
      Kind, Loc, Definition := "", null, null;
    }

    predicate FieldsZero() reads this { Loc == null && Definition == null }

    function GetKind(): string reads this { Kind }
    function GetLoc(): Location? reads this { Loc }
    function GetVariableDefinitions(): Slice<VariableDefinition?> { Make([]) }
    /** A new empty selection set on every call. */
    method GetSelectionSet() returns (s: SelectionSet)
      ensures fresh(s)
    {
      s := new SelectionSet();
    }
    function GetOperation(): string { "" }
  }

  method NewScalarExtensionDefinition(def: ScalarExtensionDefinition?) returns (r: ScalarExtensionDefinition)
    ensures fresh(r)
    ensures r.Kind == Kinds.ScalarExtensionDefinition
    ensures def != null ==> r.Loc == def.Loc && r.Definition == def.Definition && unchanged(def)
    ensures def == null ==> r.FieldsZero()
    ensures ScalarExtensionDef(r).Stamped()
  {
    var src := def;
    if src == null {
      src := new ScalarExtensionDefinition();
    }
    r := new ScalarExtensionDefinition();
    r.Kind, r.Loc, r.Definition := Kinds.ScalarExtensionDefinition, src.Loc, src.Definition;
  }

  class ObjectExtensionDefinition {
    var Kind: string
    var Loc: Location?
    var Definition: ObjectDefinition?

    /** `&ObjectExtensionDefinition{}` */
    constructor ()
      ensures Kind == "" && FieldsZero()
    {
      Kind, Loc, Definition := "", null, null;
    }

    predicate FieldsZero() reads this { Loc == null && Definition == null }

    function GetKind(): string reads this { Kind }
    function GetLoc(): Location? reads this { Loc }
    function GetVariableDefinitions(): Slice<VariableDefinition?> { Make([]) }
    /** A new empty selection set on every call. */
    method GetSelectionSet() returns (s: SelectionSet)
      ensures fresh(s)
    {
      s := new SelectionSet();
    }
    function GetOperation(): string { "" }
  }

  method NewObjectExtensionDefinition(def: ObjectExtensionDefinition?) returns (r: ObjectExtensionDefinition)
    ensures fresh(r)
    ensures r.Kind == Kinds.ObjectExtensionDefinition
    ensures def != null ==> r.Loc == def.Loc && r.Definition == def.Definition && unchanged(def)
    ensures def == null ==> r.FieldsZero()
    ensures ObjectExtensionDef(r).Stamped()
  {
    var src := def;
    if src == null {
      src := new ObjectExtensionDefinition();
    }
    r := new ObjectExtensionDefinition();
    r.Kind, r.Loc, r.Definition := Kinds.ObjectExtensionDefinition, src.Loc, src.Definition;
  }

  class InterfaceExtensionDefinition {
    var Kind: string
    var Loc: Location?
    var Definition: InterfaceDefinition?

    /** `&InterfaceExtensionDefinition{}` */
    constructor ()
      ensures Kind == "" && FieldsZero()
    {
      Kind, Loc, Definition := "", null, null;
    }

    predicate FieldsZero() reads this { Loc == null && Definition == null }

    function GetKind(): string reads this { Kind }
    function GetLoc(): Location? reads this { Loc }
    function GetVariableDefinitions(): Slice<VariableDefinition?> { Make([]) }
    /** A new empty selection set on every call. */
    method GetSelectionSet() returns (s: SelectionSet)
      ensures fresh(s)
    {
      s := new SelectionSet();
    }
    function GetOperation(): string { "" }
  }

  method NewInterfaceExtensionDefinition(def: InterfaceExtensionDefinition?) returns (r: InterfaceExtensionDefinition)
    ensures fresh(r)
    ensures r.Kind == Kinds.InterfaceExtensionDefinition
    ensures def != null ==> r.Loc == def.Loc && r.Definition == def.Definition && unchanged(def)
    ensures def == null ==> r.FieldsZero()
    ensures InterfaceExtensionDef(r).Stamped()
  {
    var src := def;
    if src == null {
      src := new InterfaceExtensionDefinition();
    }
    r := new InterfaceExtensionDefinition();
    r.Kind, r.Loc, r.Definition := Kinds.InterfaceExtensionDefinition, src.Loc, src.Definition;
  }

  class UnionExtensionDefinition {
    var Kind: string
    var Loc: Location?
    var Definition: UnionDefinition?

    /** `&UnionExtensionDefinition{}` */
    constructor ()
      ensures Kind == "" && FieldsZero()
    {
      Kind, Loc, Definition := "", null, null;
    }

    predicate FieldsZero() reads this { Loc == null && Definition == null }

    function GetKind(): string reads this { Kind }
    function GetLoc(): Location? reads this { Loc }
    function GetVariableDefinitions(): Slice<VariableDefinition?> { Make([]) }
    /** A new empty selection set on every call. */
    method GetSelectionSet() returns (s: SelectionSet)
      ensures fresh(s)
    {
      s := new SelectionSet();
    }
    function GetOperation(): string { "" }
  }

  method NewUnionExtensionDefinition(def: UnionExtensionDefinition?) returns (r: UnionExtensionDefinition)
    ensures fresh(r)
    ensures r.Kind == Kinds.UnionExtensionDefinition
    ensures def != null ==> r.Loc == def.Loc && r.Definition == def.Definition && unchanged(def)
    ensures def == null ==> r.FieldsZero()
    ensures UnionExtensionDef(r).Stamped()
  {
    var src := def;
    if src == null {
      src := new UnionExtensionDefinition();
    }
    r := new UnionExtensionDefinition();
    r.Kind, r.Loc, r.Definition := Kinds.UnionExtensionDefinition, src.Loc, src.Definition;
  }

  class EnumExtensionDefinition {
    var Kind: string
    var Loc: Location?
    var Definition: EnumDefinition?

    /** `&EnumExtensionDefinition{}` */
    constructor ()
      ensures Kind == "" && FieldsZero()
    {
      Kind, Loc, Definition := "", null, null;
    }

    predicate FieldsZero() reads this { Loc == null && Definition == null }

    function GetKind(): string reads this { Kind }
    function GetLoc(): Location? reads this { Loc }
    function GetVariableDefinitions(): Slice<VariableDefinition?> { Make([]) }
    /** A new empty selection set on every call. */
    method GetSelectionSet() returns (s: SelectionSet)
      ensures fresh(s)
    {
      s := new SelectionSet();
    }
    function GetOperation(): string { "" }
  }

  method NewEnumExtensionDefinition(def: EnumExtensionDefinition?) returns (r: EnumExtensionDefinition)
    ensures fresh(r)
    ensures r.Kind == Kinds.EnumExtensionDefinition
    ensures def != null ==> r.Loc == def.Loc && r.Definition == def.Definition && unchanged(def)
    ensures def == null ==> r.FieldsZero()
    ensures EnumExtensionDef(r).Stamped()
  {
    var src := def;
    if src == null {
      src := new EnumExtensionDefinition();
    }
    r := new EnumExtensionDefinition();
    r.Kind, r.Loc, r.Definition := Kinds.EnumExtensionDefinition, src.Loc, src.Definition;
  }

  class InputObjectExtensionDefinition {
    var Kind: string
    var Loc: Location?
    var Definition: InputObjectDefinition?

    /** `&InputObjectExtensionDefinition{}` */
    constructor ()
      ensures Kind == "" && FieldsZero()
    {
      Kind, Loc, Definition := "", null, null;
    }

    predicate FieldsZero() reads this { Loc == null && Definition == null }

    function GetKind(): string reads this { Kind }
    function GetLoc(): Location? reads this { Loc }
    function GetVariableDefinitions(): Slice<VariableDefinition?> { Make([]) }
    /** A new empty selection set on every call. */
    method GetSelectionSet() returns (s: SelectionSet)
      ensures fresh(s)
    {
      s := new SelectionSet();
    }
    function GetOperation(): string { "" }
  }

  method NewInputObjectExtensionDefinition(def: InputObjectExtensionDefinition?) returns (r: InputObjectExtensionDefinition)
    ensures fresh(r)
    ensures r.Kind == Kinds.InputObjectExtensionDefinition
    ensures def != null ==> r.Loc == def.Loc && r.Definition == def.Definition && unchanged(def)
    ensures def == null ==> r.FieldsZero()
    ensures InputObjectExtensionDef(r).Stamped()
  {
    var src := def;
    if src == null {
      src := new InputObjectExtensionDefinition();
    }
    r := new InputObjectExtensionDefinition();
    r.Kind, r.Loc, r.Definition := Kinds.InputObjectExtensionDefinition, src.Loc, src.Definition;
  }

  // ---------------------------------------------------------------------
  // DirectiveDefinition

  class DirectiveDefinition {
    var Kind: string
    var Loc: Location?
    var Name: Name?
    var Description: StringValue?
    var Arguments: Slice<InputValueDefinition?>
    var Locations: Slice<Name?>

    /** `&DirectiveDefinition{}` */
    constructor ()
      ensures Kind == "" && FieldsZero()
    {
      Kind, Loc, Name, Description, Arguments, Locations := "", null, null, null, Nil, Nil;
    }

    /** Every field other than Kind holds its zero value. */
    predicate FieldsZero()
      reads this
    {
      Loc == null && Name == null && Description == null && Arguments == Nil && Locations == Nil
    }

    /** This node's fields other than Kind are those of `other`. */
    predicate AgreesExceptKind(other: DirectiveDefinition)
      reads this, other
    {
      Loc == other.Loc && Name == other.Name && Description == other.Description &&
      Arguments == other.Arguments && Locations == other.Locations
    }

    function GetKind(): string reads this { Kind }
    function GetLoc(): Location? reads this { Loc }
    function GetVariableDefinitions(): Slice<VariableDefinition?> { Make([]) }
    /** A new empty selection set on every call. */
    method GetSelectionSet() returns (s: SelectionSet)
      ensures fresh(s)
    {
      s := new SelectionSet();
    }
    function GetOperation(): string { "" }
    function GetDescription(): StringValue? reads this { Description }
  }

  /** A new node with the kind stamped and every other field copied from `def` (all zero for nil). */
  method NewDirectiveDefinition(def: DirectiveDefinition?) returns (r: DirectiveDefinition)
    ensures fresh(r)
    ensures r.Kind == Kinds.DirectiveDefinition
    ensures def != null ==> r.AgreesExceptKind(def) && unchanged(def)
    ensures def == null ==> r.FieldsZero()
    ensures DirectiveDef(r).Stamped()
  {
    var src := def;
    if src == null {
      src := new DirectiveDefinition();
    }
    r := new DirectiveDefinition();
    r.Kind, r.Loc, r.Name, r.Description := Kinds.DirectiveDefinition, src.Loc, src.Name, src.Description;
    r.Arguments, r.Locations := src.Arguments, src.Locations;
  }

  // ---------------------------------------------------------------------
  // The Definition interface

  /**
    A value of the five-query `Definition` interface: a non-nil pointer to
    one of the nine node types that answer all five queries.
    (VariableDefinition answers only GetKind and GetLoc, so it is not one.)
  */
  datatype Definition =
    | OperationDef(op: OperationDefinition)
    | FragmentDef(fd: FragmentDefinition)
    | ScalarExtensionDef(scalar: ScalarExtensionDefinition)
    | ObjectExtensionDef(obj: ObjectExtensionDefinition)
    | InterfaceExtensionDef(iface: InterfaceExtensionDefinition)
    | UnionExtensionDef(union: UnionExtensionDefinition)
    | EnumExtensionDef(enum: EnumExtensionDefinition)
    | InputObjectExtensionDef(input: InputObjectExtensionDefinition)
    | DirectiveDef(directive: DirectiveDefinition)
  {
    /** The node the interface value points to. */
    function Node(): object {
      match this
      case OperationDef(n) => n
      case FragmentDef(n) => n
      case ScalarExtensionDef(n) => n
      case ObjectExtensionDef(n) => n
      case InterfaceExtensionDef(n) => n
      case UnionExtensionDef(n) => n
      case EnumExtensionDef(n) => n
      case InputObjectExtensionDef(n) => n
      case DirectiveDef(n) => n
    }

    /** Which variant the interface value holds. */
    function Variant(): Kinds.NodeKind {
      match this
      case OperationDef(_) => Kinds.OperationNode
      case FragmentDef(_) => Kinds.FragmentNode
      case ScalarExtensionDef(_) => Kinds.ScalarExtensionNode
      case ObjectExtensionDef(_) => Kinds.ObjectExtensionNode
      case InterfaceExtensionDef(_) => Kinds.InterfaceExtensionNode
      case UnionExtensionDef(_) => Kinds.UnionExtensionNode
      case EnumExtensionDef(_) => Kinds.EnumExtensionNode
      case InputObjectExtensionDef(_) => Kinds.InputObjectExtensionNode
      case DirectiveDef(_) => Kinds.DirectiveNode
    }

    /** The variants for which the operation, variable and selection-set queries do not apply. */
    predicate HasEmptyDefaults() {
      !OperationDef? && !FragmentDef?
    }

    function GetKind(): (k: string)
      reads Node()
      ensures OperationDef? ==> k == op.Kind
      ensures FragmentDef? ==> k == fd.Kind
      ensures ScalarExtensionDef? ==> k == scalar.Kind
      ensures ObjectExtensionDef? ==> k == obj.Kind
      ensures InterfaceExtensionDef? ==> k == iface.Kind
      ensures UnionExtensionDef? ==> k == union.Kind
      ensures EnumExtensionDef? ==> k == enum.Kind
      ensures InputObjectExtensionDef? ==> k == input.Kind
      ensures DirectiveDef? ==> k == directive.Kind
    {
      match this
      case OperationDef(n) => n.GetKind()
      case FragmentDef(n) => n.GetKind()
      case ScalarExtensionDef(n) => n.GetKind()
      case ObjectExtensionDef(n) => n.GetKind()
      case InterfaceExtensionDef(n) => n.GetKind()
      case UnionExtensionDef(n) => n.GetKind()
      case EnumExtensionDef(n) => n.GetKind()
      case InputObjectExtensionDef(n) => n.GetKind()
      case DirectiveDef(n) => n.GetKind()
    }

    function GetLoc(): (l: Location?)
      reads Node()
      ensures OperationDef? ==> l == op.Loc
      ensures FragmentDef? ==> l == fd.Loc
      ensures ScalarExtensionDef? ==> l == scalar.Loc
      ensures ObjectExtensionDef? ==> l == obj.Loc
      ensures InterfaceExtensionDef? ==> l == iface.Loc
      ensures UnionExtensionDef? ==> l == union.Loc
      ensures EnumExtensionDef? ==> l == enum.Loc
      ensures InputObjectExtensionDef? ==> l == input.Loc
      ensures DirectiveDef? ==> l == directive.Loc
    {
      match this
      case OperationDef(n) => n.GetLoc()
      case FragmentDef(n) => n.GetLoc()
      case ScalarExtensionDef(n) => n.GetLoc()
      case ObjectExtensionDef(n) => n.GetLoc()
      case InterfaceExtensionDef(n) => n.GetLoc()
      case UnionExtensionDef(n) => n.GetLoc()
      case EnumExtensionDef(n) => n.GetLoc()
      case InputObjectExtensionDef(n) => n.GetLoc()
      case DirectiveDef(n) => n.GetLoc()
    }

    function GetOperation(): (s: string)
      reads Node()
      ensures OperationDef? ==> s == op.Operation
      ensures FragmentDef? ==> s == fd.Operation
      ensures HasEmptyDefaults() ==> s == ""
    {
      match this
      case OperationDef(n) => n.GetOperation()
      case FragmentDef(n) => n.GetOperation()
      case ScalarExtensionDef(n) => n.GetOperation()
      case ObjectExtensionDef(n) => n.GetOperation()
      case InterfaceExtensionDef(n) => n.GetOperation()
      case UnionExtensionDef(n) => n.GetOperation()
      case EnumExtensionDef(n) => n.GetOperation()
      case InputObjectExtensionDef(n) => n.GetOperation()
      case DirectiveDef(n) => n.GetOperation()
    }

    function GetVariableDefinitions(): (vs: Slice<VariableDefinition?>)
      reads Node()
      ensures OperationDef? ==> vs == op.VariableDefinitions
      ensures FragmentDef? ==> vs == fd.VariableDefinitions
      ensures HasEmptyDefaults() ==> vs.Make? && vs.Len() == 0
    {
      match this
      case OperationDef(n) => n.GetVariableDefinitions()
      case FragmentDef(n) => n.GetVariableDefinitions()
      case ScalarExtensionDef(n) => n.GetVariableDefinitions()
      case ObjectExtensionDef(n) => n.GetVariableDefinitions()
      case InterfaceExtensionDef(n) => n.GetVariableDefinitions()
      case UnionExtensionDef(n) => n.GetVariableDefinitions()
      case EnumExtensionDef(n) => n.GetVariableDefinitions()
      case InputObjectExtensionDef(n) => n.GetVariableDefinitions()
      case DirectiveDef(n) => n.GetVariableDefinitions()
    }

    /**
      The stored selection set (possibly nil) of an operation or fragment;
      a newly allocated one for every other variant, on every call.
    */
    method GetSelectionSet() returns (s: SelectionSet?)
      ensures OperationDef? ==> s == op.SelectionSet
      ensures FragmentDef? ==> s == fd.SelectionSet
      ensures HasEmptyDefaults() ==> s != null && fresh(s)
    {
      match this
      case OperationDef(n) => s := n.GetSelectionSet();
      case FragmentDef(n) => s := n.GetSelectionSet();
      case ScalarExtensionDef(n) => s := n.GetSelectionSet();
      case ObjectExtensionDef(n) => s := n.GetSelectionSet();
      case InterfaceExtensionDef(n) => s := n.GetSelectionSet();
      case UnionExtensionDef(n) => s := n.GetSelectionSet();
      case EnumExtensionDef(n) => s := n.GetSelectionSet();
      case InputObjectExtensionDef(n) => s := n.GetSelectionSet();
      case DirectiveDef(n) => s := n.GetSelectionSet();
    }

    /** The node carries the kind constant of its own variant, as every `New*` constructor ensures. */
    predicate Stamped()
      reads Node()
    {
      GetKind() == Kinds.Tag(Variant())
    }
  }
}
