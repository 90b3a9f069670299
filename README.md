# GraphQL definition-level AST, modelled in Dafny

This project models the definition-level nodes of a parsed GraphQL document
(`language/ast/definitions.go`) and proves what their constructors and accessors
guarantee. The nodes are operations, fragments, variable declarations, the six
type-extension wrappers and directive declarations, together with the five-query
`Definition` interface they answer.

- `kinds.dfy` (module `Kinds`): the ten kind constants the constructors stamp,
  the `NodeKind` enumeration of variants, and `Tag`, which gives each variant
  its constant. The source never decodes a kind tag. The model adds a decoder,
  `KindOfTag` (a search of the constant table by `Lookup`), to state that the
  constants are pairwise distinct, so the Kind a constructor stamps tells its
  variant.
- `nodes.dfy` (module `Nodes`): the collaborator node types as opaque classes
  (`Location`, `Name`, `SelectionSet`, `Directive`, `Named`, `Variable`,
  `Type`, `Value`, `StringValue`, `InputValueDefinition`, and the six base type
  definitions). It also holds `Slice<T>`, a Go slice as a value: `Nil` is the
  nil slice and `Make(xs)` a non-nil one.
- `definitions.dfy` (module `Definitions`): one class per node type.
  - Each class has the source's fields and a zero-argument constructor
    standing for Go's `&T{}`.
  - The `New*` constructors are module-level methods with `modifies`/`fresh`/`unchanged` contracts.
  - The accessors are functions. Those that read a field have a `reads` clause. The extension and directive `GetOperation` and `GetVariableDefinitions` return constants and read nothing.
  - The extension and directive `GetSelectionSet` allocate, so they are methods, and so is the interface's `GetSelectionSet`.
  - The `Definition` datatype is the interface: a non-nil pointer to one of the nine variants that answer all five queries.
- `properties.dfy` (module `DefinitionLaws`): properties that relate several
  calls. It covers read-back after construction, nil input vs. zero input,
  a fresh selection set on every call, and a kind tag identifying its variant.

The two constructor shapes are kept apart, as in the code:
- `NewOperationDefinition` and `NewVariableDefinition` overwrite `Kind` on the
  caller's object and return that same object.
- Every other `New*` returns a new object and does not touch its argument.

A nil argument is read as a zero-valued node in both shapes.

Points where the code's behaviour is easy to misread, and which the model follows:
- The two in-place constructors mutate their argument.
- `GetSelectionSet` of an operation or fragment returns the stored field, which may be nil.
- A fragment's `GetOperation` returns its stored `Operation`.
- `FragmentDefinition` has no accessors for `TypeCondition` or `Directives`, so `FragmentRoundTrip` reads those fields directly.

## Model

| member | source | states |
|---|---|---|
| `Kinds.Tag` | language/ast/definitions.go:42 | the constant a variant's constructor stamps (here line 42; likewise 91, 139, 163, 201, 239, 277, 315, 353, 394); no constant is the empty Kind of a zero-valued node |
| `Kinds.Lookup` | language/ast/definitions.go:42 | decoder added by the model, not a source operation: a found entry belongs to the table and carries the wanted tag; when nothing is found, no entry carries it. It decodes the constants stamped at lines 42, 91, 139, 163, 201, 239, 277, 315, 353 and 394 |
| `Kinds.RegistryComplete` | language/ast/definitions.go:27-425 | every one of the ten node variants has an entry in the kind table |
| `Kinds.RegistryDistinct` | language/ast/definitions.go:27-425 | the ten kind constants are pairwise distinct |
| `Kinds.LookupComplete` | language/ast/definitions.go:42 | lemma about the model's decoder: in a table whose tags are distinct, looking up an entry's tag finds exactly that entry |
| `Kinds.KindOfTagInverts` | language/ast/definitions.go:42 | the constant each constructor stamps (lines 42, 91, 139, 163, 201, 239, 277, 315, 353, 394) decodes back to that constructor's own variant |
| `Kinds.KindOfTagSound` | language/ast/definitions.go:42 | a decoded tag is the stamped constant of the variant it decodes to; a tag fails to decode exactly when no constructor stamps it |
| `Kinds.TagInjective` | language/ast/definitions.go:42 | two variants are stamped with the same constant if and only if they are the same variant |
| `Definitions.OperationDefinition.constructor` | language/ast/definitions.go:40 | `&OperationDefinition{}`: empty Kind and Operation, nil Loc, Name and SelectionSet, nil slices |
| `Definitions.NewOperationDefinition` | language/ast/definitions.go:38-44 | with a non-nil argument, returns that same object with Kind set to the operation constant and Loc, Operation, Name, VariableDefinitions, Directives and SelectionSet unchanged; with nil, returns a new node whose other fields are all zero; the result as a `Definition` is `Stamped`: its Kind is `Tag` of its own variant, whatever the argument's Kind was |
| `Definitions.FragmentDefinition.constructor` | language/ast/definitions.go:88 | `&FragmentDefinition{}`: every field at its zero value |
| `Definitions.NewFragmentDefinition` | language/ast/definitions.go:86-100 | returns a new node with Kind set to the fragment constant and all seven other fields equal to the argument's, which is left unmodified; with nil, all seven are zero; the result as a `Definition` is `Stamped`: its Kind is `Tag` of its own variant, whatever the argument's Kind was |
| `Definitions.VariableDefinition.constructor` | language/ast/definitions.go:137 | `&VariableDefinition{}`: every field at its zero value |
| `Definitions.NewVariableDefinition` | language/ast/definitions.go:135-141 | with a non-nil argument, returns that same object with Kind set to the variable constant and Loc, Variable, Type and DefaultValue unchanged; with nil, a new zero-valued node; its Kind is `Tag` of its own variant |
| `Definitions.ScalarExtensionDefinition.constructor` | language/ast/definitions.go:160 | `&ScalarExtensionDefinition{}`: nil Loc and Definition |
| `Definitions.ScalarExtensionDefinition.GetSelectionSet` | language/ast/definitions.go:181-183 | each call returns a new, non-nil selection set |
| `Definitions.NewScalarExtensionDefinition` | language/ast/definitions.go:158-167 | returns a new node with the scalar-extension constant and the argument's Loc and Definition; the argument is unmodified; nil gives nil fields; the result as a `Definition` is `Stamped`: its Kind is `Tag` of its own variant, whatever the argument's Kind was |
| `Definitions.ObjectExtensionDefinition.constructor` | language/ast/definitions.go:198 | `&ObjectExtensionDefinition{}`: nil Loc and Definition |
| `Definitions.ObjectExtensionDefinition.GetSelectionSet` | language/ast/definitions.go:219-221 | each call returns a new, non-nil selection set |
| `Definitions.NewObjectExtensionDefinition` | language/ast/definitions.go:196-205 | returns a new node with the object-extension constant and the argument's Loc and Definition; the argument is unmodified; nil gives nil fields; the result as a `Definition` is `Stamped`: its Kind is `Tag` of its own variant, whatever the argument's Kind was |
| `Definitions.InterfaceExtensionDefinition.constructor` | language/ast/definitions.go:236 | `&InterfaceExtensionDefinition{}`: nil Loc and Definition |
| `Definitions.InterfaceExtensionDefinition.GetSelectionSet` | language/ast/definitions.go:257-259 | each call returns a new, non-nil selection set |
| `Definitions.NewInterfaceExtensionDefinition` | language/ast/definitions.go:234-243 | returns a new node with the interface-extension constant and the argument's Loc and Definition; the argument is unmodified; nil gives nil fields; the result as a `Definition` is `Stamped`: its Kind is `Tag` of its own variant, whatever the argument's Kind was |
| `Definitions.UnionExtensionDefinition.constructor` | language/ast/definitions.go:274 | `&UnionExtensionDefinition{}`: nil Loc and Definition |
| `Definitions.UnionExtensionDefinition.GetSelectionSet` | language/ast/definitions.go:295-297 | each call returns a new, non-nil selection set |
| `Definitions.NewUnionExtensionDefinition` | language/ast/definitions.go:272-281 | returns a new node with the union-extension constant and the argument's Loc and Definition; the argument is unmodified; nil gives nil fields; the result as a `Definition` is `Stamped`: its Kind is `Tag` of its own variant, whatever the argument's Kind was |
| `Definitions.EnumExtensionDefinition.constructor` | language/ast/definitions.go:312 | `&EnumExtensionDefinition{}`: nil Loc and Definition |
| `Definitions.EnumExtensionDefinition.GetSelectionSet` | language/ast/definitions.go:333-335 | each call returns a new, non-nil selection set |
| `Definitions.NewEnumExtensionDefinition` | language/ast/definitions.go:310-319 | returns a new node with the enum-extension constant and the argument's Loc and Definition; the argument is unmodified; nil gives nil fields; the result as a `Definition` is `Stamped`: its Kind is `Tag` of its own variant, whatever the argument's Kind was |
| `Definitions.InputObjectExtensionDefinition.constructor` | language/ast/definitions.go:350 | `&InputObjectExtensionDefinition{}`: nil Loc and Definition |
| `Definitions.InputObjectExtensionDefinition.GetSelectionSet` | language/ast/definitions.go:371-373 | each call returns a new, non-nil selection set |
| `Definitions.NewInputObjectExtensionDefinition` | language/ast/definitions.go:348-357 | returns a new node with the input-object-extension constant and the argument's Loc and Definition; the argument is unmodified; nil gives nil fields; the result as a `Definition` is `Stamped`: its Kind is `Tag` of its own variant, whatever the argument's Kind was |
| `Definitions.DirectiveDefinition.constructor` | language/ast/definitions.go:391 | `&DirectiveDefinition{}`: every field at its zero value |
| `Definitions.DirectiveDefinition.GetSelectionSet` | language/ast/definitions.go:415-417 | each call returns a new, non-nil selection set |
| `Definitions.NewDirectiveDefinition` | language/ast/definitions.go:389-401 | returns a new node with the directive constant and the argument's Loc, Name, Description, Arguments and Locations; the argument is unmodified; nil gives zero fields; the result as a `Definition` is `Stamped`: its Kind is `Tag` of its own variant, whatever the argument's Kind was |
| `Definitions.Definition.GetKind` | language/ast/definitions.go:7-13 | for every variant, the interface's GetKind is the node's stored Kind |
| `Definitions.Definition.GetLoc` | language/ast/definitions.go:7-13 | for every variant, the interface's GetLoc is the node's stored Loc |
| `Definitions.Definition.GetOperation` | language/ast/definitions.go:7-13 | the stored Operation for operations and fragments; `""` for the six extensions and the directive definition |
| `Definitions.Definition.GetVariableDefinitions` | language/ast/definitions.go:7-13 | the stored slice (possibly nil) for operations and fragments; a non-nil slice of length 0 for the extensions and the directive definition |
| `Definitions.Definition.GetSelectionSet` | language/ast/definitions.go:7-13 | the stored selection set (possibly nil) for operations and fragments; a newly allocated non-nil one for every other variant |
| `DefinitionLaws.KindIdentifiesVariant` | language/ast/definitions.go:7-13 | decoding GetKind of a stamped node gives the node's variant; since every `New*` returns a stamped node, the Kind a constructor stamps decodes to its own variant |
| `DefinitionLaws.KindsTellVariantsApart` | language/ast/definitions.go:7-13 | two stamped nodes, such as any two `New*` results, report the same kind if and only if they are the same variant |
| `DefinitionLaws.OperationRoundTrip` | language/ast/definitions.go:38-72 | after the caller fills an operation and constructs it, the same object is returned, GetKind is the operation constant whatever Kind held before, and GetLoc, GetOperation, GetName, GetVariableDefinitions, GetDirectives and GetSelectionSet return what the caller stored |
| `DefinitionLaws.FragmentRoundTrip` | language/ast/definitions.go:86-124 | a fragment built from a filled-in value is a different object; the caller's value keeps its old Kind; GetLoc, GetOperation, GetName, GetVariableDefinitions and GetSelectionSet, and the TypeCondition and Directives fields, return the caller's values |
| `DefinitionLaws.VariableRoundTrip` | language/ast/definitions.go:135-149 | a variable definition is stamped in place: same object, variable constant, and the caller's Loc, Variable, Type and DefaultValue |
| `DefinitionLaws.DirectiveRoundTrip` | language/ast/definitions.go:389-425 | a directive definition is copied: a different object; the caller keeps its Kind; GetLoc and GetDescription and the Name, Arguments and Locations fields return the caller's values |
| `DefinitionLaws.ScalarExtensionRoundTrip` | language/ast/definitions.go:158-175 | an extension is copied: a different object; the caller keeps its Kind; GetLoc and the wrapped Definition are the caller's |
| `DefinitionLaws.NilOperationIsZeroOperation` | language/ast/definitions.go:39-42 | constructing from nil and from an explicitly zero-valued operation gives two distinct nodes with the same kind and all other fields zero |
| `DefinitionLaws.NilFragmentIsZeroFragment` | language/ast/definitions.go:87-99 | nil and an explicitly zero-valued fragment give two distinct nodes with the same kind and every other field zero |
| `DefinitionLaws.NilVariableIsZeroVariable` | language/ast/definitions.go:136-139 | nil and an explicitly zero-valued variable definition give two distinct nodes with the same kind and every other field zero |
| `DefinitionLaws.NilScalarExtensionIsZero` | language/ast/definitions.go:159-166 | nil and a zero-valued scalar extension give two distinct nodes with the same kind and every other field zero |
| `DefinitionLaws.NilObjectExtensionIsZero` | language/ast/definitions.go:197-204 | nil and a zero-valued object extension give two distinct nodes with the same kind and every other field zero |
| `DefinitionLaws.NilInterfaceExtensionIsZero` | language/ast/definitions.go:235-242 | nil and a zero-valued interface extension give two distinct nodes with the same kind and every other field zero |
| `DefinitionLaws.NilUnionExtensionIsZero` | language/ast/definitions.go:273-280 | nil and a zero-valued union extension give two distinct nodes with the same kind and every other field zero |
| `DefinitionLaws.NilEnumExtensionIsZero` | language/ast/definitions.go:311-318 | nil and a zero-valued enum extension give two distinct nodes with the same kind and every other field zero |
| `DefinitionLaws.NilInputObjectExtensionIsZero` | language/ast/definitions.go:349-356 | nil and a zero-valued input-object extension give two distinct nodes with the same kind and every other field zero |
| `DefinitionLaws.NilDirectiveIsZeroDirective` | language/ast/definitions.go:390-400 | nil and a zero-valued directive definition give two distinct nodes with the same kind and every other field zero |
| `DefinitionLaws.DefaultSelectionSetsAreDistinct` | language/ast/definitions.go:181-183 | for an extension or directive node, two GetSelectionSet calls on the same node return two different non-nil selection sets |

The class accessors that only read a field are functions without a contract of
their own. What they return is stated through the interface functions above
and the round-trip methods. No accessor can modify a node: functions cannot
change state, and the allocating `GetSelectionSet` methods have no `modifies`
clause.

## Left out

- `language/typeInfo/type_info.go` declares only the `Enter`/`Leave` hook interface. It has no implementation, and the tree walker that drives it is not part of this model.
- The compile-time interface checks at `language/ast/definitions.go:16-18` are Go type-system artefacts. `TypeSystemDefinition` is not part of this model.
- The operation-type constants at `language/ast/definitions.go:21-25` are never checked against `Operation`. The model keeps `Operation` an unconstrained string.
- The real strings of the `kinds` package are not part of this model. Each constant is spelled as its own name. The model also takes every constant to be non-empty (the contract of `Kinds.Tag`): that holds of the chosen spelling. The strings are defined in the `kinds` package, which `language/ast/definitions.go` only imports (line 4), so nothing modelled here establishes it. The other proofs use only the fact that the constants are distinct.
- The collaborator node types are opaque. In particular the contents of a `SelectionSet` are not modelled, so "empty" for the default selection set means only a new zero-valued allocation.
- Go slices are modelled as values. The model does not capture that a copied slice field shares its backing array with the argument, so writes to its elements are visible through both.
- Go allows a `Definition` interface value that holds a nil pointer, and the model does not represent one: its `Definition` values always hold a non-nil node.
  - For operations and fragments, all five queries read a field, so on a nil pointer each of them panics.
  - For the six extensions and the directive definition, `GetOperation`, `GetVariableDefinitions` and `GetSelectionSet` never read their receiver. On a nil pointer they still return `""`, an empty non-nil slice and a new selection set, and only `GetKind` and `GetLoc` panic. This behaviour is dropped.
- Each call of an extension's `GetVariableDefinitions` allocates a new zero-length slice. Its identity is not observable, so the model returns the value `Make([])`.
- `DefinitionLaws.ScalarExtensionRoundTrip` is the only round trip written for an extension. The other five extension constructors have the same contract shape, which their own `New*` rows state.
