/**
  The discriminant kind tags that the definition constructors stamp on their
  nodes. The kinds package that defines these strings is not part of this
  model: each constant here is spelled as its own name. The model relies on
  the ten being pairwise distinct (RegistryDistinct), which is what lets a
  reader of GetKind tell the variants apart (KindOfTagInverts), and on none
  being empty (Tag), a fact of the chosen spelling only.
*/
module Kinds {

  datatype Option<T> = None | Some(value: T)

  const OperationDefinition: string := "OperationDefinition"
  const FragmentDefinition: string := "FragmentDefinition"
  const VariableDefinition: string := "VariableDefinition"
  const ScalarExtensionDefinition: string := "ScalarExtensionDefinition"
  const ObjectExtensionDefinition: string := "ObjectExtensionDefinition"
  const InterfaceExtensionDefinition: string := "InterfaceExtensionDefinition"
  const UnionExtensionDefinition: string := "UnionExtensionDefinition"
  const EnumExtensionDefinition: string := "EnumExtensionDefinition"
  const InputObjectExtensionDefinition: string := "InputObjectExtensionDefinition"
  const DirectiveDefinition: string := "DirectiveDefinition"

  /** The ten node variants of the definition layer, one per kind constant. */
  datatype NodeKind =
    | OperationNode
    | FragmentNode
    | VariableNode
    | ScalarExtensionNode
    | ObjectExtensionNode
    | InterfaceExtensionNode
    | UnionExtensionNode
    | EnumExtensionNode
    | InputObjectExtensionNode
    | DirectiveNode

  /**
    The kind constant associated with each variant. None is the empty
    string, so a stamped node never carries the Kind of a zero-valued one.
  */
  function Tag(k: NodeKind): (tag: string)
    ensures tag != ""
  {
    match k
    case OperationNode => OperationDefinition
    case FragmentNode => FragmentDefinition
    case VariableNode => VariableDefinition
    case ScalarExtensionNode => ScalarExtensionDefinition
    case ObjectExtensionNode => ObjectExtensionDefinition
    case InterfaceExtensionNode => InterfaceExtensionDefinition
    case UnionExtensionNode => UnionExtensionDefinition
    case EnumExtensionNode => EnumExtensionDefinition
    case InputObjectExtensionNode => InputObjectExtensionDefinition
    case DirectiveNode => DirectiveDefinition
  }

  /** Every variant, in the order the source declares them. */
  const Registry: seq<NodeKind> := [
    OperationNode, FragmentNode, VariableNode,
    ScalarExtensionNode, ObjectExtensionNode, InterfaceExtensionNode,
    UnionExtensionNode, EnumExtensionNode, InputObjectExtensionNode,
    DirectiveNode
  ]

  /** No two entries of a table carry the same kind tag. */
  predicate DistinctTags(table: seq<NodeKind>) {
    forall i, j :: 0 <= i < j < |table| ==> Tag(table[i]) != Tag(table[j])
  }

  /** An entry of `table` whose kind tag is `tag`, if there is one. */
  function Lookup(tag: string, table: seq<NodeKind>): (r: Option<NodeKind>)
    ensures r.Some? ==> r.value in table && Tag(r.value) == tag
    ensures r.None? ==> forall k :: k in table ==> Tag(k) != tag
  {
    if table == [] then None
    else if Tag(table[0]) == tag then Some(table[0])
    else Lookup(tag, table[1..])
  }

  /** The variant a kind tag identifies: the inverse of Tag. */
  function KindOfTag(tag: string): Option<NodeKind> {
    Lookup(tag, Registry)
  }

  lemma RegistryComplete(k: NodeKind)
    ensures k in Registry
  {
  }

  lemma RegistryDistinct()
    ensures DistinctTags(Registry)
  {
  }

  /**
    In a table whose tags are distinct, looking up an entry's tag finds that
    very entry: Lookup finds some entry with that tag, and distinctness leaves
    only one.
  */
  lemma LookupComplete(table: seq<NodeKind>, k: NodeKind)
    requires DistinctTags(table)
    requires k in table
    ensures Lookup(Tag(k), table) == Some(k)
  {
  }

  /** Tag and KindOfTag are inverse: every variant's tag decodes to that variant ... */
  lemma KindOfTagInverts(k: NodeKind)
    ensures KindOfTag(Tag(k)) == Some(k)
  {
    RegistryDistinct();
    RegistryComplete(k);
    LookupComplete(Registry, k);
  }

  /** ... and every tag that decodes at all is the tag of what it decodes to. */
  lemma KindOfTagSound(tag: string)
    ensures KindOfTag(tag).Some? ==> Tag(KindOfTag(tag).value) == tag
    ensures KindOfTag(tag).None? <==> forall k: NodeKind :: Tag(k) != tag
  {
    if KindOfTag(tag).None? {
      forall k: NodeKind ensures Tag(k) != tag {
        RegistryComplete(k);
      }
    }
  }

  /** Distinct variants carry distinct kind tags. */
  lemma TagInjective(k1: NodeKind, k2: NodeKind)
    ensures Tag(k1) == Tag(k2) <==> k1 == k2
  {
    KindOfTagInverts(k1);
    KindOfTagInverts(k2);
  }
}
