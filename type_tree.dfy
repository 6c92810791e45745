/** The intermediate representation: a finite tree, one variant per `kind`. */
module TypeTrees {

  datatype TypeTree =
    | Primitive(typeName: string)
    | Reference(typeName: string)
    | Union(typeName: string, types: seq<TypeTree>, excessMembers: int)
    | Object(typeName: string, properties: seq<TypeProperty>, excessProperties: int)
    | Tuple(typeName: string, readonly: bool, elementTypes: seq<TypeTree>)
    | Array(typeName: string, readonly: bool, elementType: TypeTree)
    | Function(typeName: string, signatures: seq<TypeFunctionSignature>)
    | Promise(typeName: string, valueType: TypeTree)
    | Enum(typeName: string, member: string)

  datatype TypeProperty = TypeProperty(name: string, optional: bool, readonly: bool, propType: TypeTree)

  datatype TypeFunctionParameter =
    TypeFunctionParameter(name: string, isRestParameter: bool, optional: bool, paramType: TypeTree)

  datatype TypeFunctionSignature =
    TypeFunctionSignature(returnType: TypeTree, parameters: seq<TypeFunctionParameter>)

  /** Every `function` node has at least one signature, as every node the builder emits does
      (the renderer reads `signatures[0]`). */
  predicate WellFormed(t: TypeTree)
  {
    match t
    case Union(_, types, _) => forall i :: 0 <= i < |types| ==> WellFormed(types[i])
    case Object(_, props, _) => forall i :: 0 <= i < |props| ==> WellFormed(props[i].propType)
    case Tuple(_, _, elems) => forall i :: 0 <= i < |elems| ==> WellFormed(elems[i])
    case Array(_, _, elem) => WellFormed(elem)
    case Function(_, sigs) =>
      |sigs| > 0 && forall i :: 0 <= i < |sigs| ==> SignatureWellFormed(sigs[i])
    case Promise(_, inner) => WellFormed(inner)
    case _ => true
  }

  predicate SignatureWellFormed(s: TypeFunctionSignature)
  {
    WellFormed(s.returnType)
    && forall j :: 0 <= j < |s.parameters| ==> WellFormed(s.parameters[j].paramType)
  }

  /** The limits a built tree keeps: a union holds at most `members` entries and an object at
      most `width` properties (a negative limit bounds nothing), and objects that show properties
      nest at most `levels` deep. */
  predicate Bounded(t: TypeTree, levels: nat, width: int, members: int)
  {
    match t
    case Union(_, types, _) =>
      (members >= 0 ==> |types| <= members)
      && forall i :: 0 <= i < |types| ==> Bounded(types[i], levels, width, members)
    case Object(_, props, _) =>
      (width >= 0 ==> |props| <= width)
      && (props == [] || (levels > 0 && forall i :: 0 <= i < |props| ==> Bounded(props[i].propType, levels - 1, width, members)))
    case Tuple(_, _, elems) => forall i :: 0 <= i < |elems| ==> Bounded(elems[i], levels, width, members)
    case Array(_, _, elem) => Bounded(elem, levels, width, members)
    case Function(_, sigs) => forall i :: 0 <= i < |sigs| ==> SignatureBounded(sigs[i], levels, width, members)
    case Promise(_, inner) => Bounded(inner, levels, width, members)
    case _ => true
  }

  predicate SignatureBounded(s: TypeFunctionSignature, levels: nat, width: int, members: int)
  {
    Bounded(s.returnType, levels, width, members)
    && forall j :: 0 <= j < |s.parameters| ==> Bounded(s.parameters[j].paramType, levels, width, members)
  }

  /** Allowing more nesting levels keeps a tree bounded. */
  lemma {:induction false} BoundedMonotone(t: TypeTree, levels: nat, more: nat, width: int, members: int)
    requires Bounded(t, levels, width, members) && levels <= more
    ensures Bounded(t, more, width, members)
  {
    match t
    case Union(_, types, _) =>
      forall i | 0 <= i < |types| ensures Bounded(types[i], more, width, members) {
        BoundedMonotone(types[i], levels, more, width, members);
      }
    case Object(_, props, _) =>
      forall i | 0 <= i < |props| ensures Bounded(props[i].propType, more - 1, width, members) {
        BoundedMonotone(props[i].propType, levels - 1, more - 1, width, members);
      }
    case Tuple(_, _, elems) =>
      forall i | 0 <= i < |elems| ensures Bounded(elems[i], more, width, members) {
        BoundedMonotone(elems[i], levels, more, width, members);
      }
    case Array(_, _, elem) => BoundedMonotone(elem, levels, more, width, members);
    case Function(_, sigs) =>
      forall i | 0 <= i < |sigs| ensures SignatureBounded(sigs[i], more, width, members) {
        var sig := sigs[i];
        BoundedMonotone(sig.returnType, levels, more, width, members);
        forall j | 0 <= j < |sig.parameters| ensures Bounded(sig.parameters[j].paramType, more, width, members) {
          BoundedMonotone(sig.parameters[j].paramType, levels, more, width, members);
        }
      }
    case Promise(_, inner) => BoundedMonotone(inner, levels, more, width, members);
    case _ =>
  }

  lemma {:induction false} SignaturesBoundedMonotone(sigs: seq<TypeFunctionSignature>, levels: nat, more: nat, width: int, members: int)
    requires forall i :: 0 <= i < |sigs| ==> SignatureBounded(sigs[i], levels, width, members)
    requires levels <= more
    ensures forall i :: 0 <= i < |sigs| ==> SignatureBounded(sigs[i], more, width, members)
  {
    forall i | 0 <= i < |sigs| ensures SignatureBounded(sigs[i], more, width, members) {
      var sig := sigs[i];
      BoundedMonotone(sig.returnType, levels, more, width, members);
      forall j | 0 <= j < |sig.parameters| ensures Bounded(sig.parameters[j].paramType, more, width, members) {
        BoundedMonotone(sig.parameters[j].paramType, levels, more, width, members);
      }
    }
  }
}
