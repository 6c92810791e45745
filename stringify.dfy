/** `stringifyTypeTree`: a type tree as a one-line type expression.

    The source filters `undefined` members out of an optional union in place before printing
    it. `Render` is the string that call returns; `AfterStringify` is the tree the caller holds
    once the call has returned. */
module Stringify {
  import opened Common
  import opened TypeTrees

  /** `?` is printed, and `undefined` members are dropped, only when an optional property or
      parameter holds a union. */
  predicate Marked(optional: bool, t: TypeTree)
  {
    optional && t.Union?
  }

  /** `stringifyTypeTree(t, anonymousFunction)`. Every nested call uses the default
      `anonymousFunction = true`. */
  function Render(t: TypeTree, anonymousFunction: bool): string
    requires WellFormed(t)
    decreases t, 0
  {
    match t
    case Union(_, types, excess) => UnionString(RenderMembers(types, false), excess)
    case Object(_, props, excess) =>
      "{ " + Join(RenderProperties(props), " ")
      + (if excess > 0 then " ... " + NatToString(excess) + " more;" else "") + " }"
    case Tuple(_, readonly, elems) =>
      (if readonly then "readonly " else "") + "[" + Join(RenderMembers(elems, false), ", ") + "]"
    case Array(_, readonly, elem) =>
      var e := Render(elem, true);
      (if readonly then "readonly " else "") + (if '|' in e || '&' in e then "(" + e + ")" else e) + "[]"
    case Function(_, sigs) =>
      var ss := RenderSignatures(sigs, if anonymousFunction then " =>" else ":");
      if |ss| > 1 then "{" + Join(ss, "; ") + ";}" else ss[0]
    case Enum(_, member) => member
    case Promise(_, inner) => "Promise<" + Render(inner, true) + ">"
    case Primitive(name) => name
    case Reference(name) => name
  }

  /** The members joined by ` | `, with ` | ... N more` when members were cut off. */
  function UnionString(members: seq<string>, excess: int): string
  {
    var s := Join(members, " | ");
    if excess > 0 then s + " | ... " + NatToString(excess) + " more" else s
  }

  /** The rendered members, in order; with `dropUndefined`, those named `undefined` are left out. */
  function RenderMembers(ts: seq<TypeTree>, dropUndefined: bool): (r: seq<string>)
    requires forall i :: 0 <= i < |ts| ==> WellFormed(ts[i])
    ensures |r| <= |ts|
    ensures !dropUndefined ==> |r| == |ts|
    decreases ts, 0
  {
    if ts == [] then []
    else if dropUndefined && ts[0].typeName == "undefined" then RenderMembers(ts[1..], dropUndefined)
    else [Render(ts[0], true)] + RenderMembers(ts[1..], dropUndefined)
  }

  /** The type of an optional property or parameter: a marked union is printed without its
      `undefined` members. */
  function RenderSlot(t: TypeTree, marked: bool): string
    requires WellFormed(t)
    decreases t, 1
  {
    if marked && t.Union? then UnionString(RenderMembers(t.types, true), t.excessMembers)
    else Render(t, true)
  }

  function RenderProperties(ps: seq<TypeProperty>): (r: seq<string>)
    requires forall i :: 0 <= i < |ps| ==> WellFormed(ps[i].propType)
    ensures |r| == |ps|
    decreases ps, 0
  {
    if ps == [] then [] else [RenderProperty(ps[0])] + RenderProperties(ps[1..])
  }

  /** `readonly? name?: T;` */
  function RenderProperty(p: TypeProperty): string
    requires WellFormed(p.propType)
    decreases p, 0
  {
    var marked := Marked(p.optional, p.propType);
    (if p.readonly then "readonly " else "") + p.name + (if marked then "?" else "") + ": "
    + RenderSlot(p.propType, marked) + ";"
  }

  function RenderSignatures(sigs: seq<TypeFunctionSignature>, returnTypeChar: string): (r: seq<string>)
    requires forall i :: 0 <= i < |sigs| ==> SignatureWellFormed(sigs[i])
    ensures |r| == |sigs|
    decreases sigs, 0
  {
    if sigs == [] then []
    else [RenderSignature(sigs[0], returnTypeChar)] + RenderSignatures(sigs[1..], returnTypeChar)
  }

  /** `(params)=> R` or `(params): R`. */
  function RenderSignature(s: TypeFunctionSignature, returnTypeChar: string): string
    requires SignatureWellFormed(s)
    decreases s, 0
  {
    "(" + Join(RenderParameters(s.parameters), ", ") + ")" + returnTypeChar + " " + Render(s.returnType, true)
  }

  function RenderParameters(ps: seq<TypeFunctionParameter>): (r: seq<string>)
    requires forall i :: 0 <= i < |ps| ==> WellFormed(ps[i].paramType)
    ensures |r| == |ps|
    decreases ps, 0
  {
    if ps == [] then [] else [RenderParameter(ps[0])] + RenderParameters(ps[1..])
  }

  /** `...? name?: T` */
  function RenderParameter(p: TypeFunctionParameter): string
    requires WellFormed(p.paramType)
    decreases p, 0
  {
    var marked := Marked(p.optional, p.paramType);
    (if p.isRestParameter then "..." else "") + p.name + (if marked then "?" else "") + ": "
    + RenderSlot(p.paramType, marked)
  }

  // ---------------------------------------------------------------------------------------
  // The tree after the call

  /** The tree once `stringifyTypeTree` has returned: every optional union it printed has lost
      its `undefined` members, at every level it reached. */
  function AfterStringify(t: TypeTree): (r: TypeTree)
    ensures r.typeName == t.typeName
    ensures r.Union? == t.Union?
    decreases t, 0
  {
    match t
    case Union(name, types, excess) => Union(name, AfterMembers(types, false), excess)
    case Object(name, props, excess) => Object(name, AfterProperties(props), excess)
    case Tuple(name, readonly, elems) => Tuple(name, readonly, AfterMembers(elems, false))
    case Array(name, readonly, elem) => Array(name, readonly, AfterStringify(elem))
    case Function(name, sigs) => Function(name, AfterSignatures(sigs))
    case Promise(name, inner) => Promise(name, AfterStringify(inner))
    case Enum(_, _) => t
    case Primitive(_) => t
    case Reference(_) => t
  }

  function AfterMembers(ts: seq<TypeTree>, dropUndefined: bool): (r: seq<TypeTree>)
    ensures |r| <= |ts|
    ensures !dropUndefined ==> |r| == |ts|
    ensures dropUndefined ==> forall i :: 0 <= i < |r| ==> r[i].typeName != "undefined"
    decreases ts, 0
  {
    if ts == [] then []
    else if dropUndefined && ts[0].typeName == "undefined" then AfterMembers(ts[1..], dropUndefined)
    else [AfterStringify(ts[0])] + AfterMembers(ts[1..], dropUndefined)
  }

  function AfterSlot(t: TypeTree, marked: bool): (r: TypeTree)
    ensures r.Union? == t.Union?
    decreases t, 1
  {
    if marked && t.Union? then Union(t.typeName, AfterMembers(t.types, true), t.excessMembers)
    else AfterStringify(t)
  }

  function AfterProperties(ps: seq<TypeProperty>): (r: seq<TypeProperty>)
    ensures |r| == |ps|
    decreases ps, 0
  {
    if ps == [] then [] else [AfterProperty(ps[0])] + AfterProperties(ps[1..])
  }

  function AfterProperty(p: TypeProperty): (r: TypeProperty)
    ensures r.name == p.name && r.optional == p.optional && r.readonly == p.readonly
    decreases p, 0
  {
    p.(propType := AfterSlot(p.propType, Marked(p.optional, p.propType)))
  }

  function AfterSignatures(sigs: seq<TypeFunctionSignature>): (r: seq<TypeFunctionSignature>)
    ensures |r| == |sigs|
    decreases sigs, 0
  {
    if sigs == [] then [] else [AfterSignature(sigs[0])] + AfterSignatures(sigs[1..])
  }

  function AfterSignature(s: TypeFunctionSignature): (r: TypeFunctionSignature)
    decreases s, 0
  {
    TypeFunctionSignature(AfterStringify(s.returnType), AfterParameters(s.parameters))
  }

  function AfterParameters(ps: seq<TypeFunctionParameter>): (r: seq<TypeFunctionParameter>)
    ensures |r| == |ps|
    decreases ps, 0
  {
    if ps == [] then [] else [AfterParameter(ps[0])] + AfterParameters(ps[1..])
  }

  function AfterParameter(p: TypeFunctionParameter): (r: TypeFunctionParameter)
    ensures r.name == p.name && r.optional == p.optional && r.isRestParameter == p.isRestParameter
    decreases p, 0
  {
    p.(paramType := AfterSlot(p.paramType, Marked(p.optional, p.paramType)))
  }

  // ---------------------------------------------------------------------------------------
  // The mutation is invisible to later calls

  /** Printing the tree again after the call gives the same string, the tree stays well formed,
      and a second call changes nothing more. */
  lemma {:induction false} StringifyIsStable(t: TypeTree, anonymousFunction: bool)
    requires WellFormed(t)
    ensures WellFormed(AfterStringify(t))
    ensures Render(AfterStringify(t), anonymousFunction) == Render(t, anonymousFunction)
    ensures AfterStringify(AfterStringify(t)) == AfterStringify(t)
    decreases t, 0
  {
    match t
    case Union(_, types, _) => MembersAreStable(types, false);
    case Object(_, props, _) => PropertiesAreStable(props);
    case Tuple(_, _, elems) => MembersAreStable(elems, false);
    case Array(_, _, elem) => StringifyIsStable(elem, true);
    case Function(_, sigs) =>
      SignaturesAreStable(sigs, if anonymousFunction then " =>" else ":");
    case Promise(_, inner) => StringifyIsStable(inner, true);
    case Enum(_, _) =>
    case Primitive(_) =>
    case Reference(_) =>
  }

  lemma {:induction false} MembersAreStable(ts: seq<TypeTree>, dropUndefined: bool)
    requires forall i :: 0 <= i < |ts| ==> WellFormed(ts[i])
    ensures var after := AfterMembers(ts, dropUndefined);
            && (forall i :: 0 <= i < |after| ==> WellFormed(after[i]))
            && RenderMembers(after, dropUndefined) == RenderMembers(ts, dropUndefined)
            && AfterMembers(after, dropUndefined) == after
    decreases ts, 0
  {
    if ts != [] {
      MembersAreStable(ts[1..], dropUndefined);
      if !(dropUndefined && ts[0].typeName == "undefined") {
        StringifyIsStable(ts[0], true);
        var after := AfterMembers(ts, dropUndefined);
        assert after == [AfterStringify(ts[0])] + AfterMembers(ts[1..], dropUndefined);
        assert after[1..] == AfterMembers(ts[1..], dropUndefined);
      }
    }
  }

  lemma {:induction false} SlotIsStable(t: TypeTree, marked: bool)
    requires WellFormed(t)
    ensures WellFormed(AfterSlot(t, marked))
    ensures RenderSlot(AfterSlot(t, marked), marked) == RenderSlot(t, marked)
    ensures AfterSlot(AfterSlot(t, marked), marked) == AfterSlot(t, marked)
    decreases t, 1
  {
    if marked && t.Union? {
      MembersAreStable(t.types, true);
    } else {
      StringifyIsStable(t, true);
    }
  }

  lemma {:induction false} PropertiesAreStable(ps: seq<TypeProperty>)
    requires forall i :: 0 <= i < |ps| ==> WellFormed(ps[i].propType)
    ensures var after := AfterProperties(ps);
            && (forall i :: 0 <= i < |after| ==> WellFormed(after[i].propType))
            && RenderProperties(after) == RenderProperties(ps)
            && AfterProperties(after) == after
    decreases ps, 0
  {
    if ps != [] {
      PropertyIsStable(ps[0]);
      PropertiesAreStable(ps[1..]);
      var after := AfterProperties(ps);
      assert after[1..] == AfterProperties(ps[1..]);
    }
  }

  lemma {:induction false} PropertyIsStable(p: TypeProperty)
    requires WellFormed(p.propType)
    ensures WellFormed(AfterProperty(p).propType)
    ensures RenderProperty(AfterProperty(p)) == RenderProperty(p)
    ensures AfterProperty(AfterProperty(p)) == AfterProperty(p)
    decreases p, 0
  {
    SlotIsStable(p.propType, Marked(p.optional, p.propType));
  }

  lemma {:induction false} SignaturesAreStable(sigs: seq<TypeFunctionSignature>, returnTypeChar: string)
    requires forall i :: 0 <= i < |sigs| ==> SignatureWellFormed(sigs[i])
    ensures var after := AfterSignatures(sigs);
            && (forall i :: 0 <= i < |after| ==> SignatureWellFormed(after[i]))
            && RenderSignatures(after, returnTypeChar) == RenderSignatures(sigs, returnTypeChar)
            && AfterSignatures(after) == after
    decreases sigs, 0
  {
    if sigs != [] {
      SignatureIsStable(sigs[0], returnTypeChar);
      SignaturesAreStable(sigs[1..], returnTypeChar);
      var after := AfterSignatures(sigs);
      assert after[1..] == AfterSignatures(sigs[1..]);
    }
  }

  lemma {:induction false} SignatureIsStable(s: TypeFunctionSignature, returnTypeChar: string)
    requires SignatureWellFormed(s)
    ensures SignatureWellFormed(AfterSignature(s))
    ensures RenderSignature(AfterSignature(s), returnTypeChar) == RenderSignature(s, returnTypeChar)
    ensures AfterSignature(AfterSignature(s)) == AfterSignature(s)
    decreases s, 0
  {
    StringifyIsStable(s.returnType, true);
    ParametersAreStable(s.parameters);
  }

  lemma {:induction false} ParametersAreStable(ps: seq<TypeFunctionParameter>)
    requires forall i :: 0 <= i < |ps| ==> WellFormed(ps[i].paramType)
    ensures var after := AfterParameters(ps);
            && (forall i :: 0 <= i < |after| ==> WellFormed(after[i].paramType))
            && RenderParameters(after) == RenderParameters(ps)
            && AfterParameters(after) == after
    decreases ps, 0
  {
    if ps != [] {
      ParameterIsStable(ps[0]);
      ParametersAreStable(ps[1..]);
      var after := AfterParameters(ps);
      assert after[1..] == AfterParameters(ps[1..]);
    }
  }

  lemma {:induction false} ParameterIsStable(p: TypeFunctionParameter)
    requires WellFormed(p.paramType)
    ensures WellFormed(AfterParameter(p).paramType)
    ensures RenderParameter(AfterParameter(p)) == RenderParameter(p)
    ensures AfterParameter(AfterParameter(p)) == AfterParameter(p)
    decreases p, 0
  {
    SlotIsStable(p.paramType, Marked(p.optional, p.paramType));
  }
}
