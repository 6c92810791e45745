/** The copy-type command's text: a type tree printed on one line by `stringifyTypeTree` and then laid
    out by `prettyPrintTypeString`. The layout throws only when the printed braces do not
    balance, which the tree itself can cause only through the strings it copies verbatim. */
module Layout {
  import opened Common
  import opened TypeTrees
  import opened Stringify
  import opened PrettyPrint

  /** Every string the printer copies from the tree as it is (type names of leaves, enum
      members, property and parameter names) has balanced braces. */
  predicate NamesBalanced(t: TypeTree)
  {
    match t
    case Union(_, types, _) => forall i :: 0 <= i < |types| ==> NamesBalanced(types[i])
    case Object(_, props, _) =>
      forall i :: 0 <= i < |props| ==> Balanced(props[i].name) && NamesBalanced(props[i].propType)
    case Tuple(_, _, elems) => forall i :: 0 <= i < |elems| ==> NamesBalanced(elems[i])
    case Array(_, _, elem) => NamesBalanced(elem)
    case Function(_, sigs) => forall i :: 0 <= i < |sigs| ==> SignatureNamesBalanced(sigs[i])
    case Promise(_, inner) => NamesBalanced(inner)
    case Enum(_, member) => Balanced(member)
    case Primitive(name) => Balanced(name)
    case Reference(name) => Balanced(name)
  }

  predicate SignatureNamesBalanced(s: TypeFunctionSignature)
  {
    NamesBalanced(s.returnType)
    && forall j :: 0 <= j < |s.parameters| ==>
         Balanced(s.parameters[j].name) && NamesBalanced(s.parameters[j].paramType)
  }

  // ---------------------------------------------------------------------------------------
  // Balance of the pieces the printer puts together

  predicate AllBalanced(parts: seq<string>)
  {
    forall i :: 0 <= i < |parts| ==> Balanced(parts[i])
  }

  lemma {:induction false} JoinBalanced(parts: seq<string>, sep: string)
    requires AllBalanced(parts)
    requires '{' !in sep && '}' !in sep
    ensures Balanced(Join(parts, sep))
  {
    if |parts| > 1 {
      JoinBalanced(parts[1..], sep);
      BraceFreeBalanced(sep);
      BalancedAppend(parts[0], sep);
      BalancedAppend(parts[0] + sep, Join(parts[1..], sep));
    }
  }

  /** A balanced string between a `{` and a `}` is balanced. */
  lemma BracedBalanced(x: string)
    requires Balanced(x)
    ensures Balanced("{" + x + "}")
  {
    assert "{"[1..] == [] && "}"[1..] == [];
    BalancedFrom(x, 1);
    ScanAppend("{", x, 0);
    ScanAppend("{" + x, "}", 0);
  }

  /** A balanced string between two brace-free ones is balanced. */
  lemma FramedBalanced(before: string, x: string, after: string)
    requires Balanced(x)
    requires '{' !in before && '}' !in before && '{' !in after && '}' !in after
    ensures Balanced(before + x + after)
  {
    BraceFreeBalanced(before);
    BraceFreeBalanced(after);
    BalancedAppend(before, x);
    BalancedAppend(before + x, after);
  }

  lemma NumberBraceFree(n: nat)
    ensures '{' !in NatToString(n) && '}' !in NatToString(n)
  {
  }

  lemma UnionBalanced(members: seq<string>, excess: int)
    requires AllBalanced(members)
    ensures Balanced(UnionString(members, excess))
  {
    JoinBalanced(members, " | ");
    if excess > 0 {
      NumberBraceFree(excess);
      FramedBalanced("", Join(members, " | "), " | ... " + NatToString(excess) + " more");
      assert "" + Join(members, " | ") + (" | ... " + NatToString(excess) + " more")
          == UnionString(members, excess);
    }
  }

  /** The printed object type `{ p1; p2 ... N more; }`. */
  lemma ObjectTextBalanced(parts: seq<string>, excess: int)
    requires AllBalanced(parts)
    ensures Balanced("{ " + Join(parts, " ")
                     + (if excess > 0 then " ... " + NatToString(excess) + " more;" else "") + " }")
  {
    var body := Join(parts, " ");
    JoinBalanced(parts, " ");
    var more := if excess > 0 then " ... " + NatToString(excess) + " more;" else "";
    NumberBraceFree(if excess > 0 then excess else 0);
    FramedBalanced(" ", body, more + " ");
    BracedBalanced(" " + body + (more + " "));
    assert "{" + (" " + body + (more + " ")) + "}" == "{ " + body + more + " }";
  }

  lemma TupleTextBalanced(readonly: bool, parts: seq<string>)
    requires AllBalanced(parts)
    ensures Balanced((if readonly then "readonly " else "") + "[" + Join(parts, ", ") + "]")
  {
    JoinBalanced(parts, ", ");
    FramedBalanced((if readonly then "readonly " else "") + "[", Join(parts, ", "), "]");
  }

  lemma ArrayTextBalanced(readonly: bool, e: string)
    requires Balanced(e)
    ensures Balanced((if readonly then "readonly " else "") + (if '|' in e || '&' in e then "(" + e + ")" else e) + "[]")
  {
    var prefix := if readonly then "readonly " else "";
    if '|' in e || '&' in e {
      FramedBalanced(prefix + "(", e, ")[]");
      assert prefix + "(" + e + ")[]" == prefix + ("(" + e + ")") + "[]";
    } else {
      FramedBalanced(prefix, e, "[]");
    }
  }

  /** One signature as it is, several as the members of an object type. */
  lemma FunctionTextBalanced(ss: seq<string>)
    requires |ss| > 0 && AllBalanced(ss)
    ensures Balanced(if |ss| > 1 then "{" + Join(ss, "; ") + ";}" else ss[0])
  {
    if |ss| > 1 {
      SignatureMembersBalanced(ss);
    } else {
      assert Balanced(ss[0]);
    }
  }

  lemma SignatureMembersBalanced(ss: seq<string>)
    requires AllBalanced(ss)
    ensures Balanced("{" + Join(ss, "; ") + ";}")
  {
    var joined := Join(ss, "; ");
    JoinBalanced(ss, "; ");
    BraceFreeBalanced(";");
    BalancedAppend(joined, ";");
    BracedBalanced(joined + ";");
    assert "{" + (joined + ";") + "}" == "{" + joined + ";}";
  }

  /** `prefix name mark: T end`, the shape of a property and of a parameter. */
  lemma MemberTextBalanced(prefix: string, name: string, mark: string, slot: string, end: string)
    requires Balanced(name) && Balanced(slot)
    requires '{' !in prefix && '}' !in prefix && '{' !in mark && '}' !in mark
    requires '{' !in end && '}' !in end
    ensures Balanced(prefix + name + mark + ": " + slot + end)
  {
    FramedBalanced(prefix, name, mark + ": ");
    FramedBalanced("", slot, end);
    BalancedAppend(prefix + name + (mark + ": "), "" + slot + end);
    assert prefix + name + (mark + ": ") + ("" + slot + end) == prefix + name + mark + ": " + slot + end;
  }

  // ---------------------------------------------------------------------------------------
  // What `stringifyTypeTree` prints is balanced

  /** When the copied strings balance, so does every printed type. */
  lemma {:induction false} RenderBalanced(t: TypeTree, anonymousFunction: bool)
    requires WellFormed(t) && NamesBalanced(t)
    ensures Balanced(Render(t, anonymousFunction))
    decreases t, 0
  {
    match t
    case Union(_, types, excess) =>
      MembersBalanced(types, false);
      UnionBalanced(RenderMembers(types, false), excess);
    case Object(_, props, excess) =>
      PropertiesBalanced(props);
      ObjectTextBalanced(RenderProperties(props), excess);
    case Tuple(_, readonly, elems) =>
      MembersBalanced(elems, false);
      TupleTextBalanced(readonly, RenderMembers(elems, false));
    case Array(_, readonly, elem) =>
      RenderBalanced(elem, true);
      ArrayTextBalanced(readonly, Render(elem, true));
    case Function(_, sigs) =>
      var returnTypeChar := if anonymousFunction then " =>" else ":";
      SignaturesBalanced(sigs, returnTypeChar);
      FunctionTextBalanced(RenderSignatures(sigs, returnTypeChar));
    case Promise(_, inner) =>
      RenderBalanced(inner, true);
      FramedBalanced("Promise<", Render(inner, true), ">");
    case Enum(_, _) =>
    case Primitive(_) =>
    case Reference(_) =>
  }

  lemma {:induction false} MembersBalanced(ts: seq<TypeTree>, dropUndefined: bool)
    requires forall i :: 0 <= i < |ts| ==> WellFormed(ts[i]) && NamesBalanced(ts[i])
    ensures AllBalanced(RenderMembers(ts, dropUndefined))
    decreases ts, 0
  {
    if ts != [] {
      MembersBalanced(ts[1..], dropUndefined);
      var rest := RenderMembers(ts[1..], dropUndefined);
      if dropUndefined && ts[0].typeName == "undefined" {
        assert RenderMembers(ts, dropUndefined) == rest;
      } else {
        RenderBalanced(ts[0], true);
        assert RenderMembers(ts, dropUndefined) == [Render(ts[0], true)] + rest;
      }
    }
  }

  lemma {:induction false} SlotBalanced(t: TypeTree, marked: bool)
    requires WellFormed(t) && NamesBalanced(t)
    ensures Balanced(RenderSlot(t, marked))
    decreases t, 1
  {
    if marked && t.Union? {
      MembersBalanced(t.types, true);
      UnionBalanced(RenderMembers(t.types, true), t.excessMembers);
    } else {
      RenderBalanced(t, true);
    }
  }

  lemma {:induction false} PropertiesBalanced(ps: seq<TypeProperty>)
    requires forall i :: 0 <= i < |ps| ==> WellFormed(ps[i].propType)
    requires forall i :: 0 <= i < |ps| ==> Balanced(ps[i].name) && NamesBalanced(ps[i].propType)
    ensures AllBalanced(RenderProperties(ps))
    decreases ps, 0
  {
    if ps != [] {
      PropertyBalanced(ps[0]);
      PropertiesBalanced(ps[1..]);
      assert RenderProperties(ps)[1..] == RenderProperties(ps[1..]);
    }
  }

  lemma {:induction false} PropertyBalanced(p: TypeProperty)
    requires WellFormed(p.propType) && Balanced(p.name) && NamesBalanced(p.propType)
    ensures Balanced(RenderProperty(p))
    decreases p, 0
  {
    var marked := Marked(p.optional, p.propType);
    SlotBalanced(p.propType, marked);
    MemberTextBalanced(if p.readonly then "readonly " else "", p.name, if marked then "?" else "",
                       RenderSlot(p.propType, marked), ";");
  }

  lemma {:induction false} SignaturesBalanced(sigs: seq<TypeFunctionSignature>, returnTypeChar: string)
    requires forall i :: 0 <= i < |sigs| ==> SignatureWellFormed(sigs[i]) && SignatureNamesBalanced(sigs[i])
    requires '{' !in returnTypeChar && '}' !in returnTypeChar
    ensures AllBalanced(RenderSignatures(sigs, returnTypeChar))
    decreases sigs, 0
  {
    if sigs != [] {
      SignatureBalanced(sigs[0], returnTypeChar);
      SignaturesBalanced(sigs[1..], returnTypeChar);
      assert RenderSignatures(sigs, returnTypeChar)[1..] == RenderSignatures(sigs[1..], returnTypeChar);
    }
  }

  lemma {:induction false} SignatureBalanced(s: TypeFunctionSignature, returnTypeChar: string)
    requires SignatureWellFormed(s) && SignatureNamesBalanced(s)
    requires '{' !in returnTypeChar && '}' !in returnTypeChar
    ensures Balanced(RenderSignature(s, returnTypeChar))
    decreases s, 0
  {
    ParametersBalanced(s.parameters);
    var params := Join(RenderParameters(s.parameters), ", ");
    JoinBalanced(RenderParameters(s.parameters), ", ");
    RenderBalanced(s.returnType, true);
    FramedBalanced("(", params, ")" + returnTypeChar + " ");
    FramedBalanced("", Render(s.returnType, true), "");
    BalancedAppend("(" + params + (")" + returnTypeChar + " "), "" + Render(s.returnType, true) + "");
    assert "(" + params + (")" + returnTypeChar + " ") + ("" + Render(s.returnType, true) + "")
        == RenderSignature(s, returnTypeChar);
  }

  lemma {:induction false} ParametersBalanced(ps: seq<TypeFunctionParameter>)
    requires forall j :: 0 <= j < |ps| ==> WellFormed(ps[j].paramType)
    requires forall j :: 0 <= j < |ps| ==> Balanced(ps[j].name) && NamesBalanced(ps[j].paramType)
    ensures AllBalanced(RenderParameters(ps))
    decreases ps, 0
  {
    if ps != [] {
      ParameterBalanced(ps[0]);
      ParametersBalanced(ps[1..]);
      assert RenderParameters(ps)[1..] == RenderParameters(ps[1..]);
    }
  }

  lemma {:induction false} ParameterBalanced(p: TypeFunctionParameter)
    requires WellFormed(p.paramType) && Balanced(p.name) && NamesBalanced(p.paramType)
    ensures Balanced(RenderParameter(p))
    decreases p, 0
  {
    var marked := Marked(p.optional, p.paramType);
    SlotBalanced(p.paramType, marked);
    MemberTextBalanced(if p.isRestParameter then "..." else "", p.name, if marked then "?" else "",
                       RenderSlot(p.paramType, marked), "");
    assert (if p.isRestParameter then "..." else "") + p.name + (if marked then "?" else "") + ": "
           + RenderSlot(p.paramType, marked) + "" == RenderParameter(p);
  }

  // ---------------------------------------------------------------------------------------
  // The copied type text

  /** `stringifyTypeTree(typeTree, false)` followed by `prettyPrintTypeString` never throws
      when the strings the tree carries verbatim balance their braces. */
  lemma PrintedTreeLaysOut(t: TypeTree, indentation: int)
    requires WellFormed(t) && NamesBalanced(t)
    ensures PrettyPrinted(Render(t, false), indentation).Ok?
  {
    RenderBalanced(t, false);
    BalancedNeverFails(Render(t, false), indentation);
  }

  /** The object type with one property of the string literal type `"}"` prints as
      `{ a: "}"; }`. */
  lemma LiteralPropertyPrints(t: TypeTree)
    requires t == Object("{ a: \"}\" }", [TypeProperty("a", false, false, Primitive("\"}\""))], 0)
    ensures WellFormed(t) && Render(t, false) == "{ a: \"}\"; }"
  {
    var p := t.properties[0];
    assert RenderProperties(t.properties) == [RenderProperty(p)];
    assert RenderProperty(p) == "a: \"}\";";
  }

  /** ... and the layout throws on it. */
  lemma LiteralBraceBreaksLayout(t: TypeTree, indentation: int)
    requires t == Object("{ a: \"}\" }", [TypeProperty("a", false, false, Primitive("\"}\""))], 0)
    requires indentation >= 1
    ensures WellFormed(t) && PrettyPrinted(Render(t, false), indentation) == RangeError
  {
    LiteralPropertyPrints(t);
    BraceInLiteralFails(Render(t, false), indentation);
  }
}
