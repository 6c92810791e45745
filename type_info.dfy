/** `getTypeInfoAtPosition` and its helpers: the type information shown for the node at a
    position, against an abstract checker. */
module TypeInfos {
  import opened Common
  import opened TsApi
  import opened TypeTrees
  import opened TypeTreeBuilder
  import opened TypeTreeWalk
  import opened AstSearch

  /** What the plugin returns for a position. */
  datatype TypeInfo = TypeInfo(typeTree: TypeTree, syntaxKind: SyntaxKind, name: string)

  /** A symbol as the checker reports it at one node: the symbol, `getTypeOfSymbolAtLocation` of
      it there, and `getDeclaredTypeOfSymbol` of it. */
  datatype SymbolView = SymbolView(symbol: Symbol, locationType: TypeId, declaredType: TypeId)

  /** `getSymbolAtLocation(node)`: no symbol, a symbol (with the symbol an alias resolves to,
      when it is an alias), or a checker call that throws. */
  datatype SymbolAnswer = NoSymbol | Throws | Found(view: SymbolView, aliased: Option<SymbolView>)

  /** The checker: its type graph and its answer for each syntax node, by node id; a node it has
      no entry for has no symbol. */
  datatype Checker = Checker(graph: TypeGraph, answers: map<nat, SymbolAnswer>)

  predicate ViewIn(g: TypeGraph, v: SymbolView)
  {
    v.locationType in g.types && v.declaredType in g.types
  }

  predicate AnswerIn(g: TypeGraph, a: SymbolAnswer)
  {
    a.Found? ==> ViewIn(g, a.view) && (a.aliased.Some? ==> ViewIn(g, a.aliased.value))
  }

  /** The checker's graph is closed and it answers only with types of that graph. */
  predicate ValidChecker(c: Checker)
  {
    Closed(c.graph) && forall id :: id in c.answers ==> AnswerIn(c.graph, c.answers[id])
  }

  function Answer(c: Checker, id: nat): (a: SymbolAnswer)
    requires ValidChecker(c)
    ensures AnswerIn(c.graph, a)
  {
    if id in c.answers then c.answers[id] else NoSymbol
  }

  // ---------------------------------------------------------------------------------------
  // Parents

  /** The node with id `id` followed by its ancestors up to `n`, found in preorder. */
  function PathTo(n: SyntaxNode, id: nat): (r: Option<seq<SyntaxNode>>)
    ensures r.Some? ==> |r.value| >= 1 && r.value[0].id == id && r.value[|r.value| - 1] == n
    decreases n, 1
  {
    if n.id == id then Some([n])
    else
      match PathIn(n.children, id)
      case None => None
      case Some(p) => Some(p + [n])
  }

  function PathIn(ns: seq<SyntaxNode>, id: nat): (r: Option<seq<SyntaxNode>>)
    ensures r.Some? ==> |r.value| >= 1 && r.value[0].id == id
    decreases ns, 0
  {
    if ns == [] then None
    else
      match PathTo(ns[0], id)
      case Some(p) => Some(p)
      case None => PathIn(ns[1..], id)
  }

  lemma {:induction false} PathInFinds(ns: seq<SyntaxNode>, i: nat, id: nat)
    requires i < |ns| && PathTo(ns[i], id).Some?
    ensures PathIn(ns, id).Some?
  {
    if i > 0 && PathTo(ns[0], id).None? {
      PathInFinds(ns[1..], i - 1, id);
    }
  }

  lemma {:induction false} PreorderHasPath(n: SyntaxNode, m: SyntaxNode)
    requires m in Preorder(n)
    ensures PathTo(n, m.id).Some?
    decreases n, 1
  {
    if n.id != m.id {
      assert m in PreorderAll(n.children);
      var i := PreorderAllHasPath(n.children, m);
      PathInFinds(n.children, i, m.id);
    }
  }

  lemma {:induction false} PreorderAllHasPath(ns: seq<SyntaxNode>, m: SyntaxNode) returns (i: nat)
    requires m in PreorderAll(ns)
    ensures i < |ns| && PathTo(ns[i], m.id).Some?
    decreases ns, 0
  {
    var last := ns[|ns| - 1];
    if m in Preorder(last) {
      PreorderHasPath(last, m);
      i := |ns| - 1;
    } else {
      i := PreorderAllHasPath(ns[..|ns| - 1], m);
      assert ns[..|ns| - 1][i] == ns[i];
    }
  }

  /** Every node of the tree has a parent chain up to the root; in particular the node the
      position resolves to. */
  lemma ResolvedNodeHasPath(sourceFile: SyntaxNode, position: int)
    ensures PathTo(sourceFile, DescendantAtRange(sourceFile, (position, position)).id).Some?
  {
    ResultInTree(sourceFile, (position, position));
    PreorderHasPath(sourceFile, DescendantAtRange(sourceFile, (position, position)));
  }

  // ---------------------------------------------------------------------------------------
  // isPartOfImportStatement and getVariableDeclarationKind

  predicate IsImportKind(kind: SyntaxKind)
  {
    kind == ImportDeclaration || kind == ImportSpecifier || kind == ImportClause
  }

  /** Some node of the chain is an import declaration, specifier or clause. */
  predicate PartOfImport(chain: seq<SyntaxNode>)
  {
    exists i :: 0 <= i < |chain| && IsImportKind(chain[i].kind)
  }

  /** `isPartOfImportStatement(node)`: walks from the node up through its parents. */
  method IsPartOfImportStatement(chain: seq<SyntaxNode>) returns (r: bool)
    ensures r <==> PartOfImport(chain)
  {
    var i := 0;
    while i < |chain|
      invariant 0 <= i <= |chain|
      invariant forall j :: 0 <= j < i ==> !IsImportKind(chain[j].kind)
    {
      if IsImportKind(chain[i].kind) {
        return true;
      }
      i := i + 1;
    }
    return false;
  }

  /** `getVariableDeclarationKind`, given the parent of the variable declaration. */
  function VariableDeclarationKind(parent: SyntaxNode): (k: SyntaxKind)
    ensures k == LetKeyword || k == ConstKeyword || k == VarKeyword
  {
    if parent.kind != VariableDeclarationList then ConstKeyword
    else if Let in parent.flags then LetKeyword
    else if Const in parent.flags then ConstKeyword
    else VarKeyword
  }

  /** `let` exactly for a `let` list; `var` exactly for a list that is neither `let` nor
      `const`; `const` otherwise, including outside a declaration list. */
  lemma VariableDeclarationKindCases(parent: SyntaxNode)
    ensures VariableDeclarationKind(parent) == LetKeyword
            <==> parent.kind == VariableDeclarationList && Let in parent.flags
    ensures VariableDeclarationKind(parent) == VarKeyword
            <==> parent.kind == VariableDeclarationList && Let !in parent.flags && Const !in parent.flags
    ensures VariableDeclarationKind(parent) == ConstKeyword
            <==> parent.kind != VariableDeclarationList || (Let !in parent.flags && Const in parent.flags)
  {
  }

  // ---------------------------------------------------------------------------------------
  // getConstructorTypeInfo

  /** A class being instantiated: one signature returning the class itself, with a parameter per
      parameter of the first construct signature, each built at depth 0 from an empty
      `visited`. */
  function ConstructorTree(g: TypeGraph, o: PrettifyOptions, t: TypeId, name: string): (r: TypeTree)
    requires Closed(g) && t in g.types && |g.types[t].constructSignatures| > 0
    ensures Limited(o, r, 0)
  {
    NodeAt(g, t);
    var params := g.types[t].constructSignatures[0].parameters;
    var sig := TypeFunctionSignature(Reference(name), ParametersOf(g, o, params, 0, {}));
    assert SignatureLimited(o, sig, 0);
    TypeTree.Function(name, [sig])
  }

  /** `getConstructorTypeInfo(type, typeChecker, name)`. */
  method GetConstructorTypeInfo(g: TypeGraph, o: PrettifyOptions, t: TypeId, name: string) returns (r: TypeTree)
    requires Closed(g) && t in g.types && |g.types[t].constructSignatures| > 0
    ensures r == ConstructorTree(g, o, t, name)
  {
    NodeAt(g, t);
    var params := g.types[t].constructSignatures[0].parameters;
    var parameters := [];
    var i := 0;
    while i < |params|
      invariant 0 <= i <= |params| && |parameters| == i
      invariant forall j :: 0 <= j < i ==>
                  parameters[j] == TypeFunctionParameter(params[j].name, IsRestParameter(params[j]),
                                                         IsOptionalParameter(params[j]),
                                                         TypeTreeOf(g, o, params[j].valueType, 0, {}))
    {
      var tree := GetTypeTree(g, o, params[i].valueType, 0, {});
      parameters := parameters + [TypeFunctionParameter(params[i].name, IsRestParameter(params[i]),
                                                        IsOptionalParameter(params[i]), tree)];
      i := i + 1;
    }
    forall j | 0 <= j < |params| ensures parameters[j] == ParametersOf(g, o, params, 0, {})[j] {
      ParametersOfAt(g, o, params, 0, {}, j);
    }
    assert parameters == ParametersOf(g, o, params, 0, {});
    r := TypeTree.Function(name, [TypeFunctionSignature(Reference(name), parameters)]);
  }

  /** The constructor tree has a single signature that returns the class by name, and one
      parameter per constructor parameter, in order, with its name and flags. */
  lemma ConstructorShape(g: TypeGraph, o: PrettifyOptions, t: TypeId, name: string)
    requires Closed(g) && t in g.types && |g.types[t].constructSignatures| > 0
    ensures var params := g.types[t].constructSignatures[0].parameters;
            var r := ConstructorTree(g, o, t, name);
            && r.Function? && r.typeName == name && |r.signatures| == 1
            && r.signatures[0].returnType == Reference(name)
            && |r.signatures[0].parameters| == |params|
            && SymbolsIn(g, params)
            && forall i :: 0 <= i < |params| ==>
                 r.signatures[0].parameters[i]
                 == TypeFunctionParameter(params[i].name, IsRestParameter(params[i]), IsOptionalParameter(params[i]),
                                          TypeTreeOf(g, o, params[i].valueType, 0, {}))
  {
    NodeAt(g, t);
    var params := g.types[t].constructSignatures[0].parameters;
    forall i | 0 <= i < |params|
      ensures ParametersOf(g, o, params, 0, {})[i]
              == TypeFunctionParameter(params[i].name, IsRestParameter(params[i]), IsOptionalParameter(params[i]),
                                       TypeTreeOf(g, o, params[i].valueType, 0, {}))
    {
      ParametersOfAt(g, o, params, 0, {}, i);
    }
  }

  // ---------------------------------------------------------------------------------------
  // getTypeInfoAtPosition

  /** The kind of a symbol's first declaration, if it has one. */
  function FirstDeclarationKind(s: Symbol): Option<SyntaxKind>
  {
    if s.declarations.Some? && |s.declarations.value| > 0 then Some(s.declarations.value[0].kind) else None
  }

  /** The symbol after alias resolution. */
  function Resolved(view: SymbolView, aliased: Option<SymbolView>): SymbolView
  {
    if aliased.Some? then aliased.value else view
  }

  /** The node is a variable declaration's name, but the declaration has no parent: reading the
      parent's kind throws. */
  predicate DeclarationWithoutParent(chain: seq<SyntaxNode>)
  {
    |chain| >= 2 && chain[1].kind == VariableDeclaration && |chain| < 3
  }

  /** The syntax kind reported for the node `chain[0]`: from the declaration list when the node
      names a variable declaration, else the kind of the symbol's first declaration, else
      `const`. */
  function SyntaxKindFor(chain: seq<SyntaxNode>, v: SymbolView): SyntaxKind
    requires |chain| >= 2 && !DeclarationWithoutParent(chain)
  {
    var declKind := FirstDeclarationKind(v.symbol);
    if chain[1].kind == VariableDeclaration then VariableDeclarationKind(chain[2])
    else if declKind.Some? then declKind.value else ConstKeyword
  }

  /** A class being instantiated: a class symbol, not at its own declaration, not in an import,
      and with a construct signature. */
  predicate ShowsConstructor(g: TypeGraph, chain: seq<SyntaxNode>, v: SymbolView)
    requires |chain| >= 2 && !DeclarationWithoutParent(chain) && v.locationType in g.types
  {
    SyntaxKindFor(chain, v) == ClassDeclaration && chain[1].kind != ClassDeclaration && !PartOfImport(chain)
    && |g.types[v.locationType].constructSignatures| > 0
  }

  /** The type whose tree is shown otherwise: the declared type, unless it is exactly `any` or
      the symbol is first declared as a variable; else the type at the node. */
  function ShownType(g: TypeGraph, v: SymbolView): (t: TypeId)
    requires ViewIn(g, v)
    ensures t in g.types
  {
    var useDeclared := FirstDeclarationKind(v.symbol) != Some(VariableDeclaration);
    if g.types[v.declaredType].flags != {Any} && useDeclared then v.declaredType else v.locationType
  }

  /** The information for the node `chain[0]`, whose ancestors follow it, and the symbol the
      checker found there. */
  function InfoFor(c: Checker, o: PrettifyOptions, chain: seq<SyntaxNode>, v: SymbolView): Option<TypeInfo>
    requires ValidChecker(c) && |chain| >= 2 && ViewIn(c.graph, v)
  {
    if DeclarationWithoutParent(chain) then None
    else if ShowsConstructor(c.graph, chain, v) then
      Some(TypeInfo(ConstructorTree(c.graph, o, v.locationType, v.symbol.name), Constructor, v.symbol.name))
    else
      Some(TypeInfo(TypeTreeOf(c.graph, o, ShownType(c.graph, v), 0, {}), SyntaxKindFor(chain, v), v.symbol.name))
  }

  /** `getTypeInfoAtPosition(ts, checker, sourceFile, position, options)`. */
  function TypeInfoAt(c: Checker, o: PrettifyOptions, sourceFile: SyntaxNode, position: int): Option<TypeInfo>
    requires ValidChecker(c)
  {
    var node := DescendantAtRange(sourceFile, (position, position));
    match PathTo(sourceFile, node.id)
    case None => None
    case Some(chain) =>
      if node.id == sourceFile.id || |chain| < 2 then None
      else
        match Answer(c, node.id)
        case NoSymbol => None
        case Throws => None
        case Found(view, aliased) => InfoFor(c, o, chain, Resolved(view, aliased))
  }

  /** The source's method: each step in its order, each helper by its own method. */
  method GetTypeInfoAtPosition(c: Checker, o: PrettifyOptions, sourceFile: SyntaxNode, position: int)
    returns (r: Option<TypeInfo>)
    requires ValidChecker(c)
    ensures r == TypeInfoAt(c, o, sourceFile, position)
  {
    var node := GetDescendantAtRange(sourceFile, (position, position));
    var path := PathTo(sourceFile, node.id);
    if path.None? || node.id == sourceFile.id || |path.value| < 2 {
      return None;
    }
    var answer := Answer(c, node.id);
    if !answer.Found? {
      return None;
    }
    r := GetSymbolTypeInfo(c, o, path.value, Resolved(answer.view, answer.aliased));
  }

  /** The part of `getTypeInfoAtPosition` after the symbol is found: the syntax kind, the
      constructor case, and the tree of the shown type. */
  method GetSymbolTypeInfo(c: Checker, o: PrettifyOptions, chain: seq<SyntaxNode>, v: SymbolView)
    returns (r: Option<TypeInfo>)
    requires ValidChecker(c) && |chain| >= 2 && ViewIn(c.graph, v)
    ensures r == InfoFor(c, o, chain, v)
  {
    var g := c.graph;
    var declKind := FirstDeclarationKind(v.symbol);
    var syntaxKind := if declKind.Some? then declKind.value else ConstKeyword;
    if chain[1].kind == VariableDeclaration {
      if |chain| < 3 {
        return None;
      }
      syntaxKind := VariableDeclarationKind(chain[2]);
    }
    assert syntaxKind == SyntaxKindFor(chain, v);
    var name := v.symbol.name;
    if syntaxKind == ClassDeclaration && chain[1].kind != ClassDeclaration {
      var inImport := IsPartOfImportStatement(chain);
      if !inImport && |g.types[v.locationType].constructSignatures| > 0 {
        var tree := GetConstructorTypeInfo(g, o, v.locationType, name);
        return Some(TypeInfo(tree, Constructor, name));
      }
    }
    var t := v.locationType;
    var shouldUseDeclaredType := declKind != Some(VariableDeclaration);
    if g.types[v.declaredType].flags != {Any} && shouldUseDeclaredType {
      t := v.declaredType;
    }
    var typeTree := GetTypeTree(g, o, t, 0, {});
    r := Some(TypeInfo(typeTree, syntaxKind, name));
  }

  // ---------------------------------------------------------------------------------------
  // What the plugin promises

  /** `undefined` comes back in exactly three cases: the position resolves to the source file
      itself (or to a node without a parent), the checker has no symbol there, or a checker
      call or a parent access throws. */
  lemma UndefinedCases(c: Checker, o: PrettifyOptions, sourceFile: SyntaxNode, position: int)
    requires ValidChecker(c)
    ensures PathTo(sourceFile, DescendantAtRange(sourceFile, (position, position)).id).Some?
    ensures var node := DescendantAtRange(sourceFile, (position, position));
            var chain := PathTo(sourceFile, node.id).value;
            var answer := Answer(c, node.id);
            TypeInfoAt(c, o, sourceFile, position).None?
            <==> (node.id == sourceFile.id || |chain| < 2)
                 || answer.NoSymbol?
                 || answer.Throws? || DeclarationWithoutParent(chain)
  {
    ResolvedNodeHasPath(sourceFile, position);
  }

  /** When information comes back for a node and a symbol, it is named after the symbol, and its
      tree keeps every option limit at depth 0: the constructor tree, under the kind
      `Constructor`, for a class being instantiated, and otherwise the tree of the shown type
      from an empty `visited`, under the node's syntax kind. */
  lemma DefinedShape(c: Checker, o: PrettifyOptions, chain: seq<SyntaxNode>, v: SymbolView)
    requires ValidChecker(c) && |chain| >= 2 && ViewIn(c.graph, v)
    requires InfoFor(c, o, chain, v).Some?
    ensures !DeclarationWithoutParent(chain)
    ensures var info := InfoFor(c, o, chain, v).value;
            && info.name == v.symbol.name
            && Limited(o, info.typeTree, 0)
            && (ShowsConstructor(c.graph, chain, v) ==>
                  info.syntaxKind == Constructor
                  && info.typeTree == ConstructorTree(c.graph, o, v.locationType, v.symbol.name))
            && (!ShowsConstructor(c.graph, chain, v) ==>
                  info.syntaxKind == SyntaxKindFor(chain, v)
                  && info.typeTree == TypeTreeOf(c.graph, o, ShownType(c.graph, v), 0, {}))
  {
  }

  /** An import, or the class's own declaration, never shows the constructor; the kind reported
      for a variable is the kind of its declaration list. */
  lemma NoConstructorInImports(c: Checker, o: PrettifyOptions, chain: seq<SyntaxNode>, v: SymbolView)
    requires ValidChecker(c) && |chain| >= 2 && ViewIn(c.graph, v) && !DeclarationWithoutParent(chain)
    requires PartOfImport(chain) || chain[1].kind == ClassDeclaration
    ensures InfoFor(c, o, chain, v) == Some(TypeInfo(TypeTreeOf(c.graph, o, ShownType(c.graph, v), 0, {}),
                                                    SyntaxKindFor(chain, v), v.symbol.name))
  {
  }
}
