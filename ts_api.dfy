/** The parts of the TypeScript compiler API the core consults, as plain data.

    The checker is a foreign object; here it becomes a finite type graph whose nodes hold the
    answers the checker would give for one type (its display name, apparent type, flags, union
    members, signatures, type arguments, properties and index signatures). Syntax nodes become a
    rose tree of spans. */
module TsApi {
  import opened Common

  /** The syntax kinds the core tests for; every other kind is `OtherKind`. */
  datatype SyntaxKind =
    | ClassDeclaration | NewExpression
    | ExpressionWithTypeArguments | InterfaceDeclaration | QualifiedName
    | ArrayType | ConstructorType | ConstructSignature | EnumDeclaration | FunctionType
    | IndexedAccessType | IndexSignature | IntersectionType | MappedType | PropertySignature
    | ThisType | TupleType | TypeAliasDeclaration | TypeAssertionExpression | TypeLiteral
    | TypeOperator | TypePredicate | TypeQuery | TypeReference | UnionType
    | FunctionDeclaration | FunctionKeyword | MethodDeclaration | MethodSignature
    | GetAccessor | SetAccessor | Constructor
    | LetKeyword | VarKeyword | ConstKeyword
    | PrivateKeyword | ProtectedKeyword | ReadonlyKeyword
    | PropertyDeclaration | Parameter
    | VariableDeclaration | VariableDeclarationList
    | ImportDeclaration | ImportSpecifier | ImportClause
    | SourceFile
    | OtherKind

  /** The atomic members of TypeScript's `TypeFlags`; a type carries a set of them. */
  datatype TypeFlag =
    | Any | Unknown | String | Number | Boolean | Enum | BigInt
    | StringLiteral | NumberLiteral | BooleanLiteral | EnumLiteral | BigIntLiteral
    | ESSymbol | UniqueESSymbol | Void | Undefined | Null | Never
    | TypeParameter | Object | Union | Intersection | Index | IndexedAccess
    | Conditional | Substitution | NonPrimitive | TemplateLiteral | StringMapping

  /** `TypeFlags.EnumLike`. */
  const EnumLikeFlags: set<TypeFlag> := {Enum, EnumLiteral}

  /** `TypeFlags.Intrinsic`. */
  const IntrinsicFlags: set<TypeFlag> :=
    {Any, Unknown, String, Number, BigInt, Boolean, BooleanLiteral, ESSymbol, Void, Undefined,
     Null, Never, NonPrimitive}

  /** Node flags of a variable declaration list. */
  datatype NodeFlag = Let | Const

  /** A declaration of a symbol: its kind, the kinds of its modifiers, and whether it carries a
      `?` or a `...` token. */
  datatype Declaration = Declaration(
    kind: SyntaxKind,
    modifiers: seq<SyntaxKind>,
    questionToken: bool,
    dotDotDotToken: bool)

  type TypeId = nat

  /** A symbol: its name, its declarations (`getDeclarations()` may be undefined), whether it is
      an enum member and the name of its parent symbol, and `getTypeOfSymbol` of it. */
  datatype Symbol = Symbol(
    name: string,
    declarations: Option<seq<Declaration>>,
    isEnumMember: bool,
    parentName: Option<string>,
    valueType: TypeId)

  /** A call or construct signature: its parameter symbols and its return type. */
  datatype Signature = Signature(parameters: seq<Symbol>, returnType: TypeId)

  /** A string or number index signature: its value type and the name of its key identifier
      (what `getIndexIdentifierName` reads from the declaration text, `key` by default). */
  datatype IndexInfo = IndexInfo(valueType: TypeId, identifierName: string)

  /** What the checker answers about one type. */
  datatype TypeNode = TypeNode(
    displayName: string,            // typeToString(type, undefined, NoTruncation)
    apparent: TypeId,               // getApparentType(type)
    flags: set<TypeFlag>,
    intrinsicName: string,          // meaningful when the type is intrinsic
    unionTypes: seq<TypeId>,        // `types` of a union, in checker order
    symbol: Option<Symbol>,
    typeArguments: seq<TypeId>,     // getTypeArguments(type)
    callSignatures: seq<Signature>,
    constructSignatures: seq<Signature>,
    isTuple: bool,
    tupleReadonly: bool,            // target.readonly of a tuple reference
    isArray: bool,
    isClassOrInterface: bool,
    properties: seq<Symbol>,        // getProperties(), in checker order
    stringIndex: Option<IndexInfo>,
    numberIndex: Option<IndexInfo>)

  datatype TypeGraph = TypeGraph(types: map<TypeId, TypeNode>)

  predicate SymbolsIn(g: TypeGraph, symbols: seq<Symbol>)
  {
    forall i :: 0 <= i < |symbols| ==> symbols[i].valueType in g.types
  }

  predicate SignatureIn(g: TypeGraph, s: Signature)
  {
    SymbolsIn(g, s.parameters) && s.returnType in g.types
  }

  predicate IdsIn(g: TypeGraph, ids: seq<TypeId>)
  {
    forall i :: 0 <= i < |ids| ==> ids[i] in g.types
  }

  /** Every type a node refers to is itself in the graph. */
  predicate NodeClosed(g: TypeGraph, n: TypeNode)
  {
    && n.apparent in g.types
    && IdsIn(g, n.unionTypes)
    && IdsIn(g, n.typeArguments)
    && (forall i :: 0 <= i < |n.callSignatures| ==> SignatureIn(g, n.callSignatures[i]))
    && (forall i :: 0 <= i < |n.constructSignatures| ==> SignatureIn(g, n.constructSignatures[i]))
    && SymbolsIn(g, n.properties)
    && (n.stringIndex.Some? ==> n.stringIndex.value.valueType in g.types)
    && (n.numberIndex.Some? ==> n.numberIndex.value.valueType in g.types)
  }

  /** The checker never answers with a type outside its own universe. */
  predicate Closed(g: TypeGraph)
  {
    forall id {:trigger Known(id)} :: Known(id) && id in g.types ==> NodeClosed(g, g.types[id])
  }

  /** Always true; it only names the trigger of `Closed`, so the quantifier is instantiated
      where `NodeAt` asks for it and nowhere else. */
  predicate Known(id: TypeId) { true }

  lemma NodeAt(g: TypeGraph, id: TypeId)
    requires Closed(g) && id in g.types
    ensures NodeClosed(g, g.types[id])
  {
    assert Known(id);
  }

  /** The node of `id` and the node of its apparent type are both closed. */
  lemma ApparentAt(g: TypeGraph, id: TypeId)
    requires Closed(g) && id in g.types
    ensures g.types[id].apparent in g.types
    ensures NodeClosed(g, g.types[id]) && NodeClosed(g, g.types[g.types[id].apparent])
  {
    NodeAt(g, id);
    NodeAt(g, g.types[id].apparent);
  }

  /** A syntax node: its kind, node flags, the span `getStart()`..`getEnd()`, its children in
      `forEachChild` order, and a stable identity. */
  datatype SyntaxNode = SyntaxNode(
    id: nat,
    kind: SyntaxKind,
    flags: set<NodeFlag>,
    start: int,
    end: int,
    children: seq<SyntaxNode>)
}
