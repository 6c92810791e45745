/** `getTypeTree` and its helpers, against the abstract type graph. */
module TypeTreeBuilder {
  import opened Common
  import opened TsApi
  import opened TypeTrees

  datatype PrettifyOptions = PrettifyOptions(
    hidePrivateProperties: bool,
    maxDepth: int,
    maxProperties: int,
    maxSubProperties: int,
    maxUnionMembers: int,
    skippedTypeNames: seq<string>,
    unwrapArrays: bool,
    unwrapFunctions: bool,
    unwrapPromises: bool)

  // ---------------------------------------------------------------------------------------
  // Classification predicates

  const PrimitiveFlags: set<TypeFlag> :=
    {String, StringLiteral, Number, NumberLiteral, Boolean, BooleanLiteral, Undefined, Null,
     Void, BigInt, BigIntLiteral, ESSymbol, UniqueESSymbol, Never, Unknown, Any}

  /** `isPrimitiveType`: any primitive flag, unless the type is enum-like. */
  predicate IsPrimitiveType(n: TypeNode)
  {
    if n.flags * EnumLikeFlags != {} then false else n.flags * PrimitiveFlags != {}
  }

  /** `isPublicProperty`: a symbol without declarations is public; otherwise a name starting
      with `_` or `#` is not, and neither is one with a `private` or `protected` method or
      property declaration. */
  predicate IsPublicProperty(s: Symbol)
  {
    match s.declarations
    case None => true
    case Some(decls) =>
      if StartsWith(s.name, "_") || StartsWith(s.name, "#") then false
      else forall i :: 0 <= i < |decls| ==> DeclarationIsPublic(decls[i])
  }

  predicate DeclarationIsPublic(d: Declaration)
  {
    if !(d.kind in {MethodDeclaration, MethodSignature, PropertyDeclaration, PropertySignature})
    then true
    else PrivateKeyword !in d.modifiers && ProtectedKeyword !in d.modifiers
  }

  /** `isReadOnly`: some property or method declaration carries `readonly`. */
  predicate IsReadOnly(s: Option<Symbol>)
  {
    s.Some? && s.value.declarations.Some? &&
    exists d :: d in s.value.declarations.value &&
      d.kind in {PropertyDeclaration, MethodDeclaration} && ReadonlyKeyword in d.modifiers
  }

  /** `isOptional`: some property signature or declaration carries `?`. */
  predicate IsOptional(s: Symbol)
  {
    s.declarations.Some? &&
    exists d :: d in s.declarations.value &&
      d.kind in {PropertySignature, PropertyDeclaration} && d.questionToken
  }

  /** The first declaration of a parameter symbol is a parameter with a `...` token. */
  predicate IsRestParameter(s: Symbol)
  {
    s.declarations.Some? && |s.declarations.value| > 0 &&
    s.declarations.value[0].kind == Parameter && s.declarations.value[0].dotDotDotToken
  }

  /** The first declaration of a parameter symbol is a parameter with a `?` token. */
  predicate IsOptionalParameter(s: Symbol)
  {
    s.declarations.Some? && |s.declarations.value| > 0 &&
    s.declarations.value[0].kind == Parameter && s.declarations.value[0].questionToken
  }

  predicate IsEnumMember(n: TypeNode)
  {
    n.symbol.Some? && n.symbol.value.isEnumMember && n.symbol.value.parentName.Some?
  }

  /** The display name shows nesting syntax, so a repeated occurrence is printed as `...`. */
  predicate HasNestingSyntax(name: string)
  {
    '{' in name || '[' in name || '(' in name
  }

  /** Properties that survive `hidePrivateProperties`, in checker order. */
  function VisibleProperties(o: PrettifyOptions, props: seq<Symbol>): (r: seq<Symbol>)
    ensures !o.hidePrivateProperties ==> r == props
    ensures |r| <= |props|
    ensures forall s :: s in r ==> s in props
    ensures o.hidePrivateProperties ==> forall s :: s in r ==> IsPublicProperty(s)
  {
    if !o.hidePrivateProperties then props else FilterPublic(props)
  }

  function FilterPublic(props: seq<Symbol>): (r: seq<Symbol>)
    ensures |r| <= |props|
    ensures forall s :: s in r <==> s in props && IsPublicProperty(s)
  {
    if props == [] then []
    else if IsPublicProperty(props[0]) then [props[0]] + FilterPublic(props[1..])
    else FilterPublic(props[1..])
  }

  /** Number of index signatures (string, number) a type has. */
  function IndexSignatureCount(n: TypeNode): nat
  {
    (if n.stringIndex.Some? then 1 else 0) + (if n.numberIndex.Some? then 1 else 0)
  }

  // ---------------------------------------------------------------------------------------
  // Union ordering

  /** The name `sortUnionTypes` reads: `intrinsicName` of an intrinsic type, else empty. */
  function IntrinsicName(n: TypeNode): string
  {
    if n.flags * IntrinsicFlags != {} then n.intrinsicName else ""
  }

  /** `indexOf` in `['string', 'number', 'bigint', 'boolean', 'symbol']`. */
  function PrimitiveIndex(name: string): int
  {
    if name == "string" then 0 else if name == "number" then 1 else if name == "bigint" then 2
    else if name == "boolean" then 3 else if name == "symbol" then 4 else -1
  }

  /** `indexOf` in `['null', 'undefined']`. */
  function FalsyIndex(name: string): int
  {
    if name == "null" then 0 else if name == "undefined" then 1 else -1
  }

  /** `sortUnionTypes`, the comparator handed to `Array.prototype.sort`. */
  function CompareUnionTypes(a: TypeNode, b: TypeNode): (c: int)
    ensures Sign(c) == Sign(UnionRank(a) - UnionRank(b))
  {
    var ap := PrimitiveIndex(IntrinsicName(a));
    var bp := PrimitiveIndex(IntrinsicName(b));
    var af := FalsyIndex(IntrinsicName(a));
    var bf := FalsyIndex(IntrinsicName(b));
    if ap != -1 && bp != -1 then ap - bp
    else if ap != -1 then -1
    else if bp != -1 then 1
    else if af != -1 && bf != -1 then af - bf
    else if af != -1 then 1
    else if bf != -1 then -1
    else 0
  }

  function Sign(x: int): int
  {
    if x < 0 then -1 else if x == 0 then 0 else 1
  }

  /** The position of a member kind in the rendered order: string, number, bigint, boolean,
      symbol, then every other type, then null, then undefined. */
  function UnionRank(n: TypeNode): (r: nat)
    ensures r <= 7
  {
    var name := IntrinsicName(n);
    if PrimitiveIndex(name) != -1 then PrimitiveIndex(name)
    else if FalsyIndex(name) != -1 then 6 + FalsyIndex(name)
    else 5
  }

  function Rank(g: TypeGraph, t: TypeId): nat
    requires t in g.types
  {
    UnionRank(g.types[t])
  }

  /** Inserts `x` before the first element it does not compare above; `x` came before all of
      `l` in the input, so ties keep their input order. */
  function InsertUnionType(g: TypeGraph, x: TypeId, l: seq<TypeId>): (r: seq<TypeId>)
    requires x in g.types && IdsIn(g, l)
    ensures multiset(r) == multiset(l) + multiset{x} && |r| == |l| + 1
    ensures IdsIn(g, r)
  {
    if l == [] || CompareUnionTypes(g.types[x], g.types[l[0]]) <= 0 then [x] + l
    else
      assert l == [l[0]] + l[1..];
      [l[0]] + InsertUnionType(g, x, l[1..])
  }

  /** `.sort(sortUnionTypes)`: the stable sort ECMAScript prescribes, as an insertion sort. */
  function SortUnionTypes(g: TypeGraph, s: seq<TypeId>): (r: seq<TypeId>)
    requires IdsIn(g, s)
    ensures multiset(r) == multiset(s) && |r| == |s|
    ensures IdsIn(g, r)
  {
    if s == [] then []
    else
      assert s == [s[0]] + s[1..];
      InsertUnionType(g, s[0], SortUnionTypes(g, s[1..]))
  }

  predicate SortedByRank(g: TypeGraph, s: seq<TypeId>)
    requires IdsIn(g, s)
  {
    forall i, j :: 0 <= i < j < |s| ==> Rank(g, s[i]) <= Rank(g, s[j])
  }

  /** The members of rank `k`, in their order in `s`. */
  function OfRank(g: TypeGraph, s: seq<TypeId>, k: nat): (r: seq<TypeId>)
    requires IdsIn(g, s)
  {
    if s == [] then []
    else if Rank(g, s[0]) == k then [s[0]] + OfRank(g, s[1..], k)
    else OfRank(g, s[1..], k)
  }

  lemma {:induction false} InsertSorted(g: TypeGraph, x: TypeId, l: seq<TypeId>)
    requires x in g.types && IdsIn(g, l) && SortedByRank(g, l)
    ensures SortedByRank(g, InsertUnionType(g, x, l))
  {
    if l == [] || CompareUnionTypes(g.types[x], g.types[l[0]]) <= 0 {
      SortedCons(g, x, l);
    } else {
      var rest := InsertUnionType(g, x, l[1..]);
      InsertSorted(g, x, l[1..]);
      forall j | 0 <= j < |rest| ensures Rank(g, l[0]) <= Rank(g, rest[j]) {
        assert rest[j] in multiset(rest);
        if rest[j] != x {
          assert rest[j] in multiset(l[1..]);
          assert rest[j] in l[1..];
        }
      }
      SortedCons(g, l[0], rest);
    }
  }

  /** An element ranked no higher than any member of a sorted sequence extends it in front. */
  lemma SortedCons(g: TypeGraph, y: TypeId, s: seq<TypeId>)
    requires y in g.types && IdsIn(g, s) && SortedByRank(g, s)
    requires s != [] ==> Rank(g, y) <= Rank(g, s[0])
    ensures SortedByRank(g, [y] + s)
  {
    var r := [y] + s;
    forall i, j | 0 <= i < j < |r| ensures Rank(g, r[i]) <= Rank(g, r[j]) {
      if i == 0 {
        assert r[j] == s[j - 1];
        if j > 1 {
          assert Rank(g, s[0]) <= Rank(g, s[j - 1]);
        }
      } else {
        assert r[i] == s[i - 1] && r[j] == s[j - 1];
      }
    }
  }

  lemma {:induction false} InsertOfRank(g: TypeGraph, x: TypeId, l: seq<TypeId>, k: nat)
    requires x in g.types && IdsIn(g, l)
    ensures OfRank(g, InsertUnionType(g, x, l), k) == OfRank(g, [x] + l, k)
  {
    assert ([x] + l)[1..] == l;
    if l != [] && CompareUnionTypes(g.types[x], g.types[l[0]]) > 0 {
      // x is moved past l[0] only when l[0] ranks strictly below it
      InsertOfRank(g, x, l[1..], k);
      assert ([x] + l[1..])[1..] == l[1..];
      assert Rank(g, l[0]) < Rank(g, x);
    }
  }

  /** `SortUnionTypes` is the stable sort by `UnionRank`: the result is ordered by rank, and the
      members of each rank keep their relative order. */
  lemma {:induction false} SortUnionTypesIsStableByRank(g: TypeGraph, s: seq<TypeId>)
    requires IdsIn(g, s)
    ensures SortedByRank(g, SortUnionTypes(g, s))
    ensures forall k: nat :: OfRank(g, SortUnionTypes(g, s), k) == OfRank(g, s, k)
  {
    if s != [] {
      var sorted := SortUnionTypes(g, s[1..]);
      assert SortUnionTypes(g, s) == InsertUnionType(g, s[0], sorted);
      SortUnionTypesIsStableByRank(g, s[1..]);
      InsertSorted(g, s[0], sorted);
      forall k: nat ensures OfRank(g, SortUnionTypes(g, s), k) == OfRank(g, s, k) {
        InsertOfRank(g, s[0], sorted, k);
        assert ([s[0]] + sorted)[1..] == sorted;
        assert OfRank(g, [s[0]] + sorted, k)
               == (if Rank(g, s[0]) == k then [s[0]] else []) + OfRank(g, sorted, k);
      }
    }
  }

  // ---------------------------------------------------------------------------------------
  // getTypeTree
  //
  // The recursion is measured by the number of graph types not yet visited: every descent
  // goes through `Classify`, whose `visited` holds one more type than its caller's.
  //
  // Every builder function promises that its output is well formed (each function node has a
  // signature) and keeps the option limits: at most `maxUnionMembers` union entries, at most
  // `PropertyBound(o)` shown properties, and object nesting within `Levels(o, depth)`.

  /** The number of object levels that may still show properties below `depth`. */
  function Levels(o: PrettifyOptions, depth: int): nat
  {
    if depth < o.maxDepth then o.maxDepth - depth else 0
  }

  /** The most properties any object may show: the larger width limit, when neither is negative
      (a negative `slice` end bounds nothing). */
  function PropertyBound(o: PrettifyOptions): int
  {
    if o.maxProperties >= 0 && o.maxSubProperties >= 0 then Max(o.maxProperties, o.maxSubProperties) else -1
  }

  predicate Limited(o: PrettifyOptions, t: TypeTree, depth: int)
  {
    WellFormed(t) && Bounded(t, Levels(o, depth), PropertyBound(o), o.maxUnionMembers)
  }

  predicate SignatureLimited(o: PrettifyOptions, s: TypeFunctionSignature, depth: int)
  {
    SignatureWellFormed(s) && SignatureBounded(s, Levels(o, depth), PropertyBound(o), o.maxUnionMembers)
  }

  /** `getTypeTree(type, depth, visited)`: the checks in source order, primitive first, then the
      skip list, then the cycle test; a type seen for the first time is classified with itself
      added to its own copy of `visited`. */
  function TypeTreeOf(g: TypeGraph, o: PrettifyOptions, t: TypeId, depth: int, visited: set<TypeId>): (r: TypeTree)
    requires Closed(g) && t in g.types
    ensures Limited(o, r, depth)
    decreases |g.types.Keys - visited|, 0, 0
  {
    ApparentAt(g, t);
    var node := g.types[t];
    var typeName := node.displayName;
    var apparent := g.types[node.apparent];
    if IsPrimitiveType(node) || IsPrimitiveType(apparent) then Primitive(typeName)
    else if typeName in o.skippedTypeNames then Reference(typeName)
    else if t in visited then
      Reference(if HasNestingSyntax(typeName) then "..." else apparent.displayName)
    else
      VisitedShrinks(g.types.Keys, visited, t);
      Classify(g, o, t, depth, visited + {t})
  }

  lemma VisitedShrinks(keys: set<TypeId>, visited: set<TypeId>, t: TypeId)
    requires t in keys && t !in visited
    ensures |keys - (visited + {t})| < |keys - visited|
  {
    assert keys - (visited + {t}) == (keys - visited) - {t};
  }

  /** The classification of a type not seen before on this branch; `visited` already holds it.
      The tests run in source order: union, enum member, promise, callable, tuple, array,
      object, and a reference otherwise. */
  function Classify(g: TypeGraph, o: PrettifyOptions, t: TypeId, depth: int, visited: set<TypeId>): (r: TypeTree)
    requires Closed(g) && t in g.types
    ensures Limited(o, r, depth)
    decreases |g.types.Keys - visited|, 4, 0
  {
    ApparentAt(g, t);
    var node := g.types[t];
    var typeName := node.displayName;
    var apparent := g.types[node.apparent];
    if TypeFlag.Union in apparent.flags then UnionTree(g, o, t, depth, visited)
    else if IsEnumMember(apparent) then
      TypeTree.Enum(typeName, apparent.symbol.value.parentName.value + "." + apparent.symbol.value.name)
    else if StartsWith(typeName, "Promise<") then PromiseTree(g, o, t, depth, visited)
    else if |apparent.callSignatures| > 0 then FunctionTree(g, o, t, depth, visited)
    else if apparent.isTuple then TupleTree(g, o, t, depth, visited)
    else if apparent.isArray then ArrayTree(g, o, t, depth, visited)
    else if apparent.isClassOrInterface || TypeFlag.Object in apparent.flags || |apparent.properties| > 0 then
      ObjectTree(g, o, t, depth, visited)
    else
      Reference(typeName)
  }

  /** The member ids a union shows: the first `maxUnionMembers` in checker order, then sorted. */
  function UnionMemberIds(g: TypeGraph, o: PrettifyOptions, t: TypeId): (r: seq<TypeId>)
    requires Closed(g) && t in g.types
    ensures IdsIn(g, r)
    ensures o.maxUnionMembers >= 0 ==> |r| <= o.maxUnionMembers
  {
    ApparentAt(g, t);
    SortUnionTypes(g, Slice(g.types[g.types[t].apparent].unionTypes, o.maxUnionMembers))
  }

  /** A union: its member ids' trees, each built at the same depth. */
  function UnionTree(g: TypeGraph, o: PrettifyOptions, t: TypeId, depth: int, visited: set<TypeId>): (r: TypeTree)
    requires Closed(g) && t in g.types
    ensures Limited(o, r, depth)
    decreases |g.types.Keys - visited|, 3, 0
  {
    ApparentAt(g, t);
    var apparent := g.types[g.types[t].apparent];
    TypeTree.Union(g.types[t].displayName,
                   TreesOf(g, o, UnionMemberIds(g, o, t), depth, visited),
                   Max(0, |apparent.unionTypes| - o.maxUnionMembers))
  }

  /** The trees of `ids`, in order, each built with its own copy of `visited`. */
  function TreesOf(g: TypeGraph, o: PrettifyOptions, ids: seq<TypeId>, depth: int, visited: set<TypeId>): (r: seq<TypeTree>)
    requires Closed(g) && IdsIn(g, ids)
    ensures |r| == |ids|
    ensures forall i :: 0 <= i < |r| ==> Limited(o, r[i], depth)
    decreases |g.types.Keys - visited|, 1, |ids|
  {
    if ids == [] then []
    else [TypeTreeOf(g, o, ids[0], depth, visited)] + TreesOf(g, o, ids[1..], depth, visited)
  }

  /** A promise: a reference when promises are not unwrapped and the name shows no object,
      otherwise the tree of its first type argument, or `void`. */
  function PromiseTree(g: TypeGraph, o: PrettifyOptions, t: TypeId, depth: int, visited: set<TypeId>): (r: TypeTree)
    requires Closed(g) && t in g.types
    ensures Limited(o, r, depth)
    decreases |g.types.Keys - visited|, 3, 0
  {
    ApparentAt(g, t);
    var typeName := g.types[t].displayName;
    var apparent := g.types[g.types[t].apparent];
    if !o.unwrapPromises && '{' !in typeName then Reference(typeName)
    else
      Promise(typeName,
              if |apparent.typeArguments| > 0
              then TypeTreeOf(g, o, apparent.typeArguments[0], depth, visited)
              else Primitive("void"))
  }

  /** The depth below a callable: `maxDepth` unless functions are unwrapped. */
  function FunctionDepth(o: PrettifyOptions, depth: int): int
  {
    if o.unwrapFunctions then depth else o.maxDepth
  }

  /** A callable: one entry per call signature. */
  function FunctionTree(g: TypeGraph, o: PrettifyOptions, t: TypeId, depth: int, visited: set<TypeId>): (r: TypeTree)
    requires Closed(g) && t in g.types
    requires g.types[t].apparent in g.types && |g.types[g.types[t].apparent].callSignatures| > 0
    ensures Limited(o, r, depth)
    decreases |g.types.Keys - visited|, 3, 0
  {
    ApparentAt(g, t);
    var apparent := g.types[g.types[t].apparent];
    var d := FunctionDepth(o, depth);
    var sigs := SignaturesOf(g, o, apparent.callSignatures, d, visited);
    SignaturesBoundedMonotone(sigs, Levels(o, d), Levels(o, depth), PropertyBound(o), o.maxUnionMembers);
    TypeTree.Function(g.types[t].displayName, sigs)
  }

  function SignaturesOf(g: TypeGraph, o: PrettifyOptions, sigs: seq<Signature>, depth: int, visited: set<TypeId>): (r: seq<TypeFunctionSignature>)
    requires Closed(g) && forall i :: 0 <= i < |sigs| ==> SignatureIn(g, sigs[i])
    ensures |r| == |sigs|
    ensures forall i :: 0 <= i < |r| ==> SignatureLimited(o, r[i], depth)
    decreases |g.types.Keys - visited|, 2, |sigs|
  {
    if sigs == [] then []
    else [SignatureTree(g, o, sigs[0], depth, visited)] + SignaturesOf(g, o, sigs[1..], depth, visited)
  }

  /** A tuple: its element types in order, at the same depth. */
  function TupleTree(g: TypeGraph, o: PrettifyOptions, t: TypeId, depth: int, visited: set<TypeId>): (r: TypeTree)
    requires Closed(g) && t in g.types
    ensures Limited(o, r, depth)
    decreases |g.types.Keys - visited|, 3, 0
  {
    ApparentAt(g, t);
    var apparent := g.types[g.types[t].apparent];
    Tuple(g.types[t].displayName, apparent.tupleReadonly, TreesOf(g, o, apparent.typeArguments, depth, visited))
  }

  /** The depth below an array: `maxDepth` unless arrays are unwrapped. */
  function ArrayDepth(o: PrettifyOptions, depth: int): int
  {
    if o.unwrapArrays then depth else o.maxDepth
  }

  /** An array: readonly iff its symbol is `ReadonlyArray`; the element falls back to `any`. */
  function ArrayTree(g: TypeGraph, o: PrettifyOptions, t: TypeId, depth: int, visited: set<TypeId>): (r: TypeTree)
    requires Closed(g) && t in g.types
    ensures Limited(o, r, depth)
    decreases |g.types.Keys - visited|, 3, 0
  {
    ApparentAt(g, t);
    var apparent := g.types[g.types[t].apparent];
    var d := ArrayDepth(o, depth);
    var elem := if |apparent.typeArguments| > 0
                then TypeTreeOf(g, o, apparent.typeArguments[0], d, visited)
                else Primitive("any");
    BoundedMonotone(elem, Levels(o, d), Levels(o, depth), PropertyBound(o), o.maxUnionMembers);
    Array(g.types[t].displayName, apparent.symbol.Some? && apparent.symbol.value.name == "ReadonlyArray", elem)
  }

  /** One call signature: its return type, then its parameters in order, all at `depth`. */
  function SignatureTree(g: TypeGraph, o: PrettifyOptions, s: Signature, depth: int, visited: set<TypeId>): (r: TypeFunctionSignature)
    requires Closed(g) && SignatureIn(g, s)
    ensures SignatureLimited(o, r, depth)
    decreases |g.types.Keys - visited|, 2, 0
  {
    TypeFunctionSignature(TypeTreeOf(g, o, s.returnType, depth, visited),
                          ParametersOf(g, o, s.parameters, depth, visited))
  }

  function ParametersOf(g: TypeGraph, o: PrettifyOptions, ps: seq<Symbol>, depth: int, visited: set<TypeId>): (r: seq<TypeFunctionParameter>)
    requires Closed(g) && SymbolsIn(g, ps)
    ensures |r| == |ps|
    ensures forall i :: 0 <= i < |r| ==> Limited(o, r[i].paramType, depth)
    decreases |g.types.Keys - visited|, 1, |ps|
  {
    if ps == [] then []
    else
      [TypeFunctionParameter(ps[0].name, IsRestParameter(ps[0]), IsOptionalParameter(ps[0]),
                             TypeTreeOf(g, o, ps[0].valueType, depth, visited))]
      + ParametersOf(g, o, ps[1..], depth, visited)
  }

  /** The width limit of an object at `depth`. */
  function WidthLimit(o: PrettifyOptions, depth: int): int
  {
    if depth >= 1 then o.maxSubProperties else o.maxProperties
  }

  /** An object, class or interface: collapsed at `maxDepth` to a reference when its name shows
      no object literal, else to an empty object that counts every property as excess. */
  function ObjectTree(g: TypeGraph, o: PrettifyOptions, t: TypeId, depth: int, visited: set<TypeId>): (r: TypeTree)
    requires Closed(g) && t in g.types
    ensures Limited(o, r, depth)
    decreases |g.types.Keys - visited|, 3, 0
  {
    ApparentAt(g, t);
    var typeName := g.types[t].displayName;
    var apparent := g.types[g.types[t].apparent];
    if depth < o.maxDepth then ExpandedObject(g, o, t, depth, visited)
    else if '{' !in typeName then Reference(typeName)
    else TypeTree.Object(typeName, [], |VisibleProperties(o, apparent.properties)| + IndexSignatureCount(apparent))
  }

  /** An object below `maxDepth`: the in-order prefix of its visible properties, then its index
      signatures while the running excess is still negative, all one level deeper. */
  function ExpandedObject(g: TypeGraph, o: PrettifyOptions, t: TypeId, depth: int, visited: set<TypeId>): (r: TypeTree)
    requires Closed(g) && t in g.types && depth < o.maxDepth
    ensures Limited(o, r, depth)
    decreases |g.types.Keys - visited|, 2, 0
  {
    ApparentAt(g, t);
    VisibleSymbolsIn(g, o, t);
    var apparent := g.types[g.types[t].apparent];
    var props := VisibleProperties(o, apparent.properties);
    var limit := WidthLimit(o, depth);
    var kept := Slice(props, limit);
    assert SymbolsIn(g, kept) by {
      forall i | 0 <= i < |kept| ensures kept[i].valueType in g.types {
        assert kept[i] == props[i];
      }
    }
    var shown := PropertiesOf(g, o, kept, depth + 1, visited);
    assert limit >= 0 ==> |shown| - Min(0, |props| - limit) == limit;
    var stringEntry := IndexEntry(g, o, apparent.stringIndex, "string", depth + 1, visited);
    var numberEntry := IndexEntry(g, o, apparent.numberIndex, "number", depth + 1, visited);
    ObjectLimited(o, g.types[t].displayName, shown, |props| - limit, stringEntry, numberEntry, depth);
    ObjectFrom(g.types[t].displayName, shown, |props| - limit, stringEntry, numberEntry)
  }

  /** The object node from its shown properties, the excess after truncation and the entries of
      its index signatures: first the string one, then the number one. */
  function ObjectFrom(name: string, shown: seq<TypeProperty>, excess: int,
                      stringEntry: Option<TypeProperty>, numberEntry: Option<TypeProperty>): TypeTree
  {
    var withString := AddIndex(shown, excess, stringEntry);
    var withNumber := AddIndex(withString.0, withString.1, numberEntry);
    TypeTree.Object(name, withNumber.0, Max(0, withNumber.1))
  }

  lemma ObjectLimited(o: PrettifyOptions, name: string, shown: seq<TypeProperty>, excess: int,
                      stringEntry: Option<TypeProperty>, numberEntry: Option<TypeProperty>, depth: int)
    requires depth < o.maxDepth
    requires forall i :: 0 <= i < |shown| ==> Limited(o, shown[i].propType, depth + 1)
    requires stringEntry.Some? ==> Limited(o, stringEntry.value.propType, depth + 1)
    requires numberEntry.Some? ==> Limited(o, numberEntry.value.propType, depth + 1)
    requires WidthLimit(o, depth) >= 0 ==> |shown| - Min(0, excess) == WidthLimit(o, depth)
    ensures Limited(o, ObjectFrom(name, shown, excess, stringEntry, numberEntry), depth)
  {
    var withString := AddIndex(shown, excess, stringEntry);
    var withNumber := AddIndex(withString.0, withString.1, numberEntry);
    var ps := withNumber.0;
    forall i | 0 <= i < |ps| ensures Limited(o, ps[i].propType, depth + 1) {
      if i >= |shown| && i >= |withString.0| {
        assert ps[i] == numberEntry.value;
      } else if i >= |shown| {
        assert ps[i] == withString.0[i] == stringEntry.value;
      } else {
        assert ps[i] == shown[i];
      }
    }
    assert Levels(o, depth + 1) == Levels(o, depth) - 1;
  }

  /** One index signature step: while the excess is negative there is room and the entry is
      shown; a present signature always counts one more toward the excess. Either way, the
      shown count plus the positive excess grows by one per present signature, and the shown
      count minus the negative excess stays put. */
  function AddIndex(shown: seq<TypeProperty>, excess: int, entry: Option<TypeProperty>): (r: (seq<TypeProperty>, int))
    ensures |r.0| + Max(0, r.1) == |shown| + Max(0, excess) + (if entry.Some? then 1 else 0)
    ensures |r.0| - Min(0, r.1) == |shown| - Min(0, excess)
    ensures r.0 == shown || (excess < 0 && entry.Some? && r.0 == shown + [entry.value])
  {
    match entry
    case None => (shown, excess)
    case Some(p) => (if excess < 0 then shown + [p] else shown, excess + 1)
  }

  /** The synthetic property of an index signature, when the type has one. */
  function IndexEntry(g: TypeGraph, o: PrettifyOptions, info: Option<IndexInfo>, keyType: string, depth: int, visited: set<TypeId>): (r: Option<TypeProperty>)
    requires Closed(g) && (info.Some? ==> info.value.valueType in g.types)
    ensures r.Some? <==> info.Some?
    ensures r.Some? ==> Limited(o, r.value.propType, depth)
    decreases |g.types.Keys - visited|, 1, 0
  {
    if info.Some? then Some(IndexProperty(g, o, info.value, keyType, depth, visited)) else None
  }

  /** The properties `props`, in order, each built at `depth`. */
  function PropertiesOf(g: TypeGraph, o: PrettifyOptions, props: seq<Symbol>, depth: int, visited: set<TypeId>): (r: seq<TypeProperty>)
    requires Closed(g) && SymbolsIn(g, props)
    ensures |r| == |props|
    ensures forall i :: 0 <= i < |r| ==> Limited(o, r[i].propType, depth)
    decreases |g.types.Keys - visited|, 1, |props|
  {
    if props == [] then []
    else [PropertyTree(g, o, props[0], depth, visited)] + PropertiesOf(g, o, props[1..], depth, visited)
  }

  function PropertyTree(g: TypeGraph, o: PrettifyOptions, s: Symbol, depth: int, visited: set<TypeId>): (r: TypeProperty)
    requires Closed(g) && s.valueType in g.types
    ensures Limited(o, r.propType, depth)
    decreases |g.types.Keys - visited|, 0, 1
  {
    TypeProperty(s.name, IsOptional(s), IsReadOnly(Some(s)), TypeTreeOf(g, o, s.valueType, depth, visited))
  }

  /** The synthetic property `[key: string]` or `[key: number]` of an index signature; its
      `readonly` flag is read from the symbol of the index value type. */
  function IndexProperty(g: TypeGraph, o: PrettifyOptions, info: IndexInfo, keyType: string, depth: int, visited: set<TypeId>): (r: TypeProperty)
    requires Closed(g) && info.valueType in g.types
    ensures Limited(o, r.propType, depth)
    decreases |g.types.Keys - visited|, 0, 1
  {
    TypeProperty("[" + info.identifierName + ": " + keyType + "]", false,
                 IsReadOnly(g.types[info.valueType].symbol),
                 TypeTreeOf(g, o, info.valueType, depth, visited))
  }

  // ---------------------------------------------------------------------------------------
  // What the builder promises

  /** The `i`-th tree of a list is the tree of the `i`-th id, built with the same depth and the
      same `visited`: siblings never see each other's marks. */
  lemma {:induction false} TreesOfAt(g: TypeGraph, o: PrettifyOptions, ids: seq<TypeId>, depth: int, visited: set<TypeId>, i: nat)
    requires Closed(g) && IdsIn(g, ids) && i < |ids|
    ensures TreesOf(g, o, ids, depth, visited)[i] == TypeTreeOf(g, o, ids[i], depth, visited)
  {
    if i > 0 {
      TreesOfAt(g, o, ids[1..], depth, visited, i - 1);
    }
  }

  /** The `i`-th property entry is built from the `i`-th symbol, with the same depth and the same
      `visited`. */
  lemma {:induction false} PropertiesOfAt(g: TypeGraph, o: PrettifyOptions, props: seq<Symbol>, depth: int, visited: set<TypeId>, i: nat)
    requires Closed(g) && SymbolsIn(g, props) && i < |props|
    ensures PropertiesOf(g, o, props, depth, visited)[i] == PropertyTree(g, o, props[i], depth, visited)
  {
    if i > 0 {
      PropertiesOfAt(g, o, props[1..], depth, visited, i - 1);
    }
  }

  /** The `i`-th signature entry is built from the `i`-th call signature at the same depth. */
  lemma {:induction false} SignaturesOfAt(g: TypeGraph, o: PrettifyOptions, sigs: seq<Signature>, depth: int, visited: set<TypeId>, i: nat)
    requires Closed(g) && (forall k :: 0 <= k < |sigs| ==> SignatureIn(g, sigs[k])) && i < |sigs|
    ensures SignaturesOf(g, o, sigs, depth, visited)[i] == SignatureTree(g, o, sigs[i], depth, visited)
  {
    if i > 0 {
      SignaturesOfAt(g, o, sigs[1..], depth, visited, i - 1);
    }
  }

  /** The `i`-th parameter entry is built from the `i`-th parameter symbol at the same depth. */
  lemma {:induction false} ParametersOfAt(g: TypeGraph, o: PrettifyOptions, ps: seq<Symbol>, depth: int, visited: set<TypeId>, i: nat)
    requires Closed(g) && SymbolsIn(g, ps) && i < |ps|
    ensures ParametersOf(g, o, ps, depth, visited)[i]
            == TypeFunctionParameter(ps[i].name, IsRestParameter(ps[i]), IsOptionalParameter(ps[i]),
                                     TypeTreeOf(g, o, ps[i].valueType, depth, visited))
  {
    if i > 0 {
      ParametersOfAt(g, o, ps[1..], depth, visited, i - 1);
    }
  }

  /** The decision order of `getTypeTree`: the primitive test wins over everything, a skip-list
      hit over the cycle test, and a type already on the branch is cut to a reference leaf
      named `...` or after its apparent type; only a type not yet on the branch is classified,
      with itself added to the branch. */
  lemma TypeTreeOfDecisionOrder(g: TypeGraph, o: PrettifyOptions, t: TypeId, depth: int, visited: set<TypeId>)
    requires Closed(g) && t in g.types
    ensures g.types[t].apparent in g.types
    ensures var node := g.types[t];
            var apparent := g.types[node.apparent];
            var r := TypeTreeOf(g, o, t, depth, visited);
            && (IsPrimitiveType(node) || IsPrimitiveType(apparent) ==> r == Primitive(node.displayName))
            && (!IsPrimitiveType(node) && !IsPrimitiveType(apparent) && node.displayName in o.skippedTypeNames
                ==> r == Reference(node.displayName))
            && (!IsPrimitiveType(node) && !IsPrimitiveType(apparent) && node.displayName !in o.skippedTypeNames && t in visited
                ==> r == Reference(if HasNestingSyntax(node.displayName) then "..." else apparent.displayName))
            && (!IsPrimitiveType(node) && !IsPrimitiveType(apparent) && node.displayName !in o.skippedTypeNames && t !in visited
                ==> r == Classify(g, o, t, depth, visited + {t}))
  {
    ApparentAt(g, t);
  }

  /** An enum-like type is never a primitive leaf. */
  lemma EnumLikeIsNotPrimitive(n: TypeNode)
    requires n.flags * EnumLikeFlags != {}
    ensures !IsPrimitiveType(n)
  {
  }

  /** A union shows at most `maxUnionMembers` entries, taken from the front of the checker's
      member list before sorting; the sort orders them by rank and keeps the order of each
      rank; every entry is built at the union's depth with the union's `visited`; the excess
      counts exactly the members cut off. */
  lemma {:induction false} UnionShape(g: TypeGraph, o: PrettifyOptions, t: TypeId, depth: int, visited: set<TypeId>)
    requires Closed(g) && t in g.types && o.maxUnionMembers >= 0
    ensures g.types[t].apparent in g.types
    ensures var all := g.types[g.types[t].apparent].unionTypes;
            var front := all[..Min(|all|, o.maxUnionMembers)];
            var ids := UnionMemberIds(g, o, t);
            var r := UnionTree(g, o, t, depth, visited);
            && r.Union?
            && r.excessMembers == Max(0, |all| - o.maxUnionMembers)
            && |r.types| == |ids| == Min(|all|, o.maxUnionMembers)
            && |r.types| + r.excessMembers == |all|
            && IdsIn(g, front)
            && multiset(ids) == multiset(front)
            && SortedByRank(g, ids)
            && (forall k: nat :: OfRank(g, ids, k) == OfRank(g, front, k))
            && (forall i :: 0 <= i < |r.types| ==> r.types[i] == TypeTreeOf(g, o, ids[i], depth, visited))
  {
    ApparentAt(g, t);
    var all := g.types[g.types[t].apparent].unionTypes;
    var front := all[..Min(|all|, o.maxUnionMembers)];
    assert Slice(all, o.maxUnionMembers) == front;
    SortUnionTypesIsStableByRank(g, front);
    var ids := UnionMemberIds(g, o, t);
    forall i | 0 <= i < |ids| ensures TreesOf(g, o, ids, depth, visited)[i] == TypeTreeOf(g, o, ids[i], depth, visited) {
      TreesOfAt(g, o, ids, depth, visited, i);
    }
  }

  /** Below `maxDepth`, with a non-negative width limit: the object shows at most that many
      entries, an index signature is shown only when the visible properties left room, and
      every visible property and index signature is either shown or counted in the excess,
      which is never negative. */
  lemma ObjectAccounting(g: TypeGraph, o: PrettifyOptions, t: TypeId, depth: int, visited: set<TypeId>)
    requires Closed(g) && t in g.types && depth < o.maxDepth && WidthLimit(o, depth) >= 0
    ensures g.types[t].apparent in g.types
    ensures var apparent := g.types[g.types[t].apparent];
            var props := VisibleProperties(o, apparent.properties);
            var limit := WidthLimit(o, depth);
            var r := ExpandedObject(g, o, t, depth, visited);
            && r.Object? && r.typeName == g.types[t].displayName
            && |r.properties| + r.excessProperties == |props| + IndexSignatureCount(apparent)
            && r.excessProperties >= 0
            && |r.properties| <= limit
            && (|r.properties| > Min(|props|, limit) ==> |props| < limit)
  {
    var shown, stringEntry, numberEntry := ExpandedObjectParts(g, o, t, depth, visited);
    ApparentAt(g, t);
    var props := VisibleProperties(o, g.types[g.types[t].apparent].properties);
    IndexAccounting(g.types[t].displayName, shown, |props|, WidthLimit(o, depth), stringEntry, numberEntry);
  }

  /** Below `maxDepth`, the object's first entries are the in-order prefix of its visible
      properties, each built one level deeper with the object's `visited`. */
  lemma ObjectPrefix(g: TypeGraph, o: PrettifyOptions, t: TypeId, depth: int, visited: set<TypeId>)
    requires Closed(g) && t in g.types && depth < o.maxDepth && WidthLimit(o, depth) >= 0
    ensures g.types[t].apparent in g.types
    ensures var props := VisibleProperties(o, g.types[g.types[t].apparent].properties);
            var k := Min(|props|, WidthLimit(o, depth));
            var r := ExpandedObject(g, o, t, depth, visited);
            && SymbolsIn(g, props)
            && r.Object? && k <= |r.properties|
            && (forall i :: 0 <= i < k ==> r.properties[i] == PropertyTree(g, o, props[i], depth + 1, visited))
  {
    var shown, stringEntry, numberEntry := ExpandedObjectParts(g, o, t, depth, visited);
    ApparentAt(g, t);
    var props := VisibleProperties(o, g.types[g.types[t].apparent].properties);
    var limit := WidthLimit(o, depth);
    var k := Min(|props|, limit);
    var r := ExpandedObject(g, o, t, depth, visited);
    IndexAccounting(g.types[t].displayName, shown, |props|, limit, stringEntry, numberEntry);
    forall i | 0 <= i < k ensures r.properties[i] == PropertyTree(g, o, props[i], depth + 1, visited) {
      assert r.properties[i] == r.properties[..k][i] == shown[i];
      PropertiesOfAt(g, o, props[..k], depth + 1, visited, i);
    }
  }

  /** The visible properties of a type's apparent type all have their types in the graph. */
  lemma VisibleSymbolsIn(g: TypeGraph, o: PrettifyOptions, t: TypeId)
    requires Closed(g) && t in g.types
    ensures g.types[t].apparent in g.types
    ensures SymbolsIn(g, VisibleProperties(o, g.types[g.types[t].apparent].properties))
  {
    ApparentAt(g, t);
    var apparent := g.types[g.types[t].apparent];
    var props := VisibleProperties(o, apparent.properties);
    assert forall i :: 0 <= i < |props| ==> props[i] in apparent.properties;
  }

  /** The parts `ExpandedObject` assembles its node from. */
  lemma ExpandedObjectParts(g: TypeGraph, o: PrettifyOptions, t: TypeId, depth: int, visited: set<TypeId>)
    returns (shown: seq<TypeProperty>, stringEntry: Option<TypeProperty>, numberEntry: Option<TypeProperty>)
    requires Closed(g) && t in g.types && depth < o.maxDepth && WidthLimit(o, depth) >= 0
    ensures g.types[t].apparent in g.types
    ensures var apparent := g.types[g.types[t].apparent];
            var props := VisibleProperties(o, apparent.properties);
            var limit := WidthLimit(o, depth);
            && SymbolsIn(g, props)
            && shown == PropertiesOf(g, o, props[..Min(|props|, limit)], depth + 1, visited)
            && |shown| == Min(|props|, limit)
            && (stringEntry.Some? <==> apparent.stringIndex.Some?)
            && (numberEntry.Some? <==> apparent.numberIndex.Some?)
            && ExpandedObject(g, o, t, depth, visited)
               == ObjectFrom(g.types[t].displayName, shown, |props| - limit, stringEntry, numberEntry)
  {
    ExpandedObjectFrom(g, o, t, depth, visited);
    VisibleSymbolsIn(g, o, t);
    var apparent := g.types[g.types[t].apparent];
    var props := VisibleProperties(o, apparent.properties);
    var limit := WidthLimit(o, depth);
    var kept := Slice(props, limit);
    assert kept == props[..Min(|props|, limit)];
    shown := PropertiesOf(g, o, kept, depth + 1, visited);
    stringEntry := IndexEntry(g, o, apparent.stringIndex, "string", depth + 1, visited);
    numberEntry := IndexEntry(g, o, apparent.numberIndex, "number", depth + 1, visited);
  }

  /** `ExpandedObject` assembled from its parts, for any width limit. */
  lemma ExpandedObjectFrom(g: TypeGraph, o: PrettifyOptions, t: TypeId, depth: int, visited: set<TypeId>)
    requires Closed(g) && t in g.types && depth < o.maxDepth
    ensures g.types[t].apparent in g.types && NodeClosed(g, g.types[g.types[t].apparent])
    ensures SymbolsIn(g, Slice(VisibleProperties(o, g.types[g.types[t].apparent].properties), WidthLimit(o, depth)))
    ensures ExpandedObject(g, o, t, depth, visited)
            == ObjectFrom(g.types[t].displayName,
                          PropertiesOf(g, o, Slice(VisibleProperties(o, g.types[g.types[t].apparent].properties), WidthLimit(o, depth)),
                                       depth + 1, visited),
                          |VisibleProperties(o, g.types[g.types[t].apparent].properties)| - WidthLimit(o, depth),
                          IndexEntry(g, o, g.types[g.types[t].apparent].stringIndex, "string", depth + 1, visited),
                          IndexEntry(g, o, g.types[g.types[t].apparent].numberIndex, "number", depth + 1, visited))
  {
    ApparentAt(g, t);
    VisibleSymbolsIn(g, o, t);
    var apparent := g.types[g.types[t].apparent];
    var props := VisibleProperties(o, apparent.properties);
    var kept := Slice(props, WidthLimit(o, depth));
    assert forall i :: 0 <= i < |kept| ==> kept[i] in props;
  }

  /** An object truncated to `limit` from `n` properties, then given its index signatures: at
      most `limit` entries in all, the truncated prefix first, and an index entry only when the
      `n` properties left room; every property and index signature is shown or counted, and
      the excess is never negative. */
  lemma IndexAccounting(name: string, shown: seq<TypeProperty>, n: nat, limit: nat,
                        stringEntry: Option<TypeProperty>, numberEntry: Option<TypeProperty>)
    requires |shown| == Min(n, limit)
    ensures var r := ObjectFrom(name, shown, n - limit, stringEntry, numberEntry);
            && r.Object? && r.typeName == name
            && |r.properties| + r.excessProperties
               == n + (if stringEntry.Some? then 1 else 0) + (if numberEntry.Some? then 1 else 0)
            && r.excessProperties >= 0
            && |r.properties| <= limit
            && |shown| <= |r.properties| && r.properties[..|shown|] == shown
            && (|r.properties| > |shown| ==> n < limit)
  {
    var withString := AddIndex(shown, n - limit, stringEntry);
    var withNumber := AddIndex(withString.0, withString.1, numberEntry);
    assert withString.0[..|shown|] == shown;
    assert withNumber.0[..|shown|] == shown;
  }

  /** At `maxDepth` or below, an object is not expanded: a name without an object literal stays a
      reference, otherwise every visible property and index signature is counted as excess. */
  lemma ObjectCollapse(g: TypeGraph, o: PrettifyOptions, t: TypeId, depth: int, visited: set<TypeId>)
    requires Closed(g) && t in g.types && depth >= o.maxDepth
    ensures g.types[t].apparent in g.types
    ensures var name := g.types[t].displayName;
            var apparent := g.types[g.types[t].apparent];
            var r := ObjectTree(g, o, t, depth, visited);
            && ('{' !in name ==> r == Reference(name))
            && ('{' in name ==>
                  (r.Object? && r.properties == []
                   && r.excessProperties == |VisibleProperties(o, apparent.properties)| + IndexSignatureCount(apparent)))
  {
    ApparentAt(g, t);
  }

  /** A callable shows one entry per call signature, in order, each built at the function depth
      with the callable's `visited`; with `unwrapFunctions` off that depth is `maxDepth`, so no
      object below a function shows a property. */
  lemma {:induction false} FunctionShape(g: TypeGraph, o: PrettifyOptions, t: TypeId, depth: int, visited: set<TypeId>)
    requires Closed(g) && t in g.types
    requires g.types[t].apparent in g.types && |g.types[g.types[t].apparent].callSignatures| > 0
    ensures var sigs := g.types[g.types[t].apparent].callSignatures;
            var r := FunctionTree(g, o, t, depth, visited);
            && r.Function? && |r.signatures| == |sigs|
            && (forall i :: 0 <= i < |sigs| ==>
                  (SignatureIn(g, sigs[i]) && r.signatures[i] == SignatureTree(g, o, sigs[i], FunctionDepth(o, depth), visited)))
            && (!o.unwrapFunctions ==>
                  forall i :: 0 <= i < |sigs| ==> SignatureBounded(r.signatures[i], 0, PropertyBound(o), o.maxUnionMembers))
  {
    ApparentAt(g, t);
    var sigs := g.types[g.types[t].apparent].callSignatures;
    var d := FunctionDepth(o, depth);
    forall i | 0 <= i < |sigs|
      ensures SignaturesOf(g, o, sigs, d, visited)[i] == SignatureTree(g, o, sigs[i], d, visited)
    {
      SignaturesOfAt(g, o, sigs, d, visited, i);
    }
    assert !o.unwrapFunctions ==> Levels(o, d) == 0;
  }

  /** An array is readonly iff its symbol is `ReadonlyArray`; its element is the tree of its first
      type argument at the array depth with the array's `visited`, or `any` without one; with
      `unwrapArrays` off that depth is `maxDepth`, so no object below shows a property. */
  lemma ArrayShape(g: TypeGraph, o: PrettifyOptions, t: TypeId, depth: int, visited: set<TypeId>)
    requires Closed(g) && t in g.types
    ensures g.types[t].apparent in g.types
    ensures var apparent := g.types[g.types[t].apparent];
            var r := ArrayTree(g, o, t, depth, visited);
            && r.Array?
            && (r.readonly <==> apparent.symbol.Some? && apparent.symbol.value.name == "ReadonlyArray")
            && (apparent.typeArguments == [] ==> r.elementType == Primitive("any"))
            && (apparent.typeArguments != [] ==>
                  (apparent.typeArguments[0] in g.types
                   && r.elementType == TypeTreeOf(g, o, apparent.typeArguments[0], ArrayDepth(o, depth), visited)))
            && (!o.unwrapArrays ==> Bounded(r.elementType, 0, PropertyBound(o), o.maxUnionMembers))
  {
    ApparentAt(g, t);
  }

  /** A promise and a tuple build their children at their own depth, with their own `visited`;
      a promise without a type argument holds `void`, and one that is not unwrapped and shows
      no object literal stays a reference. */
  lemma SameDepthChildren(g: TypeGraph, o: PrettifyOptions, t: TypeId, depth: int, visited: set<TypeId>)
    requires Closed(g) && t in g.types
    ensures g.types[t].apparent in g.types
    ensures var name := g.types[t].displayName;
            var apparent := g.types[g.types[t].apparent];
            var p := PromiseTree(g, o, t, depth, visited);
            var tu := TupleTree(g, o, t, depth, visited);
            && IdsIn(g, apparent.typeArguments)
            && (!o.unwrapPromises && '{' !in name ==> p == Reference(name))
            && (o.unwrapPromises || '{' in name ==>
                  p.Promise? && p.valueType == if apparent.typeArguments == [] then Primitive("void")
                                               else TypeTreeOf(g, o, apparent.typeArguments[0], depth, visited))
            && tu.Tuple? && tu.readonly == apparent.tupleReadonly
            && |tu.elementTypes| == |apparent.typeArguments|
            && (forall i :: 0 <= i < |tu.elementTypes| ==>
                  tu.elementTypes[i] == TypeTreeOf(g, o, apparent.typeArguments[i], depth, visited))
  {
    ApparentAt(g, t);
    var args := g.types[g.types[t].apparent].typeArguments;
    forall i | 0 <= i < |args| ensures TreesOf(g, o, args, depth, visited)[i] == TypeTreeOf(g, o, args[i], depth, visited) {
      TreesOfAt(g, o, args, depth, visited, i);
    }
  }
}
