/** `getTypeTree` as the source runs it: one call per type, local state updated step by step
    (`visited.add`, the reassigned `depth`, the pushed `properties` and the accumulated
    `excessProperties`), every child built from its own copy of `visited`. Each method is proved
    to build exactly the tree the builder's functions describe, so all they promise carries
    over. */
module TypeTreeWalk {
  import opened Common
  import opened TsApi
  import opened TypeTrees
  import opened TypeTreeBuilder

  /** `getTypeTree(type, depth, visited)`. */
  method GetTypeTree(g: TypeGraph, o: PrettifyOptions, t: TypeId, depth: int, visited: set<TypeId>)
    returns (r: TypeTree)
    requires Closed(g) && t in g.types
    ensures r == TypeTreeOf(g, o, t, depth, visited)
    ensures Limited(o, r, depth)
    decreases |g.types.Keys - visited|, 0, 0
  {
    ApparentAt(g, t);
    var typeName := g.types[t].displayName;
    var apparent := g.types[g.types[t].apparent];

    if IsPrimitiveType(g.types[t]) || IsPrimitiveType(apparent) {
      return Primitive(typeName);
    }
    if typeName in o.skippedTypeNames {
      return Reference(typeName);
    }
    if t in visited {
      if HasNestingSyntax(typeName) {
        return Reference("...");
      }
      return Reference(apparent.displayName);
    }

    VisitedShrinks(g.types.Keys, visited, t);
    var seen := visited;
    seen := seen + {t};
    assert TypeTreeOf(g, o, t, depth, visited) == Classify(g, o, t, depth, seen);

    if TypeFlag.Union in apparent.flags {
      r := BuildUnion(g, o, t, depth, seen);
    } else if IsEnumMember(apparent) {
      r := TypeTree.Enum(typeName, apparent.symbol.value.parentName.value + "." + apparent.symbol.value.name);
    } else if StartsWith(typeName, "Promise<") {
      r := BuildPromise(g, o, t, depth, seen);
    } else if |apparent.callSignatures| > 0 {
      r := BuildFunction(g, o, t, depth, seen);
    } else if apparent.isTuple {
      var elementTypes := BuildTrees(g, o, apparent.typeArguments, depth, seen);
      r := Tuple(typeName, apparent.tupleReadonly, elementTypes);
      assert r == TupleTree(g, o, t, depth, seen);
    } else if apparent.isArray {
      r := BuildArray(g, o, t, depth, seen);
    } else if apparent.isClassOrInterface || TypeFlag.Object in apparent.flags || |apparent.properties| > 0 {
      r := BuildObject(g, o, t, depth, seen);
    } else {
      r := Reference(typeName);
    }
  }

  /** The trees of `ids` in order, each from its own copy of `visited` (the source's `map`). */
  method BuildTrees(g: TypeGraph, o: PrettifyOptions, ids: seq<TypeId>, depth: int, visited: set<TypeId>)
    returns (trees: seq<TypeTree>)
    requires Closed(g) && IdsIn(g, ids)
    ensures trees == TreesOf(g, o, ids, depth, visited)
    decreases |g.types.Keys - visited|, 1, |ids|
  {
    trees := [];
    var i := 0;
    while i < |ids|
      invariant 0 <= i <= |ids| && |trees| == i
      invariant forall j :: 0 <= j < i ==> trees[j] == TypeTreeOf(g, o, ids[j], depth, visited)
    {
      var tree := GetTypeTree(g, o, ids[i], depth, visited);
      trees := trees + [tree];
      i := i + 1;
    }
    forall j | 0 <= j < |ids| ensures trees[j] == TreesOf(g, o, ids, depth, visited)[j] {
      TreesOfAt(g, o, ids, depth, visited, j);
    }
  }

  /** A union: the first `maxUnionMembers` members in checker order, sorted, then built. */
  method BuildUnion(g: TypeGraph, o: PrettifyOptions, t: TypeId, depth: int, visited: set<TypeId>)
    returns (r: TypeTree)
    requires Closed(g) && t in g.types
    ensures r == UnionTree(g, o, t, depth, visited)
    decreases |g.types.Keys - visited|, 3, 0
  {
    ApparentAt(g, t);
    var apparent := g.types[g.types[t].apparent];
    var excessMembers := Max(0, |apparent.unionTypes| - o.maxUnionMembers);
    var types := BuildTrees(g, o, UnionMemberIds(g, o, t), depth, visited);
    r := TypeTree.Union(g.types[t].displayName, types, excessMembers);
  }

  method BuildPromise(g: TypeGraph, o: PrettifyOptions, t: TypeId, depth: int, visited: set<TypeId>)
    returns (r: TypeTree)
    requires Closed(g) && t in g.types
    ensures r == PromiseTree(g, o, t, depth, visited)
    decreases |g.types.Keys - visited|, 3, 0
  {
    ApparentAt(g, t);
    var typeName := g.types[t].displayName;
    var apparent := g.types[g.types[t].apparent];
    if !o.unwrapPromises && '{' !in typeName {
      return Reference(typeName);
    }
    var promiseType;
    if |apparent.typeArguments| > 0 {
      promiseType := GetTypeTree(g, o, apparent.typeArguments[0], depth, visited);
    } else {
      promiseType := Primitive("void");
    }
    r := Promise(typeName, promiseType);
  }

  /** A callable: `depth` is reset to `maxDepth` unless functions are unwrapped, then one entry
      per call signature. */
  method BuildFunction(g: TypeGraph, o: PrettifyOptions, t: TypeId, depth: int, visited: set<TypeId>)
    returns (r: TypeTree)
    requires Closed(g) && t in g.types
    requires g.types[t].apparent in g.types && |g.types[g.types[t].apparent].callSignatures| > 0
    ensures r == FunctionTree(g, o, t, depth, visited)
    decreases |g.types.Keys - visited|, 3, 0
  {
    ApparentAt(g, t);
    var callSignatures := g.types[g.types[t].apparent].callSignatures;
    var depth := depth;
    if !o.unwrapFunctions {
      depth := o.maxDepth;
    }
    var signatures := [];
    var i := 0;
    while i < |callSignatures|
      invariant 0 <= i <= |callSignatures| && |signatures| == i
      invariant forall j :: 0 <= j < i ==> signatures[j] == SignatureTree(g, o, callSignatures[j], depth, visited)
    {
      var s := BuildSignature(g, o, callSignatures[i], depth, visited);
      signatures := signatures + [s];
      i := i + 1;
    }
    forall j | 0 <= j < |callSignatures|
      ensures signatures[j] == SignaturesOf(g, o, callSignatures, depth, visited)[j]
    {
      SignaturesOfAt(g, o, callSignatures, depth, visited, j);
    }
    r := TypeTree.Function(g.types[t].displayName, signatures);
  }

  /** One signature: the return type first, then each parameter. */
  method BuildSignature(g: TypeGraph, o: PrettifyOptions, s: Signature, depth: int, visited: set<TypeId>)
    returns (r: TypeFunctionSignature)
    requires Closed(g) && SignatureIn(g, s)
    ensures r == SignatureTree(g, o, s, depth, visited)
    decreases |g.types.Keys - visited|, 2, 0
  {
    var returnType := GetTypeTree(g, o, s.returnType, depth, visited);
    var parameters := [];
    var i := 0;
    while i < |s.parameters|
      invariant 0 <= i <= |s.parameters| && |parameters| == i
      invariant forall j :: 0 <= j < i ==>
                  parameters[j] == TypeFunctionParameter(s.parameters[j].name, IsRestParameter(s.parameters[j]),
                                                         IsOptionalParameter(s.parameters[j]),
                                                         TypeTreeOf(g, o, s.parameters[j].valueType, depth, visited))
    {
      var symbol := s.parameters[i];
      var tree := GetTypeTree(g, o, symbol.valueType, depth, visited);
      parameters := parameters + [TypeFunctionParameter(symbol.name, IsRestParameter(symbol), IsOptionalParameter(symbol), tree)];
      i := i + 1;
    }
    forall j | 0 <= j < |s.parameters|
      ensures parameters[j] == ParametersOf(g, o, s.parameters, depth, visited)[j]
    {
      ParametersOfAt(g, o, s.parameters, depth, visited, j);
    }
    r := TypeFunctionSignature(returnType, parameters);
  }

  /** An array: `depth` is reset to `maxDepth` unless arrays are unwrapped. */
  method BuildArray(g: TypeGraph, o: PrettifyOptions, t: TypeId, depth: int, visited: set<TypeId>)
    returns (r: TypeTree)
    requires Closed(g) && t in g.types
    ensures r == ArrayTree(g, o, t, depth, visited)
    decreases |g.types.Keys - visited|, 3, 0
  {
    ApparentAt(g, t);
    var apparent := g.types[g.types[t].apparent];
    var depth := depth;
    if !o.unwrapArrays {
      depth := o.maxDepth;
    }
    var elementType;
    if |apparent.typeArguments| > 0 {
      elementType := GetTypeTree(g, o, apparent.typeArguments[0], depth, visited);
    } else {
      elementType := Primitive("any");
    }
    r := Array(g.types[t].displayName, apparent.symbol.Some? && apparent.symbol.value.name == "ReadonlyArray", elementType);
  }

  /** An object, class or interface: collapsed at `maxDepth` to a reference, or to an empty
      object counting every property and index signature; expanded below it. */
  method BuildObject(g: TypeGraph, o: PrettifyOptions, t: TypeId, depth: int, visited: set<TypeId>)
    returns (r: TypeTree)
    requires Closed(g) && t in g.types
    ensures r == ObjectTree(g, o, t, depth, visited)
    decreases |g.types.Keys - visited|, 3, 0
  {
    ApparentAt(g, t);
    var typeName := g.types[t].displayName;
    var apparent := g.types[g.types[t].apparent];
    var typeProperties := VisibleProperties(o, apparent.properties);

    if depth >= o.maxDepth {
      if '{' !in typeName {
        return Reference(typeName);
      }
      var propertiesCount := |typeProperties|;
      if apparent.stringIndex.Some? {
        propertiesCount := propertiesCount + 1;
      }
      if apparent.numberIndex.Some? {
        propertiesCount := propertiesCount + 1;
      }
      return TypeTree.Object(typeName, [], propertiesCount);
    }
    r := ExpandObject(g, o, t, depth, visited);
  }

  /** Below `maxDepth`: the properties cut to the width limit of the depth, each built one level
      deeper, then the string and the number index signature. */
  method ExpandObject(g: TypeGraph, o: PrettifyOptions, t: TypeId, depth: int, visited: set<TypeId>)
    returns (r: TypeTree)
    requires Closed(g) && t in g.types && depth < o.maxDepth
    ensures r == ExpandedObject(g, o, t, depth, visited)
    decreases |g.types.Keys - visited|, 2, 1
  {
    ExpandedObjectFrom(g, o, t, depth, visited);
    var apparent := g.types[g.types[t].apparent];
    var depthMaxProps := if depth >= 1 then o.maxSubProperties else o.maxProperties;
    var typeProperties := VisibleProperties(o, apparent.properties);
    var excessProperties := |typeProperties| - depthMaxProps;
    typeProperties := Slice(typeProperties, depthMaxProps);
    var properties := BuildProperties(g, o, typeProperties, depth + 1, visited);
    r := AddIndexSignatures(g, o, g.types[t].displayName, apparent, properties, excessProperties, depth + 1, visited);
  }

  /** The string, then the number index signature of `apparent`, then the object node with the
      excess clamped at zero. */
  method AddIndexSignatures(g: TypeGraph, o: PrettifyOptions, typeName: string, apparent: TypeNode,
                            properties: seq<TypeProperty>, excessProperties: int, depth: int, visited: set<TypeId>)
    returns (r: TypeTree)
    requires Closed(g) && NodeClosed(g, apparent)
    ensures r == ObjectFrom(typeName, properties, excessProperties,
                            IndexEntry(g, o, apparent.stringIndex, "string", depth, visited),
                            IndexEntry(g, o, apparent.numberIndex, "number", depth, visited))
    decreases |g.types.Keys - visited|, 2, 0
  {
    var properties, excessProperties := properties, excessProperties;
    properties, excessProperties := PushIndex(g, o, apparent.stringIndex, "string", properties, excessProperties, depth, visited);
    properties, excessProperties := PushIndex(g, o, apparent.numberIndex, "number", properties, excessProperties, depth, visited);
    r := TypeTree.Object(typeName, properties, Max(0, excessProperties));
  }

  /** One index signature (`string` or `number`): while the excess is negative its entry is
      built one level deeper and pushed; a present signature always adds one to the excess. */
  method PushIndex(g: TypeGraph, o: PrettifyOptions, index: Option<IndexInfo>, keyType: string,
                   properties: seq<TypeProperty>, excessProperties: int, depth: int, visited: set<TypeId>)
    returns (properties': seq<TypeProperty>, excessProperties': int)
    requires Closed(g) && (index.Some? ==> index.value.valueType in g.types)
    ensures (properties', excessProperties')
            == AddIndex(properties, excessProperties, IndexEntry(g, o, index, keyType, depth, visited))
    decreases |g.types.Keys - visited|, 1, 0
  {
    properties', excessProperties' := properties, excessProperties;
    if index.Some? {
      if excessProperties' < 0 {
        var info := index.value;
        var tree := GetTypeTree(g, o, info.valueType, depth, visited);
        properties' := properties' + [TypeProperty("[" + info.identifierName + ": " + keyType + "]", false,
                                                   IsReadOnly(g.types[info.valueType].symbol), tree)];
      }
      excessProperties' := excessProperties' + 1;
    }
  }

  /** The shown properties in order, each one level deeper (the source's `map`). */
  method BuildProperties(g: TypeGraph, o: PrettifyOptions, props: seq<Symbol>, depth: int, visited: set<TypeId>)
    returns (properties: seq<TypeProperty>)
    requires Closed(g) && SymbolsIn(g, props)
    ensures properties == PropertiesOf(g, o, props, depth, visited)
    decreases |g.types.Keys - visited|, 1, |props|
  {
    properties := [];
    var i := 0;
    while i < |props|
      invariant 0 <= i <= |props| && |properties| == i
      invariant forall j :: 0 <= j < i ==> properties[j] == PropertyTree(g, o, props[j], depth, visited)
    {
      var symbol := props[i];
      var tree := GetTypeTree(g, o, symbol.valueType, depth, visited);
      properties := properties + [TypeProperty(symbol.name, IsOptional(symbol), IsReadOnly(Some(symbol)), tree)];
      i := i + 1;
    }
    forall j | 0 <= j < |props| ensures properties[j] == PropertiesOf(g, o, props, depth, visited)[j] {
      PropertiesOfAt(g, o, props, depth, visited, j);
    }
  }
}
