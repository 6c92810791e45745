# Zodgen type-tree pipeline in Dafny

Zodgen's editor plugin copies the type under the cursor as a declaration. It has four parts, and this project models each of them:

- **Position resolution.** `getDescendantAtRange` finds the tightest syntax node around the cursor.
- **Type-tree building.** `getTypeInfoAtPosition` and `getTypeTree` walk the type checker's graph and build a finite, bounded `TypeTree`.
- **Rendering and layout.**
  - `stringifyTypeTree` prints the tree as one line.
  - `prettyPrintTypeString` lays that line out with brace-depth indentation.
  - `getSyntaxKindDeclaration` and `sanitizeString` build and strip declaration prefixes.
- **The schema pipeline's own pieces.** `convertJsonTypeToTypeScript` is a second renderer, for JSON type descriptions, and `isPrettifyRequest` validates the plugin's request envelope.

The checker and the syntax tree are values:

- **Type graph** (`TsApi.TypeGraph`). A finite map from type ids to nodes. Each node carries a display name, an apparent type, flags, union members, signatures, type arguments, properties and index signatures.
- **Syntax tree** (`TsApi.SyntaxNode`). A rose tree of spans.
- **Checker answers** (`TypeInfos.Checker`). What the checker answers for a node, a missing symbol and a throwing call included, is an input as well.

Module by module:

- **`TypeTreeBuilder`** is `getTypeTree` as functions, terminating on the measure `|types − visited|`.
- **`TypeTreeWalk`** holds the same walk written the source's way. It reassigns `depth`, pushes index-signature properties and adds to the excess count, and every method is proved equal to its function.
- **`Stringify` and `PrettyPrint`** are the renderer and the indenting loop.
- **`Layout`** connects the two: a tree whose copied names balance their braces always lays out.
- **`Declarations`, `AstSearch`, `Request` and `TypeInfos`** model the remaining functions.
- **`JsonTypes`** is `convertJsonTypeToTypeScript` in two dialects. `AsWritten` is the function as the source has it. `Corrected` fixes its two defects listed under "## Findings". `DialectsAgree` proves the two print the same text wherever those defects cannot arise.

## Model

"Within the limits" means `Limited`. The tree is well formed: every function node has a signature. It also has at most `maxUnionMembers` union entries and at most `max(maxProperties, maxSubProperties)` shown properties per object. Objects that show properties nest at most `maxDepth − depth` levels deep.

| member | source | states |
|---|---|---|
| TypeTreeBuilder.VisibleProperties | src/typescript-plugin/type-tree/index.ts:296-299 | Without `hidePrivateProperties` the list is unchanged. Otherwise it is a sub-list holding only public properties. |
| TypeTreeBuilder.FilterPublic | src/typescript-plugin/type-tree/index.ts:298 | A symbol is kept iff it was in the list and `isPublicProperty` holds for it. |
| TypeTreeBuilder.EnumLikeIsNotPrimitive | src/typescript-plugin/type-tree/index.ts:385-409 | A type with any enum-like flag is never primitive. |
| TypeTreeBuilder.IsPrimitiveType | src/typescript-plugin/type-tree/index.ts:385-409 | No contract of its own: `EnumLikeIsNotPrimitive` states that enum-like flags exclude it, and `TypeTreeOfDecisionOrder` that it yields a `Primitive` leaf. |
| TypeTreeBuilder.IsPublicProperty | src/typescript-plugin/type-tree/index.ts:469-491 | No contract of its own: `FilterPublic` states that exactly the symbols it accepts are kept. |
| TypeTreeBuilder.IsReadOnly | src/typescript-plugin/type-tree/index.ts:496-508 | No contract of its own: `PropertiesOfAt` states that it sets each property's `readonly` flag. |
| TypeTreeBuilder.IsOptional | src/typescript-plugin/type-tree/index.ts:513-523 | No contract of its own: `PropertiesOfAt` states that it sets each property's `optional` flag. |
| TypeTreeBuilder.CompareUnionTypes | src/typescript-plugin/type-tree/index.ts:423-464 | The comparator's sign is the sign of rank(a) − rank(b), with string < number < bigint < boolean < symbol < other < null < undefined. |
| TypeTreeBuilder.UnionRank | src/typescript-plugin/type-tree/index.ts:423-464 | The rank the comparator orders by lies in 0..7. |
| TypeTreeBuilder.InsertUnionType | src/typescript-plugin/type-tree/index.ts:188 | One insertion step of the sort: the result is the list plus the new id, as a multiset. |
| TypeTreeBuilder.SortUnionTypes | src/typescript-plugin/type-tree/index.ts:188 | Sorting union members with the comparator yields a permutation of its input. |
| TypeTreeBuilder.InsertSorted | src/typescript-plugin/type-tree/index.ts:188 | Inserting into a rank-sorted list keeps it sorted. |
| TypeTreeBuilder.InsertOfRank | src/typescript-plugin/type-tree/index.ts:188 | Insertion keeps the relative order of the members of each rank. |
| TypeTreeBuilder.SortUnionTypesIsStableByRank | src/typescript-plugin/type-tree/index.ts:184-189 | The sorted members are ordered by rank. Members of equal rank keep their checker order, so "other" types are not reordered. |
| TypeTreeBuilder.TypeTreeOf | src/typescript-plugin/type-tree/index.ts:149-182 | Every tree it returns respects the depth, width and union limits for its depth. Termination is on the measure `|types − visited|`. |
| TypeTreeBuilder.TypeTreeOfDecisionOrder | src/typescript-plugin/type-tree/index.ts:153-182 | The checks run in this order, each with the leaf it yields: primitive (node or apparent type), skip list, visited (`...` for names with `{`, `[` or `(`, else the apparent name). Only then is the type classified, with itself added to the visited set. |
| TypeTreeBuilder.Classify | src/typescript-plugin/type-tree/index.ts:184-379 | The classification of an unvisited type respects the limits for its depth. |
| TypeTreeBuilder.UnionMemberIds | src/typescript-plugin/type-tree/index.ts:185-188 | The kept members are graph ids, and there are at most `maxUnionMembers` of them. |
| TypeTreeBuilder.UnionTree | src/typescript-plugin/type-tree/index.ts:184-197 | A union tree respects the limits. |
| TypeTreeBuilder.UnionShape | src/typescript-plugin/type-tree/index.ts:184-197 | `excessMembers = max(0, n − max)`. `types` has min(n, max) entries, and `types` plus excess accounts for all n members. The members are the first min(n, max) in checker order, cut before sorting. They are sorted by rank and stable within a rank, and each is the tree of its member at the same depth. |
| TypeTreeBuilder.TreesOf | src/typescript-plugin/type-tree/index.ts:189 | One tree per id, each within the limits. |
| TypeTreeBuilder.TreesOfAt | src/typescript-plugin/type-tree/index.ts:189 | The i-th tree is the tree of the i-th id, built from the same visited set, so siblings never see each other's marks. |
| TypeTreeBuilder.PromiseTree | src/typescript-plugin/type-tree/index.ts:207-223 | A promise tree respects the limits. |
| TypeTreeBuilder.SameDepthChildren | src/typescript-plugin/type-tree/index.ts:207-268 | A `Promise<...>` without unwrapping and without `{` in its name is a reference leaf. Otherwise it wraps the first type argument at the same depth, or `void`. A tuple keeps its readonly flag and holds one same-depth tree per type argument. |
| TypeTreeBuilder.FunctionTree | src/typescript-plugin/type-tree/index.ts:225-254 | A function tree respects the limits. |
| TypeTreeBuilder.FunctionShape | src/typescript-plugin/type-tree/index.ts:225-254 | One signature tree per call signature, in order, all at the function's depth. With `unwrapFunctions` off, that depth is `maxDepth`, so every object inside collapses. |
| TypeTreeBuilder.SignaturesOf | src/typescript-plugin/type-tree/index.ts:231-247 | One signature tree per signature, each within the limits. |
| TypeTreeBuilder.SignaturesOfAt | src/typescript-plugin/type-tree/index.ts:231-247 | The i-th signature tree is built from the i-th signature. |
| TypeTreeBuilder.SignatureTree | src/typescript-plugin/type-tree/index.ts:232-246 | The return and parameter trees respect the limits. |
| TypeTreeBuilder.ParametersOf | src/typescript-plugin/type-tree/index.ts:233-244 | One parameter per symbol, each type within the limits. |
| TypeTreeBuilder.ParametersOfAt | src/typescript-plugin/type-tree/index.ts:233-244 | The i-th parameter carries the symbol's name, its rest and optional flags, and its type's tree. |
| TypeTreeBuilder.TupleTree | src/typescript-plugin/type-tree/index.ts:256-268 | A tuple tree respects the limits. |
| TypeTreeBuilder.ArrayTree | src/typescript-plugin/type-tree/index.ts:270-286 | An array tree respects the limits. |
| TypeTreeBuilder.ArrayShape | src/typescript-plugin/type-tree/index.ts:270-286 | Readonly iff the symbol is named `ReadonlyArray`. The element falls back to `any`, and otherwise is the first type argument's tree. With `unwrapArrays` off it is built at `maxDepth`. |
| TypeTreeBuilder.ObjectTree | src/typescript-plugin/type-tree/index.ts:288-374 | An object tree respects the limits. |
| TypeTreeBuilder.ObjectCollapse | src/typescript-plugin/type-tree/index.ts:304-323 | At `depth >= maxDepth` a name without `{` gives a reference leaf. Otherwise the result is an empty object whose excess is the filtered property count plus one per index signature. |
| TypeTreeBuilder.ExpandedObject | src/typescript-plugin/type-tree/index.ts:294-373 | An expanded object, below `maxDepth`, is within the limits at its depth. |
| TypeTreeBuilder.ExpandedObjectFrom | src/typescript-plugin/type-tree/index.ts:294-373 | The expanded object is built from the slice of the filtered properties at depth + 1, the raw excess, and the two index entries. |
| TypeTreeBuilder.ExpandedObjectParts | src/typescript-plugin/type-tree/index.ts:326-337 | The shown properties are the trees of the first min(n, limit) filtered properties. Each index entry exists iff its index signature does. |
| TypeTreeBuilder.ObjectAccounting | src/typescript-plugin/type-tree/index.ts:294-373 | Properties plus excess equal the filtered count plus the index signatures, and excess ≥ 0. At most `limit` properties are shown, where `limit` is `maxProperties` at depth 0 and `maxSubProperties` below. An index property is shown only when the named properties did not fill the limit. |
| TypeTreeBuilder.ObjectPrefix | src/typescript-plugin/type-tree/index.ts:326-337 | The first min(n, limit) properties are, in order, the trees of the first filtered properties at depth + 1. |
| TypeTreeBuilder.AddIndex | src/typescript-plugin/type-tree/index.ts:339-366 | An index signature is appended only while the excess is negative. Either way it adds exactly one to the shown-plus-excess total. |
| TypeTreeBuilder.IndexAccounting | src/typescript-plugin/type-tree/index.ts:339-373 | After both index steps and the final clamp: total = n + index signatures, excess ≥ 0, at most `limit` shown, and the named properties stay a prefix. |
| TypeTreeBuilder.IndexEntry | src/typescript-plugin/type-tree/index.ts:339-366 | An entry exists iff the index signature does, and its type respects the limits at its depth. |
| TypeTreeBuilder.PropertiesOf | src/typescript-plugin/type-tree/index.ts:329-337 | One property per symbol, each type within the limits. |
| TypeTreeBuilder.PropertiesOfAt | src/typescript-plugin/type-tree/index.ts:329-337 | The i-th property is the i-th symbol's property tree. |
| TypeTreeBuilder.PropertyTree | src/typescript-plugin/type-tree/index.ts:330-336 | The property's type respects the limits at its depth. |
| TypeTreeBuilder.IndexProperty | src/typescript-plugin/type-tree/index.ts:343-348 | The index property's type respects the limits at its depth. |
| TypeTreeWalk.GetTypeTree | src/typescript-plugin/type-tree/index.ts:149-380 | The imperative walk returns exactly `TypeTreeOf`, and the result respects the limits. |
| TypeTreeWalk.BuildTrees | src/typescript-plugin/type-tree/index.ts:189 | The mapping loop over union members returns `TreesOf`. |
| TypeTreeWalk.BuildUnion | src/typescript-plugin/type-tree/index.ts:184-197 | Returns `UnionTree`. |
| TypeTreeWalk.BuildPromise | src/typescript-plugin/type-tree/index.ts:207-223 | Returns `PromiseTree`. |
| TypeTreeWalk.BuildFunction | src/typescript-plugin/type-tree/index.ts:225-254 | Reassigns `depth` as the source does, and returns `FunctionTree`. |
| TypeTreeWalk.BuildSignature | src/typescript-plugin/type-tree/index.ts:231-247 | Returns `SignatureTree`. |
| TypeTreeWalk.BuildArray | src/typescript-plugin/type-tree/index.ts:270-286 | Reassigns `depth`, and returns `ArrayTree`. |
| TypeTreeWalk.BuildObject | src/typescript-plugin/type-tree/index.ts:288-374 | Returns `ObjectTree`. |
| TypeTreeWalk.ExpandObject | src/typescript-plugin/type-tree/index.ts:325-373 | Slices, maps and then adds the index signatures, and returns `ExpandedObject`. |
| TypeTreeWalk.AddIndexSignatures | src/typescript-plugin/type-tree/index.ts:339-373 | Two push-and-count steps followed by the clamp return `ObjectFrom` of the two index entries. |
| TypeTreeWalk.PushIndex | src/typescript-plugin/type-tree/index.ts:339-352 | One conditional push and the `excessProperties += 1` equal `AddIndex`. |
| TypeTreeWalk.BuildProperties | src/typescript-plugin/type-tree/index.ts:329-337 | The property loop returns `PropertiesOf`. |
| TypeInfos.GetTypeInfoAtPosition | src/typescript-plugin/type-tree/index.ts:25-93 | The resolver returns exactly `TypeInfoAt`: resolve the node, check the symbol, follow an alias, then build the info. |
| TypeInfos.GetSymbolTypeInfo | src/typescript-plugin/type-tree/index.ts:48-89 | The body after symbol resolution returns `InfoFor`: syntax kind, name, the constructor case, and the declared-type choice. |
| TypeInfos.TypeInfoAt | src/typescript-plugin/type-tree/index.ts:25-93 | No contract of its own: `UndefinedCases` states when it is `undefined`, and `DefinedShape` what a defined result holds. |
| TypeInfos.InfoFor | src/typescript-plugin/type-tree/index.ts:48-89 | No contract of its own: `DefinedShape` and `NoConstructorInImports` state its result. |
| TypeInfos.UndefinedCases | src/typescript-plugin/type-tree/index.ts:37-92 | The result is `undefined` iff the node is the source file or has no parent, there is no symbol, a checker call throws, or the node names a variable declaration that has no parent (reading the parent's kind throws). |
| TypeInfos.DefinedShape | src/typescript-plugin/type-tree/index.ts:50-89 | A defined result carries the symbol's name and a tree within the limits at depth 0. It is either the constructor tree with kind `Constructor`, or the tree of the shown type with the declaration's kind. |
| TypeInfos.NoConstructorInImports | src/typescript-plugin/type-tree/index.ts:59-70 | Inside an import statement or a class declaration the constructor view is never chosen. |
| TypeInfos.IsPartOfImportStatement | src/typescript-plugin/type-tree/index.ts:95-103 | The parent-walking loop answers true iff some ancestor, the node included, is an import declaration, specifier or clause. |
| TypeInfos.VariableDeclarationKind | src/typescript-plugin/type-tree/index.ts:105-118 | The result is always `let`, `const` or `var`. |
| TypeInfos.VariableDeclarationKindCases | src/typescript-plugin/type-tree/index.ts:105-118 | `let` iff the parent is a declaration list with the Let flag. `var` iff it is a list with neither flag. `const` iff it is not a list, or is a list with Const and without Let. |
| TypeInfos.ConstructorTree | src/typescript-plugin/type-tree/index.ts:120-144 | The constructor tree respects the limits at depth 0. |
| TypeInfos.GetConstructorTypeInfo | src/typescript-plugin/type-tree/index.ts:120-144 | The parameter loop returns `ConstructorTree`. |
| TypeInfos.ConstructorShape | src/typescript-plugin/type-tree/index.ts:120-144 | A function named after the class with one signature. That signature returns a reference to the class and has one parameter per constructor parameter, each with its name, flags and depth-0 tree. |
| TypeInfos.ShownType | src/typescript-plugin/type-tree/index.ts:76-81 | The chosen type, declared or located, is a graph node. |
| TypeInfos.Answer | src/typescript-plugin/type-tree/index.ts:40-48 | The checker's answer for a node refers only to types in the graph. |
| TypeInfos.ResolvedNodeHasPath | src/typescript-plugin/type-tree/index.ts:37-38 | The node the search resolves has a parent chain from the source file. |
| TypeInfos.PathTo | src/typescript-plugin/type-tree/index.ts:37-38 | A found chain starts at the node and ends at the root. |
| Stringify.StringifyIsStable | out/stringify-type-tree.js:16-81 | The in-place removal of `undefined` from optional unions leaves a well-formed tree that prints identically. Doing it twice changes nothing, so printing a tree again gives the same text. |
| Stringify.AfterStringify | out/stringify-type-tree.js:28-62 | The tree after the call keeps its name, and a union stays a union. |
| Stringify.AfterMembers | out/stringify-type-tree.js:28-32 | With the filter, no member named `undefined` remains. Without it, the list keeps its length. |
| Stringify.MembersAreStable | out/stringify-type-tree.js:17-32 | Members after the mutation print as before, and filtering is idempotent. |
| Stringify.SlotIsStable | out/stringify-type-tree.js:28-33 | An optional slot prints the same after its union lost `undefined`, and the change is idempotent. |
| Stringify.PropertiesAreStable | out/stringify-type-tree.js:25-34 | Properties print the same after the mutation. |
| Stringify.SignaturesAreStable | out/stringify-type-tree.js:53-66 | Signatures print the same after the mutation. |
| Stringify.ParametersAreStable | out/stringify-type-tree.js:55-64 | Parameters print the same after the mutation. |
| Stringify.RenderMembers | out/stringify-type-tree.js:17-23 | One string per member, with `undefined` members dropped only when asked. |
| Stringify.Render | out/stringify-type-tree.js:16-81 | No contract of its own: `StringifyIsStable` states that the in-place mutation does not change its text, and `Layout.RenderBalanced` that the text balances its braces. |
| Layout.RenderBalanced | out/stringify-type-tree.js:16-81 | The printed text balances its braces whenever every name copied from the tree does. |
| Layout.UnionBalanced | out/stringify-type-tree.js:17-23 | Union text, with or without ` \| ... N more`, balances when its members do. |
| Layout.ObjectTextBalanced | out/stringify-type-tree.js:24-38 | `{ props ... N more; }` balances when its properties do. |
| Layout.FunctionTextBalanced | out/stringify-type-tree.js:67-71 | A single signature, or `{s1; s2;}` for several, balances when the signatures do. |
| Layout.ArrayTextBalanced | out/stringify-type-tree.js:44-50 | Parenthesising an element that holds `\|` or `&` keeps it balanced. |
| Layout.TupleTextBalanced | out/stringify-type-tree.js:40-43 | Tuple text balances when its elements do. |
| Layout.PrintedTreeLaysOut | out/stringify-type-tree.js:131-165 | Printing a tree and then laying it out never throws, provided the tree's verbatim names balance. |
| Layout.LiteralBraceBreaksLayout | out/stringify-type-tree.js:143-159 | The object with a property of literal type `"}"` prints as `{ a: "}"; }`, and the layout throws on it. |
| PrettyPrint.PrettyPrintTypeString | out/stringify-type-tree.js:131-159 | The method returns exactly `PrettyPrinted`. |
| PrettyPrint.PrettyPrinted | out/stringify-type-tree.js:131-159 | No contract of its own: `PrettyPrintFailsIffUnderflow` states when it throws, and `BalancedNeverFails` that balanced text never does. |
| PrettyPrint.IndentLines | out/stringify-type-tree.js:143-159 | The line loop, updating `depth` and `result`, equals the `Indent` recursion. It throws (`RangeError`) exactly when `Indent` reaches a negative depth. |
| PrettyPrint.PrettyPrintFailsIffUnderflow | out/stringify-type-tree.js:133-159 | With `indentation >= 1` the printer throws iff the normalised text's running brace depth ever goes negative. Otherwise it ends at that text's final depth. |
| PrettyPrint.BalancedNeverFails | out/stringify-type-tree.js:131-159 | Balanced input never throws, and the loop ends at depth 0. |
| PrettyPrint.IndentTracksDepth | out/stringify-type-tree.js:143-159 | The line-by-line depth equals the character-by-character brace depth of the split text. |
| PrettyPrint.BreakBracesShape | out/stringify-type-tree.js:139-141 | After the brace breaks, every brace sits on its own line edge, and the brace depth is unchanged. |
| PrettyPrint.SplitStatementsShape | out/stringify-type-tree.js:142 | Breaking after `; ` keeps the line shape and the brace depth. |
| PrettyPrint.NormaliseKeepsScan | out/stringify-type-tree.js:135 | Replacing ` } & { ` by a space keeps the final depth, and never introduces a negative depth. |
| PrettyPrint.LineBraces | out/stringify-type-tree.js:149-157 | A line's depth step: −1 before a line with `}`, +1 after a line with `{`. |
| PrettyPrint.PrintLineTracksDepth | out/stringify-type-tree.js:147-157 | A trimmed line prints iff its depth stays non-negative, and the next depth is the scanned depth. |
| PrettyPrint.CleanLineKeepsBraces | out/stringify-type-tree.js:147-149 | Trimming and the first `false \| true` → `boolean` replacement keep the line's braces. |
| PrettyPrint.MarginWidth | out/stringify-type-tree.js:154 | `' '.repeat(indentation).repeat(depth)` is `indentation * depth` spaces. |
| PrettyPrint.NoJointIn | out/stringify-type-tree.js:135 | Text without `&` is not changed by the normalisation. |
| PrettyPrint.BraceInLiteralFails | out/stringify-type-tree.js:143-159 | `{ a: "}"; }` throws `RangeError` for every indentation ≥ 1. |
| PrettyPrint.ClosingTwiceUnderflows | out/stringify-type-tree.js:143-159 | A `}` inside a literal followed by the closing `}` takes the depth below zero. |
| PrettyPrint.IndentClampedAgrees | out/stringify-type-tree.js:143-159 | A printer that clamps the depth at 0 agrees with the loop wherever the loop does not throw. |
| PrettyPrint.ClampedExtendsPrinter | out/stringify-type-tree.js:131-159 | Whenever the source's printer succeeds, the clamped printer gives the same text. |
| Declarations.SyntaxKindDeclaration | out/stringify-type-tree.js:85-130 | The prefix starts with the kind's keyword, and its length is keyword + name + tail. |
| Declarations.DeclarationRoundTrip | out/stringify-type-tree.js:85-130 | Parsing a built prefix recovers the kind's form and the type name. Each syntax kind maps to exactly one of `class`, `interface`, `type`, `function`, `let`, `var` or `const`. |
| Declarations.ParseDeclaration | out/stringify-type-tree.js:85-130 | A parsed prefix rebuilds the text it was parsed from. |
| Declarations.KeywordsDistinct | out/stringify-type-tree.js:89-128 | No two forms' keywords are prefixes of the same text. |
| Declarations.FormOf | out/stringify-type-tree.js:86-129 | No contract of its own: `DeclarationRoundTrip` states that its form is recovered from the built prefix. |
| Declarations.SanitizeOutput | out/stringify-type-tree.js:169-175 | The sanitised string holds no whitespace and no `;`. |
| Declarations.SanitizeDropsOneWord | out/stringify-type-tree.js:171 | At most one leading lowercase word, followed by its whitespace character, is removed. The rest is cleaned. |
| Declarations.SanitizeIdempotent | out/stringify-type-tree.js:169-175 | Sanitising twice is sanitising once. |
| Declarations.SanitizeDeclaration | out/stringify-type-tree.js:169-175 | Sanitising a declaration prefix drops exactly its keyword, leaving the cleaned name and tail. |
| Declarations.Sanitize | out/stringify-type-tree.js:169-175 | No contract of its own: `SanitizeOutput`, `SanitizeDropsOneWord`, `SanitizeIdempotent` and `SanitizeDeclaration` state its result. |
| Declarations.DropLeadingWord | out/stringify-type-tree.js:171 | No contract of its own: `SanitizeDropsOneWord` states what it removes. |
| Declarations.CleanIsClean | out/stringify-type-tree.js:172-174 | Cleaning keeps only characters of the input that are neither whitespace nor `;`. |
| Declarations.CleanKeeps | out/stringify-type-tree.js:172-174 | Text that is already clean is left unchanged. |
| Declarations.LowerRun | out/stringify-type-tree.js:171 | The maximal run of leading lowercase letters. |
| AstSearch.DescendantSearch.constructor | out/typescript-plugin/type-tree/get-ast-node.js:9-13 | The first best match is the source file's own span. |
| AstSearch.DescendantSearch.SearchDescendants | out/typescript-plugin/type-tree/get-ast-node.js:16-25 | The recursive search reassigns `bestMatch` to the fold of the candidate test over the subtree in preorder. |
| AstSearch.GetDescendantAtRange | out/typescript-plugin/type-tree/get-ast-node.js:8-26 | Returns `DescendantAtRange`. |
| AstSearch.DescendantAtRange | out/typescript-plugin/type-tree/get-ast-node.js:8-26 | No contract of its own: `ResultInTree`, `ResultWithinRoot`, `ResultIsTightest` and `NoContainingDescendant` state its result. |
| AstSearch.ResultIsTightest | out/typescript-plugin/type-tree/get-ast-node.js:8-26 | Any node of the tree that contains the range and lies within the result's span has exactly the result's span, so no tighter node exists. |
| AstSearch.FoldIsTightest | out/typescript-plugin/type-tree/get-ast-node.js:19-24 | A visited node that contains the range and lies within the final best span has that span. |
| AstSearch.Preorder | out/typescript-plugin/type-tree/get-ast-node.js:24 | The visit order starts at the node itself. |
| AstSearch.FoldPicks | out/typescript-plugin/type-tree/get-ast-node.js:19-21 | The best match is the initial one, or a visited node whose span contains the range. |
| AstSearch.FoldNarrows | out/typescript-plugin/type-tree/get-ast-node.js:20-21 | The best span only narrows. |
| AstSearch.NestedChain | out/typescript-plugin/type-tree/get-ast-node.js:20-21 | Successive best spans form a nested chain. |
| AstSearch.LaterEqualSpanWins | out/typescript-plugin/type-tree/get-ast-node.js:20-24 | A node whose span equals the final best span is the result, or is beaten by a later node with the same span. |
| AstSearch.ResultInTree | out/typescript-plugin/type-tree/get-ast-node.js:8-26 | The result is the root or a visited descendant. If not the root, its span contains the range. |
| AstSearch.ResultWithinRoot | out/typescript-plugin/type-tree/get-ast-node.js:8-26 | The result's span lies within the root's span. |
| AstSearch.NoContainingDescendant | out/typescript-plugin/type-tree/get-ast-node.js:9-15 | When no descendant contains the range, the root is returned. |
| AstSearch.FoldAppend | out/typescript-plugin/type-tree/get-ast-node.js:16-24 | Searching a concatenation is searching the two parts in turn. |
| JsonTypes.Convert | src/extension.ts:265-334 | No contract of its own: `convertJsonTypeToTypeScript`, with a missing description rendered as `any`. In dialect `AsWritten` it is the source's function; `DialectsAgree` and the lemmas below state its results. |
| JsonTypes.ConvertType | src/extension.ts:267-334 | No contract of its own: the per-kind branches, with the literal and array branches chosen by the dialect. `LiteralBreaksRenderer`, `ArrayOfUnionIsAmbiguous` and `DialectsAgree` state its results. |
| JsonTypes.ObjectLayout | src/extension.ts:270-279 | An object with properties renders as `{\n  p1;\n  p2;\n}`. |
| JsonTypes.PropertyTextAt | src/extension.ts:271-276 | Each property is `readonly? "name"?: T`, with the name quoted. |
| JsonTypes.UnionPartAt | src/extension.ts:290-301 | Object and intersection members of a union are parenthesised. |
| JsonTypes.IntersectionPartAt | src/extension.ts:303-312 | Union members of an intersection are parenthesised. |
| JsonTypes.ParameterTextAt | src/extension.ts:320-323 | Each parameter is `name?: T`. |
| JsonTypes.UnionParts | src/extension.ts:292-298 | One text per member. |
| JsonTypes.IntersectionParts | src/extension.ts:305-309 | One text per member. |
| JsonTypes.PropertyTexts | src/extension.ts:271-276 | One text per property. |
| JsonTypes.ParameterTexts | src/extension.ts:321-323 | One text per parameter. |
| JsonTypes.LiteralText | src/extension.ts:314-318 | A string literal is double-quoted in both dialects. |
| JsonTypes.LiteralAsWritten | src/extension.ts:314-318 | The literal as written is double-quoted, with only `"` escaped. |
| JsonTypes.LiteralBreaksRenderer | src/extension.ts:314-318 | As written, the string literal `a\` renders as `"a\"`, which does not read back as a literal. |
| JsonTypes.BackslashBreaksLiteral | src/extension.ts:314-318 | `a\` becomes `"a\"`, which does not read back as a literal. |
| JsonTypes.Quote | src/extension.ts:314-318 | The corrected literal is double-quoted. |
| JsonTypes.QuoteRoundTrip | src/extension.ts:314-318 | Reading the corrected literal back gives the original string. |
| JsonTypes.LiteralReadsBack | src/extension.ts:314-318 | The corrected renderer's string literals read back as their values. |
| JsonTypes.LiteralAgrees | src/extension.ts:314-318 | For strings without `\`, a line break or a tab, the literal as written equals the corrected one. |
| JsonTypes.EscapeAgrees | src/extension.ts:314-318 | On such strings, escaping only `"` is the full escaping. |
| JsonTypes.ArrayOfUnionText | src/extension.ts:286-288 | An array of `string \| number` prints as `string \| number[]` as written and as `(string \| number)[]` corrected. |
| JsonTypes.UnionWithArrayText | src/extension.ts:290-301 | The union of `string` with an array of `number` prints as `string \| number[]` in both dialects. |
| JsonTypes.PairText | src/extension.ts:290-301 | A two-member union of non-objects is the two texts joined by ` \| `. |
| JsonTypes.ArrayText | src/extension.ts:286-288 | An array prints as its element's text and `[]`; only the corrected dialect parenthesises a union, intersection or function element. |
| JsonTypes.UnionPairText | src/extension.ts:290-301 | A two-member union of non-objects prints as `x \| y`. |
| JsonTypes.LeafText | src/extension.ts:328-332 | A named `string` or `number` type prints as its name. |
| JsonTypes.StringOrNumberText | src/extension.ts:290-301 | The union of `string` and `number` prints as `string \| number`. |
| JsonTypes.ArrayOfPairText | src/extension.ts:286-288 | An array of that union prints as `string \| number[]` as written and `(string \| number)[]` corrected. |
| JsonTypes.ArrayOfUnionIsAmbiguous | src/extension.ts:286-288 | As written, array elements are not parenthesised, so `(string \| number)[]` and `string \| number[]` print the same text. |
| JsonTypes.ArrayOfUnionIsParenthesised | src/extension.ts:286-288 | Corrected, the array of a union prints as `(string \| number)[]`, and the two descriptions print different texts. |
| JsonTypes.DialectsAgree | src/extension.ts:265-334 | On every description without backslash, line-break or tab literals and without arrays of unions, intersections or functions, the source's converter and the corrected one print the same text. |
| JsonTypes.OptionAgrees | src/extension.ts:265-266 | The same for an optional description; a missing one is `any` in both. |
| JsonTypes.PartsAgree | src/extension.ts:290-312 | Union and intersection members print the same in both dialects. |
| JsonTypes.PropertiesAgree | src/extension.ts:271-276 | Properties print the same in both dialects. |
| JsonTypes.ParametersAgree | src/extension.ts:320-323 | Parameters print the same in both dialects. |
| Request.AcceptedIffMarked | out/typescript-plugin/request.js:4-6 | A request is accepted iff it is an object whose `meta` is exactly `prettify-type-info-request`. |
| Request.RejectedCases | out/typescript-plugin/request.js:4-6 | Falsy values, non-objects, objects without `meta`, and objects with any other `meta` are all rejected. |
| Request.IsPrettifyRequest | out/typescript-plugin/request.js:4-6 | No contract of its own: `AcceptedIffMarked` and `RejectedCases` state when it holds. |

## Left out

- The TypeScript checker and syntax-tree API are inputs, not code. This covers `typeToString`, `getApparentType`, `getTypeArguments`, the `isXxx` node tests and declaration modifiers.
  - The display name is the node's `displayName` field.
  - `getIndexIdentifierName` (src/typescript-plugin/type-tree/index.ts:536-554) is the index signature's `identifierName` field.
  - `hasMembers` is not part of this model.
- A checker call that throws is modelled only where the answer for a node says so (`Throws`). Exceptions from other foreign calls are not modelled.
- The `symbol?.getName() ?? typeToString(type)` fallback is not modelled, because a symbol always exists at that point.
- The module-level `typescript`, `checker` and `options` variables are passed as parameters. Their per-call reassignment is not modelled.
- The visited `Set` is a value. Each `new Set(visited)` copy is passed by value, so there is no aliasing to model.
- Parent chains are computed from the syntax tree by node id. Node ids are assumed unique; `!node.parent` is a chain of length 1.
- `maxUnionMembers`, `maxProperties` and `maxSubProperties` may be negative in the model, and `Slice` follows `Array.prototype.slice` for them. The shape lemmas (UnionShape, ObjectAccounting, ObjectPrefix) are stated only for non-negative limits.
- In `prettyPrintTypeString`, the `typeof import(...)` module-path regex (out/stringify-type-tree.js:134) and the three closing regex clean-ups (out/stringify-type-tree.js:160-163) are not modelled. `PrettyPrinted` is the text before those clean-ups.
- `String.prototype.trim` and `\s` use the whitespace set in `Common.IsWhitespace`. Other Unicode spaces are not modelled.
- `stringifyTypeTree`'s in-place filtering is modelled as the tree the caller holds afterwards (`AfterStringify`). Aliasing between parts of the tree is not modelled.
- In `convertJsonTypeToTypeScript`, `String(value)` for non-string literals is an input text, because number formatting is floating point.
- `JSON.stringify` is modelled for `"`, `\`, line feed, carriage return and tab. Other control characters and lone surrogates are not modelled.
- A non-string `kind` or `typeName` field is not modelled, and neither is a missing property or parameter `name` (`JsonProperty.name`, `JsonParameter.name`), which the source prints as `undefined` (src/extension.ts:275, src/extension.ts:322). A `null` element inside a list is not modelled either; it throws in the source.
- The editor and I/O code in src/extension.ts, src/type-provider.ts, out/typescript-plugin/index.js and src/generator.ts is not part of this model, including the regex text patches at src/extension.ts:128-150. The files under out/ compiled from those sources are covered by the src models.
- TypeTreeBuilder.VisibleProperties: the sub-list is stated as a subset with a length bound, not as an order-preserving filter. `FilterPublic` states the membership.
- TypeTreeBuilder.UnionRank, TypeTreeBuilder.UnionMemberIds, TypeTreeBuilder.TreesOf and the other builder functions state the depth, width and union limits in their own contracts. Their exact shapes are stated by the `*Shape`, `*Accounting` and `*At` lemmas.

## Findings

| source | as written | input that shows it | evidently intended | confidence | as-written member | corrected member |
|---|---|---|---|---|---|---|
| out/stringify-type-tree.js:143-159 | Every `{` and `}` on a line moves the depth, including braces inside string-literal types. A negative depth reaches `' '.repeat(...).repeat(-1)`, which throws a `RangeError`. | A property of literal type `"}"`: `{ a: "}"; }` | Copy Type produces text for every tree. The depth never makes the layout throw, and is clamped at 0. | not executed | PrettyPrint.BraceInLiteralFails, Layout.LiteralBraceBreaksLayout | PrettyPrint.PrettyPrintedClamped, PrettyPrint.ClampedExtendsPrinter |
| src/extension.ts:314-318 | A string literal escapes only `"`, so a backslash is copied raw. | The value `a\` renders as `"a\"`, an unterminated literal. | The literal reads back as the original string, as `JSON.stringify` gives. | not executed | JsonTypes.LiteralAsWritten, JsonTypes.BackslashBreaksLiteral, JsonTypes.LiteralBreaksRenderer | JsonTypes.Quote, JsonTypes.QuoteRoundTrip, JsonTypes.LiteralReadsBack, JsonTypes.DialectsAgree |
| src/extension.ts:286-288 | An array's element text is followed by `[]` with no parentheses, so `[]` binds to the last member of a union, intersection or function element. | An array of `string \| number` renders as `string \| number[]`, the text of the union of `string` with `number[]`. | Such elements are parenthesised, `(string \| number)[]`, as `stringifyTypeTree` already does for arrays (out/stringify-type-tree.js:44-50). | not executed | JsonTypes.ArrayOfUnionIsAmbiguous | JsonTypes.ArrayOfUnionIsParenthesised, JsonTypes.DialectsAgree |
