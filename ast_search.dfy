/** `getDescendantAtRange`: the tightest syntax node whose span contains a range.

    The source keeps its best match in a variable of the enclosing call that a recursive
    traversal reassigns; here that variable is the field of a `DescendantSearch` object. */
module AstSearch {
  import opened TsApi

  /** A node with the span it was matched under. */
  datatype Match = Match(node: SyntaxNode, start: int, end: int)

  /** The match a node gives, its own span. */
  function MatchOf(n: SyntaxNode): (m: Match)
    ensures m.node == n && m.start == n.start && m.end == n.end
  {
    Match(n, n.start, n.end)
  }

  /** The span of `n` covers `range[0] .. range[1]`. */
  predicate Contains(n: SyntaxNode, range: (int, int))
  {
    n.start <= range.0 && n.end >= range.1
  }

  /** The span of `n` lies within the span of `m`. */
  predicate Within(n: SyntaxNode, m: Match)
  {
    n.start >= m.start && n.end <= m.end
  }

  /** A node followed by its descendants, children in order: the order `forEachChild` visits. */
  function Preorder(n: SyntaxNode): (r: seq<SyntaxNode>)
    ensures |r| >= 1 && r[0] == n
    decreases n, 1
  {
    [n] + PreorderAll(n.children)
  }

  function PreorderAll(ns: seq<SyntaxNode>): seq<SyntaxNode>
    decreases ns, 0
  {
    if ns == [] then [] else PreorderAll(ns[..|ns| - 1]) + Preorder(ns[|ns| - 1])
  }

  /** One visit: the node replaces the best match when it contains the range and lies within
      the best match's span. */
  function Consider(best: Match, n: SyntaxNode, range: (int, int)): Match
  {
    if Contains(n, range) && Within(n, best) then MatchOf(n) else best
  }

  /** The best match after visiting `nodes` in order. */
  function Fold(best: Match, nodes: seq<SyntaxNode>, range: (int, int)): Match
  {
    if nodes == [] then best else Consider(Fold(best, nodes[..|nodes| - 1], range), nodes[|nodes| - 1], range)
  }

  /** `getDescendantAtRange(typescript, sourceFile, range)`: the root's own match, then every
      node in preorder, the root included. */
  function DescendantAtRange(root: SyntaxNode, range: (int, int)): SyntaxNode
  {
    Fold(MatchOf(root), Preorder(root), range).node
  }

  class DescendantSearch {
    var bestMatch: Match
    const range: (int, int)

    /** The search starts from the source file's own span. */
    constructor (sourceFile: SyntaxNode, range: (int, int))
      ensures bestMatch == MatchOf(sourceFile) && this.range == range
    {
      bestMatch := MatchOf(sourceFile);
      this.range := range;
    }

    /** `searchDescendants(node)`: visits the node, then each child's subtree in turn. */
    method SearchDescendants(node: SyntaxNode)
      modifies this
      ensures bestMatch == Fold(old(bestMatch), Preorder(node), range)
      decreases node
    {
      var start := node.start;
      var end := node.end;
      if start <= range.0 && end >= range.1 {
        if start >= bestMatch.start && end <= bestMatch.end {
          bestMatch := Match(node, start, end);
        }
      }
      ghost var first := bestMatch;
      assert first == Fold(old(bestMatch), [node], range);
      var i := 0;
      while i < |node.children|
        invariant 0 <= i <= |node.children|
        invariant bestMatch == Fold(first, PreorderAll(node.children[..i]), range)
      {
        SearchDescendants(node.children[i]);
        assert node.children[..i + 1][..i] == node.children[..i];
        FoldAppend(first, PreorderAll(node.children[..i]), Preorder(node.children[i]), range);
        i := i + 1;
      }
      assert node.children[..i] == node.children;
      FoldAppend(old(bestMatch), [node], PreorderAll(node.children), range);
    }
  }

  /** The source's top-level call. */
  method GetDescendantAtRange(sourceFile: SyntaxNode, range: (int, int)) returns (r: SyntaxNode)
    ensures r == DescendantAtRange(sourceFile, range)
  {
    var search := new DescendantSearch(sourceFile, range);
    search.SearchDescendants(sourceFile);
    r := search.bestMatch.node;
  }

  // ---------------------------------------------------------------------------------------
  // Properties of the search

  lemma {:induction false} FoldAppend(best: Match, xs: seq<SyntaxNode>, ys: seq<SyntaxNode>, range: (int, int))
    ensures Fold(best, xs + ys, range) == Fold(Fold(best, xs, range), ys, range)
    decreases |ys|
  {
    if ys == [] {
      assert xs + ys == xs;
    } else {
      assert (xs + ys)[..|xs + ys| - 1] == xs + ys[..|ys| - 1];
      FoldAppend(best, xs, ys[..|ys| - 1], range);
    }
  }

  /** The match found is the starting match or the match of a visited node that contains the
      range; either way its recorded span is its node's span when the start's was. */
  lemma {:induction false} FoldPicks(best: Match, nodes: seq<SyntaxNode>, range: (int, int))
    ensures var r := Fold(best, nodes, range);
            r == best || (r.node in nodes && r == MatchOf(r.node) && Contains(r.node, range))
  {
    if nodes != [] {
      FoldPicks(best, nodes[..|nodes| - 1], range);
    }
  }

  /** The best span only narrows: after any prefix of the visits, the span is within the one
      before it. */
  lemma {:induction false} FoldNarrows(best: Match, nodes: seq<SyntaxNode>, range: (int, int))
    ensures Fold(best, nodes, range).start >= best.start
    ensures Fold(best, nodes, range).end <= best.end
  {
    if nodes != [] {
      FoldNarrows(best, nodes[..|nodes| - 1], range);
    }
  }

  /** The successive best matches form a nested chain. */
  lemma NestedChain(best: Match, nodes: seq<SyntaxNode>, range: (int, int), i: nat, j: nat)
    requires i <= j <= |nodes|
    ensures Fold(best, nodes[..j], range).start >= Fold(best, nodes[..i], range).start
    ensures Fold(best, nodes[..j], range).end <= Fold(best, nodes[..i], range).end
  {
    assert nodes[..j] == nodes[..i] + nodes[i..j];
    FoldAppend(best, nodes[..i], nodes[i..j], range);
    FoldNarrows(Fold(best, nodes[..i], range), nodes[i..j], range);
  }

  /** Ties go to the later node: a node that contains the range and has the final match's span
      is either the node found or was visited before it. */
  lemma LaterEqualSpanWins(best: Match, nodes: seq<SyntaxNode>, range: (int, int), j: nat)
    requires j < |nodes| && Contains(nodes[j], range)
    requires nodes[j].start == Fold(best, nodes, range).start
    requires nodes[j].end == Fold(best, nodes, range).end
    ensures exists k :: j <= k < |nodes| && Fold(best, nodes, range) == MatchOf(nodes[k])
  {
    var r := Fold(best, nodes, range);
    var c := Fold(best, nodes[..j], range);
    NestedChain(best, nodes, range, j, |nodes|);
    assert nodes[..|nodes|] == nodes;
    assert nodes[..j + 1][..j] == nodes[..j];
    assert Fold(best, nodes[..j + 1], range) == MatchOf(nodes[j]);
    assert nodes == nodes[..j + 1] + nodes[j + 1..];
    FoldAppend(best, nodes[..j + 1], nodes[j + 1..], range);
    FoldPicks(MatchOf(nodes[j]), nodes[j + 1..], range);
    if r != MatchOf(nodes[j]) {
      var k :| j + 1 <= k < |nodes| && nodes[k] == r.node;
      assert r == MatchOf(nodes[k]);
    }
  }

  /** No visited node that contains the range lies strictly inside the final match: one whose
      span lies within it has exactly its span. */
  lemma FoldIsTightest(best: Match, nodes: seq<SyntaxNode>, range: (int, int), j: nat)
    requires j < |nodes| && Contains(nodes[j], range)
    requires Within(nodes[j], Fold(best, nodes, range))
    ensures nodes[j].start == Fold(best, nodes, range).start
    ensures nodes[j].end == Fold(best, nodes, range).end
  {
    assert nodes[..|nodes|] == nodes;
    NestedChain(best, nodes, range, j, |nodes|);
    assert nodes[..j + 1][..j] == nodes[..j];
    assert Fold(best, nodes[..j + 1], range) == MatchOf(nodes[j]);
    NestedChain(best, nodes, range, j + 1, |nodes|);
  }

  /** The result is the tightest node around the range: any node of the tree that contains the
      range and lies within the result's span has the result's span. */
  lemma ResultIsTightest(root: SyntaxNode, range: (int, int), z: SyntaxNode)
    requires z in Preorder(root) && Contains(z, range)
    requires Within(z, MatchOf(DescendantAtRange(root, range)))
    ensures z.start == DescendantAtRange(root, range).start
    ensures z.end == DescendantAtRange(root, range).end
  {
    var nodes := Preorder(root);
    FoldPicks(MatchOf(root), nodes, range);
    var j :| 0 <= j < |nodes| && nodes[j] == z;
    FoldIsTightest(MatchOf(root), nodes, range, j);
  }

  /** The result is the root or a node of its tree, and when it is not the root's own match it
      contains the range. */
  lemma ResultInTree(root: SyntaxNode, range: (int, int))
    ensures DescendantAtRange(root, range) in Preorder(root)
    ensures var r := DescendantAtRange(root, range);
            r == root || Contains(r, range)
  {
    FoldPicks(MatchOf(root), Preorder(root), range);
  }

  /** The result's span lies within the root's. */
  lemma ResultWithinRoot(root: SyntaxNode, range: (int, int))
    ensures Within(DescendantAtRange(root, range), MatchOf(root))
  {
    FoldPicks(MatchOf(root), Preorder(root), range);
    FoldNarrows(MatchOf(root), Preorder(root), range);
  }

  lemma {:induction false} FoldKeeps(best: Match, nodes: seq<SyntaxNode>, range: (int, int))
    requires forall i :: 0 <= i < |nodes| ==> !Contains(nodes[i], range)
    ensures Fold(best, nodes, range) == best
  {
    if nodes != [] {
      FoldKeeps(best, nodes[..|nodes| - 1], range);
    }
  }

  /** When no descendant's span contains the range, the root is returned. */
  lemma NoContainingDescendant(root: SyntaxNode, range: (int, int))
    requires forall i :: 0 <= i < |PreorderAll(root.children)| ==> !Contains(PreorderAll(root.children)[i], range)
    ensures DescendantAtRange(root, range) == root
  {
    FoldAppend(MatchOf(root), [root], PreorderAll(root.children), range);
    FoldKeeps(Fold(MatchOf(root), [root], range), PreorderAll(root.children), range);
  }
}
