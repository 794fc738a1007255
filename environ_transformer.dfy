/**
 * Environment folding: a level-1 heading carrying a truthy `theorem`
 * extension clause, followed by two paragraphs, becomes one theorem node
 * whose statement and proof are the texts of the two paragraphs.
 */
module EnvironTransformer {
  import opened Wrappers
  import opened Text
  import opened Ast
  import Extensions

  /** The `theorem` clause of a heading's extension, read through the extension parser. */
  function TheoremClause(ext: seq<ExtClause>): Option<string>
  {
    Extensions.ParseSpec(Extensions.Stringify(Some(ext))).result.theorem
  }

  /** A heading that asks to be a theorem: it has an extension with a truthy `theorem` clause. */
  predicate HasTheoremClause(n: Node)
  {
    n.Heading? && n.ext.Some? && Extensions.Truthy(TheoremClause(n.ext.value))
  }

  /** `isTheoremEnvironmentNode`: the slice starts with a theorem heading of level 1 and two paragraphs. */
  predicate IsTheoremEnvironment(slice: seq<Node>)
    requires |slice| >= 1
  {
    HasTheoremClause(slice[0]) && |slice| >= 3
    && slice[0].level == 1 && slice[1].Paragraph? && slice[2].Paragraph?
  }

  /** The text of a paragraph: its element values joined together. */
  function ParagraphText(p: Node): string
    requires p.Paragraph?
  {
    Concat(ElementValues(p.elements))
  }

  /** `handleTheoremEnvironmentNode`: the theorem node and how many nodes it consumes. */
  function HandleTheorem(slice: seq<Node>): (r: (Node, nat))
    requires |slice| >= 1 && IsTheoremEnvironment(slice)
    ensures r.1 == 3 && r.0.Theorem?
    ensures r.0.name == slice[0].text
    ensures r.0.statement == ParagraphText(slice[1])
    ensures r.0.proof == Some(ParagraphText(slice[2]))
  {
    (Theorem(slice[0].text, ParagraphText(slice[1]), Some(ParagraphText(slice[2]))), 3)
  }

  /** The flow after folding every theorem environment, scanning from the front. */
  function Fold(ns: seq<Node>): seq<Node>
    decreases |ns|
  {
    if |ns| == 0 then []
    else if IsTheoremEnvironment(ns) then
      var h := HandleTheorem(ns);
      [h.0] + Fold(ns[h.1..])
    else [ns[0]] + Fold(ns[1..])
  }

  /**
   * One iteration of the transform loop at index `i`: the node to push and
   * how far the index advances.
   */
  method NextComponent(ns: seq<Node>, i: nat) returns (node: Node, skip: nat)
    requires i < |ns|
    ensures 1 <= skip && i + skip <= |ns|
    ensures Fold(ns[i..]) == [node] + Fold(ns[i + skip..])
  {
    var slice := ns[i..];
    FoldStep(slice);
    if IsTheoremEnvironment(slice) {
      var h := HandleTheorem(slice);
      assert slice[h.1..] == ns[i + h.1..];
      node, skip := h.0, h.1;
    } else {
      assert slice[1..] == ns[i + 1..];
      node, skip := ns[i], 1;
    }
  }

  /** `EnvironmentAstTransformer.transform`: the index advances by the skip of each environment, or by 1. */
  method Transform(ast: Root) returns (r: Root)
    ensures r == Root(START, Fold(ast.v))
  {
    var newComponents: seq<Node> := [];
    var i := 0;
    assert ast.v[0..] == ast.v;
    while i < |ast.v|
      invariant 0 <= i <= |ast.v|
      invariant newComponents + Fold(ast.v[i..]) == Fold(ast.v)
      decreases |ast.v| - i
    {
      var node, skip := NextComponent(ast.v, i);
      newComponents := newComponents + [node];
      i := i + skip;
    }
    assert ast.v[|ast.v|..] == [];
    r := Root(START, newComponents);
  }

  lemma FoldStep(ns: seq<Node>)
    requires |ns| > 0
    ensures IsTheoremEnvironment(ns) ==> Fold(ns) == [HandleTheorem(ns).0] + Fold(ns[3..])
    ensures !IsTheoremEnvironment(ns) ==> Fold(ns) == [ns[0]] + Fold(ns[1..])
  {
  }

  /** The number of theorem environments the fold finds. */
  function TheoremCount(ns: seq<Node>): nat
    decreases |ns|
  {
    if |ns| == 0 then 0
    else if IsTheoremEnvironment(ns) then 1 + TheoremCount(ns[3..])
    else TheoremCount(ns[1..])
  }

  /** Each environment turns 3 nodes into 1. */
  lemma {:induction false} FoldLength(ns: seq<Node>)
    ensures |Fold(ns)| == |ns| - 2 * TheoremCount(ns)
    ensures 3 * TheoremCount(ns) <= |ns|
    decreases |ns|
  {
    if |ns| > 0 {
      if IsTheoremEnvironment(ns) {
        FoldLength(ns[3..]);
      } else {
        FoldLength(ns[1..]);
      }
    }
  }

  /** A flow with no heading asking to be a theorem is copied unchanged. */
  lemma {:induction false} FoldWithoutTheoremsIsIdentity(ns: seq<Node>)
    requires forall i :: 0 <= i < |ns| ==> !HasTheoremClause(ns[i])
    ensures Fold(ns) == ns
    decreases |ns|
  {
    if |ns| > 0 {
      FoldWithoutTheoremsIsIdentity(ns[1..]);
      assert [ns[0]] + ns[1..] == ns;
    }
  }

  /** The folded flow keeps, in order, every node outside the environments it folds. */
  lemma {:induction false} FoldOfAppend(a: seq<Node>, b: seq<Node>)
    requires forall i :: 0 <= i < |a| ==> !HasTheoremClause(a[i])
    ensures Fold(a + b) == a + Fold(b)
    decreases |a|
  {
    if |a| > 0 {
      var ab := a + b;
      assert ab[0] == a[0] && !HasTheoremClause(ab[0]);
      FoldStep(ab);
      assert ab[1..] == a[1..] + b;
      FoldOfAppend(a[1..], b);
      assert [a[0]] + a[1..] == a;
    } else {
      assert a + b == b;
    }
  }

  /** An empty flow folds to an empty flow. */
  lemma EmptyInput()
    ensures Fold([]) == []
  {
  }
}
