/**
 * Slide splitting for the HTML slides template: horizontal rules separate
 * the flow into slides, and the rules themselves disappear.
 */
module SlidesTransformer {
  import opened Ast

  const SLIDE := "slide"

  /** The flow without its horizontal rules, order kept. */
  function WithoutHRules(ns: seq<Node>): (r: seq<Node>)
    ensures forall i :: 0 <= i < |r| ==> !r[i].HRule?
  {
    if |ns| == 0 then []
    else WithoutHRules(ns[..|ns| - 1]) + (if ns[|ns| - 1].HRule? then [] else [ns[|ns| - 1]])
  }

  /** The slides' contents one after the other. */
  function Flatten(ss: seq<seq<Node>>): seq<Node>
  {
    if |ss| == 0 then [] else ss[0] + Flatten(ss[1..])
  }

  lemma {:induction false} FlattenAppend(a: seq<seq<Node>>, b: seq<seq<Node>>)
    ensures Flatten(a + b) == Flatten(a) + Flatten(b)
  {
    if |a| == 0 {
      assert a + b == b;
    } else {
      assert (a + b)[1..] == a[1..] + b;
      FlattenAppend(a[1..], b);
    }
  }

  /** Appending a node to the last slide appends it to the flattened flow. */
  lemma AppendToLastSlide(ss: seq<seq<Node>>, n: Node)
    requires |ss| > 0
    ensures Flatten(ss[|ss| - 1 := ss[|ss| - 1] + [n]]) == Flatten(ss) + [n]
  {
    var init := ss[..|ss| - 1];
    var last := ss[|ss| - 1];
    assert ss == init + [last];
    assert ss[|ss| - 1 := last + [n]] == init + [last + [n]];
    FlattenAppend(init, [last]);
    FlattenAppend(init, [last + [n]]);
    assert Flatten([last + [n]]) == last + [n] + Flatten([]);
    assert Flatten([last]) == last + Flatten([]);
  }

  /** The slide nodes of a list of slide contents. */
  function SlideNodes(ss: seq<seq<Node>>): (r: seq<Node>)
    ensures |r| == |ss|
    ensures forall i :: 0 <= i < |ss| ==> r[i] == Slide(ss[i])
  {
    if |ss| == 0 then [] else [Slide(ss[0])] + SlideNodes(ss[1..])
  }

  predicate IsRule(n: Node) { n.HRule? }

  /**
   * The slides of a flow: one to begin with, a new one after every
   * horizontal rule, every other node in the last one.
   */
  function SplitSlides(ns: seq<Node>): (r: seq<seq<Node>>)
    ensures |r| >= 1
  {
    if |ns| == 0 then [[]]
    else
      var init := SplitSlides(ns[..|ns| - 1]);
      var node := ns[|ns| - 1];
      if node.HRule? then init + [[]] else init[|init| - 1 := init[|init| - 1] + [node]]
  }

  /**
   * One slide per rule plus one; no slide holds a rule; the slides hold,
   * in order, exactly the nodes of the flow that are not rules.
   */
  lemma {:induction false} SplitSlidesLayout(ns: seq<Node>)
    ensures |SplitSlides(ns)| == 1 + Count(ns, IsRule)
    ensures forall k, j :: 0 <= k < |SplitSlides(ns)| && 0 <= j < |SplitSlides(ns)[k]| ==> !SplitSlides(ns)[k][j].HRule?
    ensures Flatten(SplitSlides(ns)) == WithoutHRules(ns)
  {
    if |ns| > 0 {
      var init := ns[..|ns| - 1];
      var node := ns[|ns| - 1];
      var prev := SplitSlides(init);
      SplitSlidesLayout(init);
      assert init + [node] == ns;
      CountAppend(init, [node], IsRule);
      if node.HRule? {
        FlattenAppend(prev, [[]]);
      } else {
        AppendToLastSlide(prev, node);
      }
    }
  }

  /**
   * `HtmlSlidesAstTransformer.transform`: one slide to begin with, a new slide
   * at every horizontal rule, every other node appended to the last slide.
   */
  method Transform(ast: Root) returns (r: Root, slides: seq<seq<Node>>)
    ensures r == Root(START, SlideNodes(slides))
    ensures slides == SplitSlides(ast.v)
    ensures |slides| == 1 + Count(ast.v, IsRule)
    ensures forall k, j :: 0 <= k < |slides| && 0 <= j < |slides[k]| ==> !slides[k][j].HRule?
    ensures Flatten(slides) == WithoutHRules(ast.v)
  {
    slides := [[]];
    for i := 0 to |ast.v|
      invariant slides == SplitSlides(ast.v[..i])
    {
      var node := ast.v[i];
      assert ast.v[..i + 1][..i] == ast.v[..i];
      if node.HRule? {
        slides := slides + [[]];
        continue;
      }
      slides := slides[|slides| - 1 := slides[|slides| - 1] + [node]];
    }
    assert ast.v[..|ast.v|] == ast.v;
    SplitSlidesLayout(ast.v);
    r := Root(START, SlideNodes(slides));
  }
}
