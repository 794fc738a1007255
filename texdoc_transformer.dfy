/**
 * The TeX document template's tree rewrite: the title heading and the author
 * section are taken out of the flow, since the page template prints them itself.
 */
module TexDocTransformer {
  import opened Wrappers
  import opened Text
  import opened Ast

  /** `isTitleNode`: a level-1 heading. */
  predicate IsTitleNode(n: Node)
  {
    n.Heading? && n.level == 1
  }

  /** `isAuthorHeadingNode`: a heading of level at most 2 whose lower-cased, trimmed text is the author keyword. */
  predicate IsAuthorHeadingNode(n: Node)
  {
    n.Heading? && n.level <= 2 && Trim(ToLower(n.text)) == AUTHOR_KEYWORD
  }

  /**
   * `removeTitleNode`: drops the first node when it is the title heading. The
   * first node is read unguarded, so an empty flow throws.
   */
  function RemoveTitleNode(ns: seq<Node>): (r: Result<seq<Node>>)
    ensures |ns| == 0 <==> r.Err?
    ensures |ns| > 0 && IsTitleNode(ns[0]) ==> r == Ok(ns[1..])
    ensures |ns| > 0 && !IsTitleNode(ns[0]) ==> r == Ok(ns)
  {
    if |ns| == 0 then Err("Cannot read properties of undefined (reading 't')")
    else if IsTitleNode(ns[0]) then Ok(ns[1..])
    else Ok(ns)
  }

  /** Where the flow is cut after the author heading at `i`: past the paragraph that follows it, if any. */
  function AuthorCut(ns: seq<Node>, i: nat): (k: nat)
    requires i < |ns|
    ensures i < k <= |ns|
  {
    if i + 1 < |ns| && ns[i + 1].Paragraph? then i + 2 else i + 1
  }

  /**
   * `removeAuthorNodes`: at the first author heading, cuts the flow just past
   * it, or past the paragraph right after it; everything before it goes too.
   */
  method RemoveAuthorNodes(ns: seq<Node>) returns (r: seq<Node>)
    ensures FindIndex(ns, IsAuthorHeadingNode).None? ==> r == ns
    ensures FindIndex(ns, IsAuthorHeadingNode).Some? ==>
      r == ns[AuthorCut(ns, FindIndex(ns, IsAuthorHeadingNode).value)..]
  {
    var isAuthor := IsAuthorHeadingNode;
    r := ns;
    var i := 0;
    while i < |ns|
      invariant 0 <= i <= |ns|
      invariant forall j :: 0 <= j < i ==> !isAuthor(ns[j])
    {
      if isAuthor(ns[i]) {
        FindIndexIsFirst(ns, isAuthor, i);
        var isNextAuthorContent := i + 1 < |ns| && ns[i + 1].Paragraph?;
        r := ns[if !isNextAuthorContent then i + 1 else i + 2..];
        return;
      }
      i := i + 1;
    }
  }

  /** The author step's result as a function of the flow. */
  function RemoveAuthorSpec(ns: seq<Node>): seq<Node>
  {
    var i := FindIndex(ns, IsAuthorHeadingNode);
    if i.None? then ns else ns[AuthorCut(ns, i.value)..]
  }

  /** The author step keeps a suffix of the flow: nothing is created or reordered. */
  lemma RemoveAuthorIsSuffix(ns: seq<Node>)
    ensures exists k :: 0 <= k <= |ns| && RemoveAuthorSpec(ns) == ns[k..]
  {
    var i := FindIndex(ns, IsAuthorHeadingNode);
    if i.None? {
      assert RemoveAuthorSpec(ns) == ns[0..];
    } else {
      var k := AuthorCut(ns, i.value);
      assert RemoveAuthorSpec(ns) == ns[k..];
    }
  }

  /** After the author step no author heading is left in front of the cut, and the first author heading is gone. */
  lemma RemoveAuthorDropsFirstAuthorHeading(ns: seq<Node>)
    requires FindIndex(ns, IsAuthorHeadingNode).Some?
    ensures |RemoveAuthorSpec(ns)| < |ns|
    ensures |RemoveAuthorSpec(ns)| >= |ns| - FindIndex(ns, IsAuthorHeadingNode).value - 2
  {
  }

  /** `TexDocAstTransformer.transform`: title removal, then author removal, tagged "start". */
  method Transform(ast: Root) returns (r: Result<Root>)
    ensures RemoveTitleNode(ast.v).Err? <==> r.Err?
    ensures r.Ok? ==> r.value == Root(START, RemoveAuthorSpec(RemoveTitleNode(ast.v).value))
  {
    var withoutTitle := RemoveTitleNode(ast.v);
    if withoutTitle.Err? {
      return Err(withoutTitle.error);
    }
    var withoutAuthor := RemoveAuthorNodes(withoutTitle.value);
    r := Ok(Root(START, withoutAuthor));
  }

  /** The whole rewrite as a function, for the generator that composes it. */
  function TransformSpec(ast: Root): (r: Result<Root>)
    ensures r.Err? <==> |ast.v| == 0
    ensures r.Ok? ==> r.value.t == START && |r.value.v| <= |ast.v|
  {
    var withoutTitle := RemoveTitleNode(ast.v);
    if withoutTitle.Err? then Err(withoutTitle.error)
    else Ok(Root(START, RemoveAuthorSpec(withoutTitle.value)))
  }
}
