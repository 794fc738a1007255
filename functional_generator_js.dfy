/**
 * The JavaScript twin of the functional generator. It has the same checks,
 * the same in-order concatenation and the same root writer call, but its
 * dispatch knows only headings and paragraphs: it has no code block case at
 * all, so it is the functional generator with no code block type.
 */
module FunctionalGeneratorJs {
  import opened Wrappers
  import FG = FunctionalGenerator

  /** `generate`: the checks, then the flow dispatched without a code block case. */
  function Generate(ast: Option<FG.Tree>, tpl: Option<FG.Template>): Result<string>
  {
    FG.Generate(None, ast, tpl)
  }

  /** Only headings and paragraphs are dispatched; every other type throws the unrecognised-type error. */
  lemma DispatchHeadingAndParagraphOnly(t: string)
    ensures FG.Dispatch(None, t).Ok? <==> t == FG.HEADING || t == FG.PARAGRAPH
    ensures FG.Dispatch(None, t).Err? ==> FG.Dispatch(None, t).error == FG.UnrecognizedNode(t)
  {
  }

  /** A code block ends the generation with the unrecognised-type error, whatever the template. */
  lemma CodeblockUnrecognized(tpl: FG.Template, text: string)
    ensures Generate(Some(FG.Tree(FG.START, [FG.CodeblockComponent(text)])), Some(tpl))
      == Err(FG.UnrecognizedNode("codeblock"))
  {
    FG.UnrecognizedComponent(None, tpl, FG.CodeblockComponent(text));
  }

  /** Components of any type but the code block type are written alike with and without the code block case. */
  lemma {:induction false} FlowAgreesWithoutCodeblocks(tpl: FG.Template, cs: seq<FG.Component>)
    requires forall i :: 0 <= i < |cs| ==> FG.Tag(cs[i]) != FG.CODEBLOCK.value
    ensures FG.Flow(None, tpl, cs) == FG.Flow(FG.CODEBLOCK, tpl, cs)
  {
    if |cs| > 0 {
      FlowAgreesWithoutCodeblocks(tpl, cs[1..]);
      assert FG.Dispatch(None, FG.Tag(cs[0])) == FG.Dispatch(FG.CODEBLOCK, FG.Tag(cs[0]));
    }
  }

  /**
   * On a tree without code blocks the twin generates exactly what the
   * generator with the code block case generates: output or error.
   */
  lemma AgreesWithoutCodeblocks(ast: Option<FG.Tree>, tpl: Option<FG.Template>)
    requires ast.Some? ==> forall i :: 0 <= i < |ast.value.v| ==> FG.Tag(ast.value.v[i]) != FG.CODEBLOCK.value
    ensures Generate(ast, tpl) == FG.Generate(FG.CODEBLOCK, ast, tpl)
  {
    if ast.Some? && tpl.Some? {
      FlowAgreesWithoutCodeblocks(tpl.value, ast.value.v);
    }
  }
}
