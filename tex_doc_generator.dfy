/**
 * The generator of LaTeX articles: the base template generator with the
 * TeX-document rewrite after conditional content, and a document
 * information holding the title and the author.
 */
module TexDocGenerator {
  import opened Wrappers
  import opened Ast
  import opened Rendering
  import DirectFlowGenerator
  import ConditionalTransformer
  import TexDocTransformer
  import TufteGenerator

  /** `transformAst`: conditional content, then the title and author removal. */
  function TransformAst(ast: Root): (r: Result<Root>)
    ensures r.Err? <==> |ConditionalTransformer.Run(ast.v).1| == 0
    ensures r.Ok? ==> r.value.t == START && |r.value.v| <= |ConditionalTransformer.Run(ast.v).1|
  {
    var conditional := DirectFlowGenerator.TransformConditional(ast);
    TexDocTransformer.TransformSpec(conditional.value)
  }

  /** `extractSemanticInfo`: the base information plus the author when it is non-empty. */
  function ExtractSemanticInfo(ns: seq<Node>): (r: DocumentInfo)
    ensures r.title == DirectFlowGenerator.ExtractSemanticInfo(ns).title
    ensures r.author == TufteGenerator.AuthorField(ns)
    ensures r.abstractText.None? && r.language.None?
  {
    DirectFlowGenerator.ExtractSemanticInfo(ns).(author := TufteGenerator.AuthorField(ns))
  }

  /** The article information is the Tufte information without its abstract. */
  lemma TufteWithoutAbstract(ns: seq<Node>)
    ensures ExtractSemanticInfo(ns) == TufteGenerator.ExtractSemanticInfo(ns).(abstractText := None)
  {
  }

  /** `extractSemanticInfo` as written: the author from the helper as written. */
  function ExtractSemanticInfoAsWritten(ns: seq<Node>): (r: DocumentInfo)
    ensures r.title == DirectFlowGenerator.ExtractSemanticInfo(ns).title
    ensures r.author == TufteGenerator.AuthorFieldAsWritten(ns)
    ensures r.abstractText.None? && r.language.None?
  {
    DirectFlowGenerator.ExtractSemanticInfo(ns).(author := TufteGenerator.AuthorFieldAsWritten(ns))
  }

  /**
   * As written too, the article information is the Tufte information
   * without its abstract, and it is the corrected one when the title heading
   * comes first.
   */
  lemma AsWrittenInfoAgreesWhenTitleFirst(ns: seq<Node>)
    ensures ExtractSemanticInfoAsWritten(ns) == TufteGenerator.ExtractSemanticInfoAsWritten(ns).(abstractText := None)
    ensures |ns| > 0 && IsLevelOneHeading(ns[0]) ==> ExtractSemanticInfoAsWritten(ns) == ExtractSemanticInfo(ns)
  {
    if |ns| > 0 && IsLevelOneHeading(ns[0]) {
      TufteGenerator.AsWrittenInfoAgreesWhenTitleFirst(ns);
    }
  }

  /** The rewrite composes the two transformers in that order. */
  lemma TransformComposes(ast: Root)
    ensures TransformAst(ast) == TexDocTransformer.TransformSpec(Root(START, ConditionalTransformer.Run(ast.v).1))
  {
  }

  /** `new TexDocGenerator(...)`: a template generator that builds a directives controller. */
  method New<S>(env: DirectFlowGenerator.Env<S>, world: S) returns (g: DirectFlowGenerator.DirectFlowGenerator<S>)
    ensures fresh(g)
    ensures g.dialect == DirectFlowGenerator.TEMPLATE_WITH_DIRECTIVES && g.env == env
    ensures g.extractSemanticInfo == ExtractSemanticInfo && g.transformAst == TransformAst
    ensures g.world == world && g.controllers == 0 && g.docInfo.None?
  {
    g := new DirectFlowGenerator.DirectFlowGenerator(DirectFlowGenerator.TEMPLATE_WITH_DIRECTIVES, env,
      ExtractSemanticInfo, TransformAst, world);
  }
}
