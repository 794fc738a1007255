/**
 * The TeX Tufte generator: the Tufte generator that also renders theorem
 * environments, folded out of the flow after conditional content. Its
 * imported-document twin has the same dispatch over the base generator.
 */
module TexTufteGenerator {
  import opened Wrappers
  import opened Ast
  import opened Rendering
  import DirectFlowGenerator
  import ConditionalTransformer
  import EnvironTransformer
  import MathEnvironTex
  import TufteGenerator

  /** `transformAst`: conditional content, then the theorem environments folded. */
  function TransformAst(ast: Root): (r: Result<Root>)
    ensures r.Ok? && r.value.t == START
    ensures r.value.v == EnvironTransformer.Fold(ConditionalTransformer.Run(ast.v).1)
  {
    var conditional := DirectFlowGenerator.TransformConditional(ast);
    Ok(Root(START, EnvironTransformer.Fold(conditional.value.v)))
  }

  /** The rewrite leaves two nodes fewer per theorem environment in the visible flow. */
  lemma TransformLength(ast: Root)
    ensures var visible := ConditionalTransformer.Run(ast.v).1;
      |TransformAst(ast).value.v| == |visible| - 2 * EnvironTransformer.TheoremCount(visible)
  {
    EnvironTransformer.FoldLength(ConditionalTransformer.Run(ast.v).1);
  }

  /** A theorem node renders through the theorem writer, with no renderer call. */
  lemma TheoremDispatch<S>(env: DirectFlowGenerator.Env<S>, st: DirectFlowGenerator.GenState<S>,
                           title: string, statement: string, proof: Option<string>)
    ensures DirectFlowGenerator.RenderNode(DirectFlowGenerator.TEMPLATE_WITH_THEOREMS, env, st, Theorem(title, statement, proof))
      == Done(st, MathEnvironTex.WriteTheorem(title, statement, proof))
    ensures DirectFlowGenerator.RenderNode(DirectFlowGenerator.TEMPLATE_WITH_DIRECTIVES, env, st, Theorem(title, statement, proof)).Threw?
  {
  }

  /** Paragraph rendering does not depend on whether theorems are rendered. */
  lemma {:induction false} ElementsIgnoreTheorems<S>(d: DirectFlowGenerator.Dialect, env: DirectFlowGenerator.Env<S>,
                                                     st: DirectFlowGenerator.GenState<S>, es: seq<Element>)
    ensures DirectFlowGenerator.Elements(d, env, st, es) == DirectFlowGenerator.Elements(d.(theorems := !d.theorems), env, st, es)
    decreases |es|
  {
    if |es| > 0 {
      ElementsIgnoreTheorems(d, env, st, es[..|es| - 1]);
      match DirectFlowGenerator.Elements(d, env, st, es[..|es| - 1])
      case Threw(m) =>
      case Done(st1, acc) =>
        assert DirectFlowGenerator.RenderElement(d, env, st1, es[|es| - 1])
          == DirectFlowGenerator.RenderElement(d.(theorems := !d.theorems), env, st1, es[|es| - 1]);
    }
  }

  /** Every other node falls back to the base dispatch. */
  lemma FallBackToBase<S>(env: DirectFlowGenerator.Env<S>, st: DirectFlowGenerator.GenState<S>, n: Node)
    requires !n.Theorem?
    ensures DirectFlowGenerator.RenderNode(DirectFlowGenerator.TEMPLATE_WITH_THEOREMS, env, st, n)
      == DirectFlowGenerator.RenderNode(DirectFlowGenerator.TEMPLATE_WITH_DIRECTIVES, env, st, n)
  {
    if n.Paragraph? {
      ElementsIgnoreTheorems(DirectFlowGenerator.TEMPLATE_WITH_THEOREMS, env, st, n.elements);
    }
  }

  /**
   * `new TexTufteGenerator(...)`: the Tufte information, the folding
   * rewrite, theorems and a directives controller. The evaluator reaches the
   * base generator through the corrected Tufte constructor.
   */
  method New<S>(env: DirectFlowGenerator.Env<S>, world: S) returns (g: DirectFlowGenerator.DirectFlowGenerator<S>)
    ensures fresh(g)
    ensures g.dialect == DirectFlowGenerator.TEMPLATE_WITH_THEOREMS
    ensures g.env == TufteGenerator.EnvFor(env, TufteGenerator.Construct(TufteGenerator.SUBCLASS_ARGS))
    ensures g.env == env
    ensures g.extractSemanticInfo == TufteGenerator.ExtractSemanticInfo && g.transformAst == TransformAst
    ensures g.world == world && g.controllers == 0 && g.docInfo.None?
  {
    var bound := TufteGenerator.EnvFor(env, TufteGenerator.Construct(TufteGenerator.SUBCLASS_ARGS));
    g := new DirectFlowGenerator.DirectFlowGenerator(DirectFlowGenerator.TEMPLATE_WITH_THEOREMS, bound,
      TufteGenerator.ExtractSemanticInfo, TransformAst, world);
  }

  /**
   * The dialect the imported-document generator has as written: the theorem
   * dispatch, but the base class's `createDirectivesController`, which
   * throws "Not implemented".
   */
  const IMPORTED_AS_WRITTEN := DirectFlowGenerator.Dialect(DirectFlowGenerator.ThrowsNotImplemented, true, false, true)

  /**
   * The imported-document generator as written: the theorem dispatch over
   * the base generator, with the base information, conditional content only,
   * and no controller of its own.
   */
  method NewImportedAsWritten<S>(env: DirectFlowGenerator.Env<S>, world: S) returns (g: DirectFlowGenerator.DirectFlowGenerator<S>)
    ensures fresh(g)
    ensures g.dialect == IMPORTED_AS_WRITTEN && g.env == env
    ensures g.extractSemanticInfo == DirectFlowGenerator.ExtractSemanticInfo
    ensures g.transformAst == DirectFlowGenerator.TransformConditional
    ensures g.world == world && g.controllers == 0 && g.docInfo.None?
  {
    g := new DirectFlowGenerator.DirectFlowGenerator(IMPORTED_AS_WRITTEN, env,
      DirectFlowGenerator.ExtractSemanticInfo, DirectFlowGenerator.TransformConditional, world);
  }

  /**
   * As written, the imported generator never finishes a document: reading
   * the language at the start node asks for the controller, which throws
   * "Not implemented" once the flow itself has rendered.
   */
  lemma ImportedAsWrittenCannotFinish<S>(env: DirectFlowGenerator.Env<S>, st: DirectFlowGenerator.GenState<S>,
                                         ns: seq<Node>, info: DocumentInfo)
    requires st.controllers == 0
    ensures DirectFlowGenerator.Start(IMPORTED_AS_WRITTEN, env, st, ns, info).Threw?
    ensures DirectFlowGenerator.Flow(IMPORTED_AS_WRITTEN, env, st, ns).Done? ==>
      DirectFlowGenerator.Start(IMPORTED_AS_WRITTEN, env, st, ns, info) == Threw(DirectFlowGenerator.NOT_IMPLEMENTED)
  {
    DirectFlowGenerator.ControllerCreatedOnce(IMPORTED_AS_WRITTEN, env, st, ns);
  }

  /**
   * The imported-document generator as its TeX article twin has it: the
   * theorem dispatch and a directives controller of its own, with the base
   * information and conditional content only.
   */
  method NewImported<S>(env: DirectFlowGenerator.Env<S>, world: S) returns (g: DirectFlowGenerator.DirectFlowGenerator<S>)
    ensures fresh(g)
    ensures g.dialect == DirectFlowGenerator.TEMPLATE_WITH_THEOREMS && g.env == env
    ensures g.extractSemanticInfo == DirectFlowGenerator.ExtractSemanticInfo
    ensures g.transformAst == DirectFlowGenerator.TransformConditional
    ensures g.world == world && g.controllers == 0 && g.docInfo.None?
  {
    g := new DirectFlowGenerator.DirectFlowGenerator(DirectFlowGenerator.TEMPLATE_WITH_THEOREMS, env,
      DirectFlowGenerator.ExtractSemanticInfo, DirectFlowGenerator.TransformConditional, world);
  }

  /**
   * With its own controller the imported generator gets past the start
   * node: once the flow has rendered, it finishes exactly when writing the
   * root does, and the information carries the language read then.
   */
  lemma ImportedReadsLanguage<S>(env: DirectFlowGenerator.Env<S>, st: DirectFlowGenerator.GenState<S>,
                                 ns: seq<Node>, info: DocumentInfo)
    ensures var f := DirectFlowGenerator.Flow(DirectFlowGenerator.TEMPLATE_WITH_THEOREMS, env, st, ns);
      var r := DirectFlowGenerator.Start(DirectFlowGenerator.TEMPLATE_WITH_THEOREMS, env, st, ns, info);
      f.Done? ==>
        && (r.Done? <==> DirectFlowGenerator.Render(env, f.state.(controllers := 1),
                           WriteRoot(f.value, Some(info.(language := env.lang(f.state.world))))).Done?)
        && (r.Done? ==> r.value.0 == info.(language := env.lang(f.state.world)))
  {
  }
}
