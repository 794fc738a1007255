/**
 * The first directly flowing generator, the base of the older HTML and LaTeX
 * generators. Its rendering of nodes is the `OLDER` dialect of
 * `DirectFlowGenerator`; it differs from the template generator in its
 * `generate`, which neither transforms the tree nor writes the output, and in
 * its `createDirectivesController`, which returns `undefined` and is never
 * overridden by the generators built on it. `generateStart` then reads the
 * language of that missing controller.
 */
module DirectFlowGeneratorOld {
  import opened Wrappers
  import opened Ast
  import opened Rendering
  import DFG = DirectFlowGenerator

  /** The result of `generateStart`, without the information handed to the root writer. */
  function Output<S>(s: Step<DFG.GenState<S>, (DocumentInfo, string)>): Step<DFG.GenState<S>, string>
  {
    match s
    case Threw(m) => Threw(m)
    case Done(st, v) => Done(st, v.1)
  }

  /** `generate` as written: the check, then `generateStart` on the tree itself. */
  function GenerateAsWritten<S>(env: DFG.Env<S>, st: DFG.GenState<S>, ast: Root): Step<DFG.GenState<S>, string>
  {
    if !DFG.CheckAst(ast) then Threw(DFG.MALFORMED_AST)
    else Output(DFG.Start(DFG.OLDER, env, st, ast.v, DFG.ExtractSemanticInfo(ast.v)))
  }

  /**
   * No controller is ever created, so reading its language throws once the
   * flow is rendered: no document is ever generated, and every tree whose
   * flow renders ends in the same error.
   */
  lemma {:induction false} AsWrittenNeverGenerates<S>(env: DFG.Env<S>, st: DFG.GenState<S>, ast: Root)
    requires st.controllers == 0
    ensures GenerateAsWritten(env, st, ast).Threw?
    ensures DFG.CheckAst(ast) && DFG.Flow(DFG.OLDER, env, st, ast.v).Done? ==>
      GenerateAsWritten(env, st, ast) == Threw(UndefinedRead("lang"))
  {
    DFG.ControllerCreatedOnce(DFG.OLDER, env, st, ast.v);
  }

  /**
   * `generateStart` with the language read through the missing controller
   * as absent: the flow, then the root writer with the information of the
   * tree and no language.
   */
  function StartCorrected<S>(env: DFG.Env<S>, st: DFG.GenState<S>, ns: seq<Node>): Step<DFG.GenState<S>, string>
  {
    match DFG.Flow(DFG.OLDER, env, st, ns)
    case Threw(m) => Threw(m)
    case Done(st1, flow) =>
      DFG.Render(env, st1, WriteRoot(flow, Some(DFG.ExtractSemanticInfo(ns).(language := None))))
  }

  function GenerateCorrected<S>(env: DFG.Env<S>, st: DFG.GenState<S>, ast: Root): Step<DFG.GenState<S>, string>
  {
    if !DFG.CheckAst(ast) then Threw(DFG.MALFORMED_AST)
    else StartCorrected(env, st, ast.v)
  }

  /**
   * The corrected generator fails exactly where the one as written fails
   * before the language is read, with the same error; once the flow renders
   * it writes the root with the title of the flow.
   */
  lemma CorrectedAgreesBeforeLanguage<S>(env: DFG.Env<S>, st: DFG.GenState<S>, ast: Root)
    requires st.controllers == 0
    ensures !DFG.CheckAst(ast) || DFG.Flow(DFG.OLDER, env, st, ast.v).Threw? ==>
      GenerateCorrected(env, st, ast) == GenerateAsWritten(env, st, ast)
    ensures DFG.CheckAst(ast) && DFG.Flow(DFG.OLDER, env, st, ast.v).Done? ==>
      GenerateCorrected(env, st, ast)
        == DFG.Render(env, DFG.Flow(DFG.OLDER, env, st, ast.v).state,
             WriteRoot(DFG.Flow(DFG.OLDER, env, st, ast.v).value,
               Some(DocumentInfo(Some(DFG.Title(ast.v)), None, None, None))))
  {
  }

  /**
   * The generator class run in the older dialect takes the same course: its
   * `generate` never reaches the output writer, which the one as written
   * does not call.
   */
  lemma OlderClassNeverGenerates<S>(env: DFG.Env<S>, extract: seq<Node> -> DocumentInfo, st: DFG.GenState<S>, ast: Root)
    requires st.controllers == 0
    ensures GenerateAsWritten(env, st, ast).Threw? &&
      DFG.GenerateSpec(DFG.OLDER, env, extract, (t: Root) => Ok(t), st, ast) == Threw(GenerateAsWritten(env, st, ast).message)
  {
    AsWrittenNeverGenerates(env, st, ast);
    if DFG.CheckAst(ast) {
      var identity := (t: Root) => Ok(t);
      assert identity(ast) == Ok(ast);
      DFG.ControllerCreatedOnce(DFG.OLDER, env, st, ast.v);
    }
  }
}
