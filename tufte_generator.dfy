/**
 * The generator shared by the Tufte templates: the base generator with a
 * document information that adds the author and the abstract, and a
 * constructor whose parameter list does not match the calls its subclasses
 * make.
 */
module TufteGenerator {
  import opened Wrappers
  import opened Text
  import opened Ast
  import opened Rendering
  import DirectFlowGenerator
  import AuthorHelper
  import AbstractHelper

  /** The author text, when there is a non-empty one. */
  function AuthorField(ns: seq<Node>): (r: Option<string>)
    ensures r.Some? ==> r.value == AuthorHelper.GetAuthor(ns) && r.value != ""
    ensures r.None? <==> AuthorHelper.GetAuthor(ns) == ""
  {
    var author := AuthorHelper.GetAuthor(ns);
    if author != "" then Some(author) else None
  }

  /** The abstract strings joined with "", when the result is non-empty. */
  function AbstractField(ns: seq<Node>): (r: Option<string>)
    ensures r.Some? ==> r.value == Concat(AbstractHelper.GetAbstract(ns)) && r.value != ""
    ensures r.None? <==> Concat(AbstractHelper.GetAbstract(ns)) == ""
  {
    var text := Concat(AbstractHelper.GetAbstract(ns));
    if text != "" then Some(text) else None
  }

  /**
   * `extractSemanticInfo`: the base information, plus the author and the
   * abstract, each set only when it is non-empty.
   */
  function ExtractSemanticInfo(ns: seq<Node>): (r: DocumentInfo)
    ensures r.title == DirectFlowGenerator.ExtractSemanticInfo(ns).title
    ensures r.author == AuthorField(ns) && r.abstractText == AbstractField(ns)
    ensures r.language.None?
  {
    DirectFlowGenerator.ExtractSemanticInfo(ns).(author := AuthorField(ns), abstractText := AbstractField(ns))
  }

  /** A flow without a title heading has the "Untitled" title and neither author nor abstract. */
  lemma NoTitleHeading(ns: seq<Node>)
    requires forall j :: 0 <= j < |ns| ==> !IsLevelOneHeading(ns[j])
    ensures ExtractSemanticInfo(ns) == DocumentInfo(Some(UNTITLED), None, None, None)
  {
    AuthorHelper.NoTitleNoAuthor(ns);
    AbstractHelper.NoTitleNoAbstract(ns);
    DirectFlowGenerator.UntitledWithoutTitleHeading(ns);
  }

  /**
   * With the title at `t`, the author heading at `h` and the paragraph after
   * it at `q`, the author field is that paragraph's text when it is non-empty.
   */
  lemma AuthorFromParagraph(ns: seq<Node>, t: nat, h: nat, q: nat)
    requires t <= h < q < |ns|
    requires IsLevelOneHeading(ns[t]) && forall j :: 0 <= j < t ==> !IsLevelOneHeading(ns[j])
    requires AuthorHelper.IsAuthorHeading(ns[h]) && forall j :: t <= j < h ==> !AuthorHelper.IsAuthorHeading(ns[j])
    requires ns[q].Paragraph? && forall j :: h <= j < q ==> !ns[j].Paragraph?
    requires Concat(ElementValues(ns[q].elements)) != ""
    ensures ExtractSemanticInfo(ns).author == Some(Concat(ElementValues(ns[q].elements)))
  {
    AuthorHelper.AuthorIsParagraphAfterHeading(ns, t, h, q);
  }

  /** The author text as the helper as written finds it, when it is non-empty. */
  function AuthorFieldAsWritten(ns: seq<Node>): (r: Option<string>)
    ensures r.Some? ==> r.value == AuthorHelper.GetAuthorAsWritten(ns) && r.value != ""
    ensures r.None? <==> AuthorHelper.GetAuthorAsWritten(ns) == ""
  {
    var author := AuthorHelper.GetAuthorAsWritten(ns);
    if author != "" then Some(author) else None
  }

  /** The abstract strings as the helper as written finds them, joined, when non-empty. */
  function AbstractFieldAsWritten(ns: seq<Node>): (r: Option<string>)
    ensures r.Some? ==> r.value == Concat(AbstractHelper.GetAbstractAsWritten(ns)) && r.value != ""
    ensures r.None? <==> Concat(AbstractHelper.GetAbstractAsWritten(ns)) == ""
  {
    var text := Concat(AbstractHelper.GetAbstractAsWritten(ns));
    if text != "" then Some(text) else None
  }

  /** `extractSemanticInfo` as written: the fields come from the helpers as written. */
  function ExtractSemanticInfoAsWritten(ns: seq<Node>): (r: DocumentInfo)
    ensures r.title == DirectFlowGenerator.ExtractSemanticInfo(ns).title
    ensures r.author == AuthorFieldAsWritten(ns) && r.abstractText == AbstractFieldAsWritten(ns)
    ensures r.language.None?
  {
    DirectFlowGenerator.ExtractSemanticInfo(ns).(author := AuthorFieldAsWritten(ns), abstractText := AbstractFieldAsWritten(ns))
  }

  /** When the title heading comes first, the information as written is the corrected one. */
  lemma AsWrittenInfoAgreesWhenTitleFirst(ns: seq<Node>)
    requires |ns| > 0 && IsLevelOneHeading(ns[0])
    ensures ExtractSemanticInfoAsWritten(ns) == ExtractSemanticInfo(ns)
  {
    AuthorHelper.AsWrittenAgreesWhenTitleFirst(ns);
    AbstractHelper.AsWrittenAgreesWhenTitleFirst(ns);
  }

  /**
   * A paragraph before the title becomes the author as written when the
   * author heading directly follows the title; the corrected information
   * names the paragraph after the heading.
   */
  lemma AsWrittenInfoReadsParagraphBeforeTitle(intro: string, title: Node, heading: Node, name: string)
    requires IsLevelOneHeading(title) && !AuthorHelper.IsAuthorHeading(title)
    requires heading.Heading? && AuthorHelper.IsAuthorHeading(heading)
    requires intro != "" && name != ""
    ensures var ns := [HRule, Paragraph([Text(intro)]), title, heading, Paragraph([Text(name)])];
      ExtractSemanticInfoAsWritten(ns).author == Some(intro) && ExtractSemanticInfo(ns).author == Some(name)
  {
    AuthorHelper.AsWrittenReadsParagraphBeforeTitle(intro, title, heading, name);
  }

  /** A flow without a title heading has, as written too, neither author nor abstract. */
  lemma NoTitleHeadingAsWritten(ns: seq<Node>)
    requires forall j :: 0 <= j < |ns| ==> !IsLevelOneHeading(ns[j])
    ensures ExtractSemanticInfoAsWritten(ns) == DocumentInfo(Some(UNTITLED), None, None, None)
  {
    AuthorHelper.NoTitleNoAuthor(ns);
    AbstractHelper.NoTitleNoAbstract(ns);
    DirectFlowGenerator.UntitledWithoutTitleHeading(ns);
  }

  /**
   * As written, with the title at `t` and the author heading at `h`, the
   * author field is the text of the first paragraph at or after `h - t`.
   */
  lemma AuthorFromParagraphAsWritten(ns: seq<Node>, t: nat, h: nat, q: nat)
    requires t <= h < |ns| && h - t <= q < |ns|
    requires IsLevelOneHeading(ns[t]) && forall j :: 0 <= j < t ==> !IsLevelOneHeading(ns[j])
    requires AuthorHelper.IsAuthorHeading(ns[h]) && forall j :: t <= j < h ==> !AuthorHelper.IsAuthorHeading(ns[j])
    requires ns[q].Paragraph? && forall j :: h - t <= j < q ==> !ns[j].Paragraph?
    requires Concat(ElementValues(ns[q].elements)) != ""
    ensures ExtractSemanticInfoAsWritten(ns).author == Some(Concat(ElementValues(ns[q].elements)))
  {
    AuthorHelper.AuthorAsWrittenIsParagraphFromOffset(ns, t, h, q);
  }

  /** An argument of a constructor call, by what it is; `Undefined` stands for a missing one. */
  datatype Arg = RendererArg | OutputImageArg | InputImageArg | EvaluatorArg | Undefined

  /** The argument at position `i`: `undefined` past the end of the call. */
  function ArgAt(args: seq<Arg>, i: nat): Arg
  {
    if i < |args| then args[i] else Undefined
  }

  /** The parameters of the base template generator, bound to the arguments of a call. */
  datatype BaseParams = BaseParams(renderer: Arg, outputImage: Arg, inputImage: Arg, codeEvaluator: Arg)

  function BindBase(args: seq<Arg>): BaseParams
  {
    BaseParams(ArgAt(args, 0), ArgAt(args, 1), ArgAt(args, 2), ArgAt(args, 3))
  }

  /** The arguments the TeX Tufte and HTML Tufte generators pass to this constructor. */
  const SUBCLASS_ARGS := [RendererArg, OutputImageArg, InputImageArg, EvaluatorArg]

  /**
   * The constructor as written: its parameters are the renderer and the
   * evaluator, and it passes those two on as the first two arguments of the
   * base constructor. Arguments past the second are dropped.
   */
  function ConstructAsWritten(args: seq<Arg>): BaseParams
  {
    BindBase([ArgAt(args, 0), ArgAt(args, 1)])
  }

  /** The constructor with the four parameters its subclasses pass, handed on in place. */
  function Construct(args: seq<Arg>): BaseParams
  {
    BindBase([ArgAt(args, 0), ArgAt(args, 1), ArgAt(args, 2), ArgAt(args, 3)])
  }

  /** The collaborators the base generator ends up with: the evaluator only when it was bound to its parameter. */
  function EnvFor<S>(env: DirectFlowGenerator.Env<S>, p: BaseParams): (r: DirectFlowGenerator.Env<S>)
    ensures r.render == env.render && r.directive == env.directive && r.lang == env.lang
    ensures p.codeEvaluator == EvaluatorArg ==> r == env
    ensures p.codeEvaluator != EvaluatorArg ==> r.evaluator.None?
  {
    if p.codeEvaluator == EvaluatorArg then env else env.(evaluator := None)
  }

  /**
   * As written, the output image lands in the image parameter meant for it
   * only by accident, and the input image and the evaluator are lost; the
   * corrected constructor binds all four.
   */
  lemma AsWrittenLosesEvaluator()
    ensures ConstructAsWritten(SUBCLASS_ARGS) == BaseParams(RendererArg, OutputImageArg, Undefined, Undefined)
    ensures Construct(SUBCLASS_ARGS) == BaseParams(RendererArg, OutputImageArg, InputImageArg, EvaluatorArg)
  {
  }

  /**
   * So a Tufte generator built as written throws on the first code chunk that
   * is run, whatever evaluator it was given; built correctly it evaluates it.
   */
  lemma AsWrittenRunChunkThrows<S>(d: DirectFlowGenerator.Dialect, env: DirectFlowGenerator.Env<S>,
                                   st: DirectFlowGenerator.GenState<S>, src: string, ext: Option<seq<ExtClause>>)
    requires env.evaluator.Some?
    ensures DirectFlowGenerator.RenderNode(d, EnvFor(env, ConstructAsWritten(SUBCLASS_ARGS)), st, Codeblock(true, src, ext))
      == Threw(DirectFlowGenerator.NO_EVALUATOR)
    ensures EnvFor(env, Construct(SUBCLASS_ARGS)) == env
  {
    AsWrittenLosesEvaluator();
    DirectFlowGenerator.RunWithoutEvaluatorThrows(d, EnvFor(env, ConstructAsWritten(SUBCLASS_ARGS)), st, src, ext);
  }
}
