/**
 * The generator that walks the flow of a document tree in order and asks a
 * renderer for the text of each component, evaluating code chunks and
 * running directives on the way.
 *
 * The renderer, the code evaluator and the directives controller are given as
 * functions over an opaque state `S` of the world outside the generator: each
 * call receives the state and returns the new one with its answer, or the
 * message it throws. The template-specific generators differ from the base
 * one in a few overridden members; those are captured by a `Dialect` and by
 * two function fields of the generator object.
 */
module DirectFlowGenerator {
  import opened Wrappers
  import opened Text
  import opened Ast
  import opened Rendering
  import opened CodeEvaluation
  import Extensions
  import MathEnvironTex
  import ConditionalTransformer

  const MALFORMED_AST := "Malformed AST"
  const NO_EVALUATOR := "Code evaluation requested but no evaluator provided"
  const NOT_IMPLEMENTED := "Not implemented"
  const INLINE_DIRECTIVE_FAILED := "Error while processing inline directive"
  const PAR_DID_NOT_RENDER := "Par component did not render"

  function UnrecognizedNode(t: string): string
  {
    "Unrecognized node type'" + t + "'"
  }

  function UnrecognizedElement(t: string): string
  {
    "Unrecognized par type: '" + t + "'"
  }

  /** What `createDirectivesController` does in a given generator. */
  datatype ControllerKind =
      /** The base class of the template generators: throws "Not implemented". */
    | ThrowsNotImplemented
      /** An override that builds a controller. */
    | CreatesController
      /** The base class of the older generators: returns `undefined`. */
    | ReturnsUndefined

  /**
   * The overridable behaviour of a generator: how it creates its directives
   * controller, whether it renders theorem nodes, whether a paragraph element
   * rendered as "" is an error, and whether codeblocks read their `hidden`
   * and `output` extension clauses.
   */
  datatype Dialect = Dialect(
    controller: ControllerKind,
    theorems: bool,
    elementsMustRender: bool,
    codeblockExtensions: bool)

  /** The base template generator, whose controller creation is left to subclasses. */
  const TEMPLATE_BASE := Dialect(ThrowsNotImplemented, false, false, true)
  /** A template generator that builds a directives controller. */
  const TEMPLATE_WITH_DIRECTIVES := Dialect(CreatesController, false, false, true)
  /** The TeX Tufte generator: a directives controller and theorem environments. */
  const TEMPLATE_WITH_THEOREMS := Dialect(CreatesController, true, false, true)
  /** The older generator, with no directives controller. */
  const OLDER := Dialect(ReturnsUndefined, false, true, false)

  /**
   * The collaborators of a generator. `render` is the renderer, `evaluator`
   * the optional code chunk evaluator, `directive` the `processDirective` of
   * the directives controller (the clauses and whether the directive is
   * inline; `None` is `undefined`), and `lang` the controller's language.
   */
  datatype Env<!S> = Env(
    render: (S, Call) -> Step<S, string>,
    evaluator: Option<(S, string) -> Step<S, EvalResult>>,
    directive: (S, seq<ExtClause>, bool) -> Step<S, Option<string>>,
    lang: S -> Option<string>)

  /** The world outside the generator and the number of directives controllers created. */
  datatype GenState<!S> = GenState(world: S, controllers: nat)

  /** `checkAst`: a root tagged "start" with a non-empty flow. */
  predicate CheckAst(ast: Root)
  {
    ast.t == START && |ast.v| > 0
  }

  /** The title: the text of the first level-1 heading, or "Untitled" when there is none or it is empty. */
  function Title(ns: seq<Node>): string
  {
    var i := FindIndex(ns, IsLevelOneHeading);
    if i.Some? && ns[i.value].text != "" then ns[i.value].text else UNTITLED
  }

  /** `extractSemanticInfo` of the base generators: the title alone. */
  function ExtractSemanticInfo(ns: seq<Node>): (r: DocumentInfo)
    ensures r.title == Some(Title(ns))
    ensures r.author.None? && r.abstractText.None? && r.language.None?
  {
    DocumentInfo(Some(Title(ns)), None, None, None)
  }

  /** `transformAst` of the base template generator: conditional content. */
  function TransformConditional(ast: Root): (r: Result<Root>)
    ensures r == Ok(Root(START, ConditionalTransformer.Run(ast.v).1))
  {
    Ok(Root(START, ConditionalTransformer.Run(ast.v).1))
  }

  /** A renderer call. */
  function Render<S>(env: Env<S>, st: GenState<S>, c: Call): Step<GenState<S>, string>
  {
    match env.render(st.world, c)
    case Threw(m) => Threw(m)
    case Done(w, out) => Done(st.(world := w), out)
  }

  /** `generateAndEvalCodeComponent`: the converted result of the chunk when it is run. */
  function CodeComponent<S>(env: Env<S>, st: GenState<S>, run: bool, src: string): Step<GenState<S>, Option<string>>
  {
    if !run then Done(st, None)
    else if env.evaluator.None? then Threw(NO_EVALUATOR)
    else
      match env.evaluator.value(st.world, src)
      case Threw(m) => Threw(m)
      case Done(w, e) => Done(st.(world := w), Some(ConvertResult(e)))
  }

  /** The `directivesController` getter: whether a controller exists after it. */
  function Controller<S>(d: Dialect, st: GenState<S>): Step<GenState<S>, bool>
  {
    if st.controllers > 0 then Done(st, true)
    else
      match d.controller
      case ThrowsNotImplemented => Threw(NOT_IMPLEMENTED)
      case CreatesController => Done(st.(controllers := 1), true)
      case ReturnsUndefined => Done(st, false)
  }

  /** `directivesController.processDirective(clauses, inline)`. */
  function Directive<S>(d: Dialect, env: Env<S>, st: GenState<S>, clauses: seq<ExtClause>, inline: bool)
    : Step<GenState<S>, Option<string>>
  {
    match Controller(d, st)
    case Threw(m) => Threw(m)
    case Done(st1, present) =>
      if !present then Threw(UndefinedRead("processDirective"))
      else
        match env.directive(st1.world, clauses, inline)
        case Threw(m) => Threw(m)
        case Done(w, r) => Done(st1.(world := w), r)
  }

  /** One paragraph element, before the check that it rendered. */
  function ElementOutput<S>(d: Dialect, env: Env<S>, st: GenState<S>, e: Element): Step<GenState<S>, string>
  {
    match e
    case Text(s) => Render(env, st, WriteParagraphText(s))
    case Bold(s) => Render(env, st, WriteParagraphBoldText(s))
    case Italic(s) => Render(env, st, WriteParagraphItalicText(s))
    case CodeInline(run, src) =>
      (match CodeComponent(env, st, run, src)
       case Threw(m) => Threw(m)
       case Done(st1, res) => Render(env, st1, WriteParagraphCodeInline(src, res)))
    case EqInline(eq) => Render(env, st, WriteParagraphEquationInlineText(eq))
    case InlineDirective(clauses) =>
      (match Directive(d, env, st, clauses, true)
       case Threw(m) => Threw(m)
       case Done(st1, r) => if r.Some? then Done(st1, r.value) else Threw(INLINE_DIRECTIVE_FAILED))
    case OtherElement(tag, _) => Threw(UnrecognizedElement(tag))
  }

  /** One paragraph element, as the paragraph loop renders it. */
  function RenderElement<S>(d: Dialect, env: Env<S>, st: GenState<S>, e: Element): Step<GenState<S>, string>
  {
    match ElementOutput(d, env, st, e)
    case Threw(m) => Threw(m)
    case Done(st1, out) =>
      if d.elementsMustRender && out == "" then Threw(PAR_DID_NOT_RENDER) else Done(st1, out)
  }

  /** Appends the output of a step to `acc`. */
  function Append<S>(acc: string, s: Step<S, string>): Step<S, string>
  {
    match s
    case Threw(m) => Threw(m)
    case Done(st, out) => Done(st, acc + out)
  }

  /** The elements of a paragraph rendered in order and concatenated. */
  function Elements<S>(d: Dialect, env: Env<S>, st: GenState<S>, es: seq<Element>): Step<GenState<S>, string>
    decreases |es|
  {
    if |es| == 0 then Done(st, "")
    else
      match Elements(d, env, st, es[..|es| - 1])
      case Threw(m) => Threw(m)
      case Done(st1, acc) => Append(acc, RenderElement(d, env, st1, es[|es| - 1]))
  }

  /** `generateParagraph`: the paragraph writer applied to the rendered elements. */
  function ParagraphSpec<S>(d: Dialect, env: Env<S>, st: GenState<S>, es: seq<Element>): Step<GenState<S>, string>
  {
    match Elements(d, env, st, es)
    case Threw(m) => Threw(m)
    case Done(st1, content) => Render(env, st1, WriteParagraph(content))
  }

  /** The extension values of a node, as the extensions manager parses them back from their string. */
  function ExtensionValues(ext: Option<seq<ExtClause>>): Extensions.Values
  {
    Extensions.ParseSpec(Extensions.Stringify(ext)).result
  }

  /** `generateCodeblock`: a hidden codeblock is evaluated and renders "". */
  function CodeblockSpec<S>(d: Dialect, env: Env<S>, st: GenState<S>, run: bool, src: string, ext: Option<seq<ExtClause>>)
    : Step<GenState<S>, string>
  {
    match CodeComponent(env, st, run, src)
    case Threw(m) => Threw(m)
    case Done(st1, res) =>
      if !d.codeblockExtensions then Render(env, st1, WriteCodeblock(src, res, None))
      else if Extensions.Truthy(ExtensionValues(ext).hidden) then Done(st1, "")
      else Render(env, st1, WriteCodeblock(src, res, ExtensionValues(ext).output))
  }

  /** `handleAstComponentNodeRendering`: one component node of the flow. */
  function RenderNode<S>(d: Dialect, env: Env<S>, st: GenState<S>, n: Node): Step<GenState<S>, string>
  {
    match n
    case Theorem(title, statement, proof) =>
      if d.theorems then Done(st, MathEnvironTex.WriteTheorem(title, statement, proof))
      else Threw(UnrecognizedNode(Tag(n)))
    case Heading(text, level, _) => Render(env, st, WriteHeading(text, level))
    case Paragraph(es) => ParagraphSpec(d, env, st, es)
    case Codeblock(run, src, ext) => CodeblockSpec(d, env, st, run, src, ext)
    case EqBlock(eq) => Render(env, st, WriteEquationblock(eq))
    case Image(alt, path, title, ext) => Render(env, st, WriteImage(alt, path, title, Some(ExtensionValues(ext))))
    case HRule => Render(env, st, WriteHRule)
    case RootDirective(clauses) =>
      (match Directive(d, env, st, clauses, false)
       case Threw(m) => Threw(m)
       case Done(st1, r) => Done(st1, if r.Some? then r.value else ""))
    case _ => Threw(UnrecognizedNode(Tag(n)))
  }

  /** `generateFlow`: the components rendered in order and concatenated. */
  function Flow<S>(d: Dialect, env: Env<S>, st: GenState<S>, ns: seq<Node>): Step<GenState<S>, string>
    decreases |ns|
  {
    if |ns| == 0 then Done(st, "")
    else
      match Flow(d, env, st, ns[..|ns| - 1])
      case Threw(m) => Threw(m)
      case Done(st1, acc) => Append(acc, RenderNode(d, env, st1, ns[|ns| - 1]))
  }

  /**
   * `generateStart`: the flow, then the controller's language read into the
   * document information, then the root writer. The value is the document
   * information passed to the root writer and the output.
   */
  function Start<S>(d: Dialect, env: Env<S>, st: GenState<S>, ns: seq<Node>, info: DocumentInfo)
    : Step<GenState<S>, (DocumentInfo, string)>
  {
    match Flow(d, env, st, ns)
    case Threw(m) => Threw(m)
    case Done(st1, flow) =>
      match Controller(d, st1)
      case Threw(m) => Threw(m)
      case Done(st2, present) =>
        if !present then Threw(UndefinedRead("lang"))
        else
          var info2 := info.(language := env.lang(st2.world));
          match Render(env, st2, WriteRoot(flow, Some(info2)))
          case Threw(m) => Threw(m)
          case Done(st3, out) => Done(st3, (info2, out))
  }

  /**
   * `generate` of the template generators: the check, the semantic
   * information of the original tree, the transformation, the start node,
   * then the output written through the renderer.
   */
  function GenerateSpec<S>(d: Dialect, env: Env<S>, extract: seq<Node> -> DocumentInfo, transform: Root -> Result<Root>,
                       st: GenState<S>, ast: Root): Step<GenState<S>, (DocumentInfo, string)>
  {
    if !CheckAst(ast) then Threw(MALFORMED_AST)
    else
      match transform(ast)
      case Err(e) => Threw(e)
      case Ok(t) =>
        match Start(d, env, st, t.v, extract(ast.v))
        case Threw(m) => Threw(m)
        case Done(st1, r) =>
          match Render(env, st1, WriteOutput(r.1))
          case Threw(m) => Threw(m)
          case Done(st2, _) => Done(st2, r)
  }

  class DirectFlowGenerator<!S> {
    const dialect: Dialect
    const env: Env<S>
    /** The `extractSemanticInfo` of the generator's class. */
    const extractSemanticInfo: seq<Node> -> DocumentInfo
    /** The `transformAst` of the generator's class. */
    const transformAst: Root -> Result<Root>
    var world: S
    var controllers: nat
    var docInfo: Option<DocumentInfo>

    constructor(dialect: Dialect, env: Env<S>, extract: seq<Node> -> DocumentInfo,
                transform: Root -> Result<Root>, world: S)
      ensures this.dialect == dialect && this.env == env
      ensures extractSemanticInfo == extract && transformAst == transform
      ensures this.world == world && controllers == 0 && docInfo.None?
    {
      this.dialect := dialect;
      this.env := env;
      extractSemanticInfo := extract;
      transformAst := transform;
      this.world := world;
      controllers := 0;
      docInfo := None;
    }

    function State(): GenState<S>
      reads this
    {
      GenState(world, controllers)
    }

    /** The method's result and the new state are those of the step `s`. */
    ghost predicate Reached<T>(r: Result<T>, s: Step<GenState<S>, T>)
      reads this
    {
      match s
      case Done(st, v) => r == Ok(v) && State() == st
      case Threw(m) => r == Err(m)
    }

    method Call(c: Call) returns (r: Result<string>)
      modifies this
      ensures Reached(r, Render(env, old(State()), c))
      ensures docInfo == old(docInfo)
    {
      var s := env.render(world, c);
      match s
      case Threw(m) =>
        r := Err(m);
      case Done(w, out) =>
        world := w;
        r := Ok(out);
    }

    method GenerateAndEvalCodeComponent(run: bool, src: string) returns (r: Result<Option<string>>)
      modifies this
      ensures Reached(r, CodeComponent(env, old(State()), run, src))
      ensures docInfo == old(docInfo)
    {
      if !run {
        return Ok(None);
      }
      if env.evaluator.None? {
        return Err(NO_EVALUATOR);
      }
      var s := env.evaluator.value(world, src);
      match s
      case Threw(m) =>
        r := Err(m);
      case Done(w, e) =>
        world := w;
        r := Ok(Some(ConvertResult(e)));
    }

    /** The lazily created controller: whether one exists. */
    method DirectivesController() returns (r: Result<bool>)
      modifies this
      ensures Reached(r, Controller(dialect, old(State())))
      ensures docInfo == old(docInfo)
    {
      if controllers == 0 {
        match dialect.controller
        case ThrowsNotImplemented =>
          return Err(NOT_IMPLEMENTED);
        case CreatesController =>
          controllers := 1;
        case ReturnsUndefined =>
          return Ok(false);
      }
      r := Ok(true);
    }

    method ProcessDirective(clauses: seq<ExtClause>, inline: bool) returns (r: Result<Option<string>>)
      modifies this
      ensures Reached(r, Directive(dialect, env, old(State()), clauses, inline))
      ensures docInfo == old(docInfo)
    {
      var c := DirectivesController();
      if c.Err? {
        return Err(c.error);
      }
      if !c.value {
        return Err(UndefinedRead("processDirective"));
      }
      var s := env.directive(world, clauses, inline);
      match s
      case Threw(m) =>
        r := Err(m);
      case Done(w, out) =>
        world := w;
        r := Ok(out);
    }

    /** The body of the paragraph loop for one element. */
    method GenerateElement(e: Element) returns (r: Result<string>)
      modifies this
      ensures Reached(r, RenderElement(dialect, env, old(State()), e))
      ensures docInfo == old(docInfo)
    {
      match e {
        case Text(s) =>
          r := Call(WriteParagraphText(s));
        case Bold(s) =>
          r := Call(WriteParagraphBoldText(s));
        case Italic(s) =>
          r := Call(WriteParagraphItalicText(s));
        case CodeInline(run, src) =>
          var res := GenerateAndEvalCodeComponent(run, src);
          if res.Err? {
            return Err(res.error);
          }
          r := Call(WriteParagraphCodeInline(src, res.value));
        case EqInline(eq) =>
          r := Call(WriteParagraphEquationInlineText(eq));
        case InlineDirective(clauses) =>
          var res := ProcessDirective(clauses, true);
          if res.Err? {
            return Err(res.error);
          }
          if res.value.None? {
            return Err(INLINE_DIRECTIVE_FAILED);
          }
          r := Ok(res.value.value);
        case OtherElement(tag, _) =>
          return Err(UnrecognizedElement(tag));
      }
      if r.Ok? && dialect.elementsMustRender && r.value == "" {
        r := Err(PAR_DID_NOT_RENDER);
      }
    }

    method GenerateParagraph(es: seq<Element>) returns (r: Result<string>)
      modifies this
      ensures Reached(r, ParagraphSpec(dialect, env, old(State()), es))
      ensures docInfo == old(docInfo)
    {
      ghost var st0 := State();
      var flow := "";
      for i := 0 to |es|
        invariant Elements(dialect, env, st0, es[..i]) == Done(State(), flow)
        invariant docInfo == old(docInfo)
      {
        assert es[..i + 1][..i] == es[..i];
        var x := GenerateElement(es[i]);
        if x.Err? {
          ElementsPrefixThrows(dialect, env, st0, es, i + 1);
          return Err(x.error);
        }
        flow := flow + x.value;
      }
      assert es[..|es|] == es;
      r := Call(WriteParagraph(flow));
    }

    method GenerateCodeblock(run: bool, src: string, ext: Option<seq<ExtClause>>) returns (r: Result<string>)
      modifies this
      ensures Reached(r, CodeblockSpec(dialect, env, old(State()), run, src, ext))
      ensures docInfo == old(docInfo)
    {
      var res := GenerateAndEvalCodeComponent(run, src);
      if res.Err? {
        return Err(res.error);
      }
      if !dialect.codeblockExtensions {
        r := Call(WriteCodeblock(src, res.value, None));
        return;
      }
      var parsed := Extensions.Parse(Extensions.Stringify(ext));
      if Extensions.Truthy(parsed.result.hidden) {
        return Ok("");
      }
      r := Call(WriteCodeblock(src, res.value, parsed.result.output));
    }

    method HandleAstComponentNodeRendering(n: Node) returns (r: Result<string>)
      modifies this
      ensures Reached(r, RenderNode(dialect, env, old(State()), n))
      ensures docInfo == old(docInfo)
    {
      match n
      case Theorem(title, statement, proof) =>
        if dialect.theorems {
          r := Ok(MathEnvironTex.WriteTheorem(title, statement, proof));
        } else {
          r := Err(UnrecognizedNode(Tag(n)));
        }
      case Heading(text, level, _) =>
        r := Call(WriteHeading(text, level));
      case Paragraph(es) =>
        r := GenerateParagraph(es);
      case Codeblock(run, src, ext) =>
        r := GenerateCodeblock(run, src, ext);
      case EqBlock(eq) =>
        r := Call(WriteEquationblock(eq));
      case Image(alt, path, title, ext) =>
        var parsed := Extensions.Parse(Extensions.Stringify(ext));
        r := Call(WriteImage(alt, path, title, Some(parsed.result)));
      case HRule =>
        r := Call(WriteHRule);
      case RootDirective(clauses) =>
        var res := ProcessDirective(clauses, false);
        if res.Err? {
          return Err(res.error);
        }
        r := Ok(if res.value.Some? then res.value.value else "");
      case Slide(_) =>
        r := Err(UnrecognizedNode(Tag(n)));
      case OtherNode(_) =>
        r := Err(UnrecognizedNode(Tag(n)));
    }

    method GenerateFlow(ns: seq<Node>) returns (r: Result<string>)
      modifies this
      ensures Reached(r, Flow(dialect, env, old(State()), ns))
      ensures docInfo == old(docInfo)
    {
      ghost var st0 := State();
      var flow := "";
      for i := 0 to |ns|
        invariant Flow(dialect, env, st0, ns[..i]) == Done(State(), flow)
        invariant docInfo == old(docInfo)
      {
        assert ns[..i + 1][..i] == ns[..i];
        var x := HandleAstComponentNodeRendering(ns[i]);
        if x.Err? {
          FlowPrefixThrows(dialect, env, st0, ns, i + 1);
          return Err(x.error);
        }
        flow := flow + x.value;
      }
      assert ns[..|ns|] == ns;
      r := Ok(flow);
    }

    /** `generateStart`, with the document information taken from the `docInfo` field. */
    method GenerateStart(ns: seq<Node>) returns (r: Result<string>)
      requires docInfo.Some?
      modifies this
      ensures var s := Start(dialect, env, old(State()), ns, old(docInfo).value);
        match s
        case Done(st, v) => r == Ok(v.1) && State() == st && docInfo == Some(v.0)
        case Threw(m) => r == Err(m)
    {
      var flow := GenerateFlow(ns);
      if flow.Err? {
        return Err(flow.error);
      }
      var c := DirectivesController();
      if c.Err? {
        return Err(c.error);
      }
      if !c.value {
        return Err(UndefinedRead("lang"));
      }
      docInfo := Some(docInfo.value.(language := env.lang(world)));
      r := Call(WriteRoot(flow.value, docInfo));
    }

    method Generate(ast: Root) returns (r: Result<string>)
      modifies this
      ensures var s := GenerateSpec(dialect, env, extractSemanticInfo, transformAst, old(State()), ast);
        match s
        case Done(st, v) => r == Ok(v.1) && State() == st && docInfo == Some(v.0)
        case Threw(m) => r == Err(m)
    {
      if !CheckAst(ast) {
        return Err(MALFORMED_AST);
      }
      docInfo := Some(extractSemanticInfo(ast.v));
      var transformed := transformAst(ast);
      if transformed.Err? {
        return Err(transformed.error);
      }
      r := GenerateStart(transformed.value.v);
      if r.Err? {
        return;
      }
      var written := Call(WriteOutput(r.value));
      if written.Err? {
        return Err(written.error);
      }
    }
  }

  /** Rendering two flows one after the other is rendering their concatenation. */
  lemma {:induction false} FlowAppend<S>(d: Dialect, env: Env<S>, st: GenState<S>, xs: seq<Node>, ys: seq<Node>)
    ensures Flow(d, env, st, xs).Threw? ==> Flow(d, env, st, xs + ys) == Flow(d, env, st, xs)
    ensures Flow(d, env, st, xs).Done? ==>
      Flow(d, env, st, xs + ys) == Append(Flow(d, env, st, xs).value, Flow(d, env, Flow(d, env, st, xs).state, ys))
    decreases |ys|
  {
    if |ys| == 0 {
      assert xs + ys == xs;
      match Flow(d, env, st, xs)
      case Threw(m) =>
      case Done(st1, a) =>
        assert a + "" == a;
    } else {
      var ys' := ys[..|ys| - 1];
      assert (xs + ys)[..|xs + ys| - 1] == xs + ys';
      assert (xs + ys)[|xs + ys| - 1] == ys[|ys| - 1];
      FlowAppend(d, env, st, xs, ys');
      match Flow(d, env, st, xs)
      case Threw(m) =>
      case Done(st1, a) =>
        match Flow(d, env, st1, ys')
        case Threw(m) =>
        case Done(st2, b) =>
          match RenderNode(d, env, st2, ys[|ys| - 1])
          case Threw(m) =>
          case Done(st3, c) =>
            assert a + b + c == a + (b + c);
    }
  }

  /** Once a prefix of the elements throws, the paragraph throws the same. */
  lemma {:induction false} ElementsPrefixThrows<S>(d: Dialect, env: Env<S>, st: GenState<S>, es: seq<Element>, k: nat)
    requires k <= |es| && Elements(d, env, st, es[..k]).Threw?
    ensures Elements(d, env, st, es) == Elements(d, env, st, es[..k])
    decreases |es| - k
  {
    if k < |es| {
      var init := es[..|es| - 1];
      assert init[..k] == es[..k];
      ElementsPrefixThrows(d, env, st, init, k);
    } else {
      assert es[..k] == es;
    }
  }

  /** Once a prefix of the flow throws, the flow throws the same. */
  lemma {:induction false} FlowPrefixThrows<S>(d: Dialect, env: Env<S>, st: GenState<S>, ns: seq<Node>, k: nat)
    requires k <= |ns| && Flow(d, env, st, ns[..k]).Threw?
    ensures Flow(d, env, st, ns) == Flow(d, env, st, ns[..k])
  {
    assert ns == ns[..k] + ns[k..];
    FlowAppend(d, env, st, ns[..k], ns[k..]);
  }

  /** A flow of one node renders as that node. */
  lemma FlowSingle<S>(d: Dialect, env: Env<S>, st: GenState<S>, n: Node)
    ensures Flow(d, env, st, [n]) == RenderNode(d, env, st, n)
  {
    assert [n][..0] == [];
    match RenderNode(d, env, st, n)
    case Threw(m) =>
    case Done(st1, out) =>
      assert "" + out == out;
  }

  /** The rendered flow is the concatenation of the rendered components, each rendered in the state the previous one left. */
  lemma FlowCons<S>(d: Dialect, env: Env<S>, st: GenState<S>, n: Node, rest: seq<Node>)
    ensures RenderNode(d, env, st, n).Threw? ==> Flow(d, env, st, [n] + rest) == RenderNode(d, env, st, n)
    ensures RenderNode(d, env, st, n).Done? ==>
      Flow(d, env, st, [n] + rest) == Append(RenderNode(d, env, st, n).value, Flow(d, env, RenderNode(d, env, st, n).state, rest))
  {
    FlowAppend(d, env, st, [n], rest);
    FlowSingle(d, env, st, n);
  }

  /** Whether a paragraph element is an inline directive. */
  predicate IsInlineDirective(e: Element)
  {
    e.InlineDirective?
  }

  /** Whether a node is, or holds in its paragraph, a directive. */
  predicate HasDirective(n: Node)
  {
    n.RootDirective? || (n.Paragraph? && exists i :: 0 <= i < |n.elements| && IsInlineDirective(n.elements[i]))
  }

  /** The controller count moves only from 0 to 1, and only in a dialect that creates controllers. */
  predicate CreatedAtMostOnce<S>(d: Dialect, before: GenState<S>, after: GenState<S>)
  {
    || after.controllers == before.controllers
    || (d.controller.CreatesController? && before.controllers == 0 && after.controllers == 1)
  }

  lemma ControllerOnce<S>(d: Dialect, st: GenState<S>)
    ensures Controller(d, st).Done? ==> CreatedAtMostOnce(d, st, Controller(d, st).state)
    ensures Controller(d, st).Done? && st.controllers > 0 ==> Controller(d, st).state == st
  {
  }

  lemma ElementControllers<S>(d: Dialect, env: Env<S>, st: GenState<S>, e: Element)
    ensures RenderElement(d, env, st, e).Done? ==> CreatedAtMostOnce(d, st, RenderElement(d, env, st, e).state)
    ensures RenderElement(d, env, st, e).Done? && !e.InlineDirective? ==>
      RenderElement(d, env, st, e).state.controllers == st.controllers
  {
  }

  lemma {:induction false} ElementsControllers<S>(d: Dialect, env: Env<S>, st: GenState<S>, es: seq<Element>)
    ensures Elements(d, env, st, es).Done? ==> CreatedAtMostOnce(d, st, Elements(d, env, st, es).state)
    ensures Elements(d, env, st, es).Done? && (forall i :: 0 <= i < |es| ==> !IsInlineDirective(es[i])) ==>
      Elements(d, env, st, es).state.controllers == st.controllers
    decreases |es|
  {
    if |es| > 0 {
      var init := es[..|es| - 1];
      ElementsControllers(d, env, st, init);
      match Elements(d, env, st, init)
      case Threw(m) =>
      case Done(st1, acc) =>
        ElementControllers(d, env, st1, es[|es| - 1]);
        assert forall i :: 0 <= i < |init| ==> init[i] == es[i];
    }
  }

  lemma NodeControllers<S>(d: Dialect, env: Env<S>, st: GenState<S>, n: Node)
    ensures RenderNode(d, env, st, n).Done? ==> CreatedAtMostOnce(d, st, RenderNode(d, env, st, n).state)
    ensures RenderNode(d, env, st, n).Done? && !HasDirective(n) ==>
      RenderNode(d, env, st, n).state.controllers == st.controllers
  {
    if n.Paragraph? {
      ElementsControllers(d, env, st, n.elements);
    }
  }

  /**
   * Rendering a flow creates at most one directives controller, however many
   * directives it holds, and a flow without directives creates none.
   */
  lemma {:induction false} ControllerCreatedOnce<S>(d: Dialect, env: Env<S>, st: GenState<S>, ns: seq<Node>)
    ensures Flow(d, env, st, ns).Done? ==> CreatedAtMostOnce(d, st, Flow(d, env, st, ns).state)
    ensures Flow(d, env, st, ns).Done? && (forall i :: 0 <= i < |ns| ==> !HasDirective(ns[i])) ==>
      Flow(d, env, st, ns).state.controllers == st.controllers
    decreases |ns|
  {
    if |ns| > 0 {
      var init := ns[..|ns| - 1];
      ControllerCreatedOnce(d, env, st, init);
      match Flow(d, env, st, init)
      case Threw(m) =>
      case Done(st1, acc) =>
        NodeControllers(d, env, st1, ns[|ns| - 1]);
        assert forall i :: 0 <= i < |init| ==> init[i] == ns[i];
    }
  }

  /** A hidden codeblock renders "" but its chunk is still evaluated, with the same effect on the world. */
  lemma HiddenCodeblockIsEvaluated<S>(d: Dialect, env: Env<S>, st: GenState<S>, run: bool, src: string, ext: Option<seq<ExtClause>>)
    requires d.codeblockExtensions && Extensions.Truthy(ExtensionValues(ext).hidden)
    ensures var code := CodeComponent(env, st, run, src);
      match code
      case Threw(m) => RenderNode(d, env, st, Codeblock(run, src, ext)) == Threw(m)
      case Done(st1, _) => RenderNode(d, env, st, Codeblock(run, src, ext)) == Done(st1, "")
  {
  }

  /** A chunk that runs with no evaluator throws, whatever the dialect. */
  lemma RunWithoutEvaluatorThrows<S>(d: Dialect, env: Env<S>, st: GenState<S>, src: string, ext: Option<seq<ExtClause>>)
    requires env.evaluator.None?
    ensures RenderNode(d, env, st, Codeblock(true, src, ext)) == Threw(NO_EVALUATOR)
    ensures RenderElement(d, env, st, CodeInline(true, src)) == Threw(NO_EVALUATOR)
  {
  }

  /** A chunk that is not run is not evaluated: it reaches the renderer with no result and an unchanged world. */
  lemma NotRunIsNotEvaluated<S>(d: Dialect, env: Env<S>, st: GenState<S>, src: string)
    ensures RenderElement(d, env, st, CodeInline(false, src)) ==
      match Render(env, st, WriteParagraphCodeInline(src, None))
      case Threw(m) => Threw(m)
      case Done(st1, out) => if d.elementsMustRender && out == "" then Threw(PAR_DID_NOT_RENDER) else Done(st1, out)
  {
  }

  /** A flow holding a node of an unknown type throws, once the nodes before it have rendered. */
  lemma UnrecognizedNodeThrows<S>(d: Dialect, env: Env<S>, st: GenState<S>, ns: seq<Node>, tag: string)
    requires Flow(d, env, st, ns).Done?
    ensures Flow(d, env, st, ns + [OtherNode(tag)]) == Threw(UnrecognizedNode(tag))
  {
    assert (ns + [OtherNode(tag)])[..|ns|] == ns;
  }

  /** A paragraph holding an element of an unknown type throws, once the elements before it have rendered. */
  lemma UnrecognizedElementThrows<S>(d: Dialect, env: Env<S>, st: GenState<S>, es: seq<Element>, tag: string, v: string)
    requires Elements(d, env, st, es).Done?
    ensures ParagraphSpec(d, env, st, es + [OtherElement(tag, v)]) == Threw(UnrecognizedElement(tag))
  {
    assert (es + [OtherElement(tag, v)])[..|es|] == es;
  }

  /** The title is the first level-1 heading's text when that is non-empty. */
  lemma TitleIsFirstLevelOneHeading(ns: seq<Node>, i: nat)
    requires i < |ns| && IsLevelOneHeading(ns[i]) && ns[i].text != ""
    requires forall j :: 0 <= j < i ==> !IsLevelOneHeading(ns[j])
    ensures Title(ns) == ns[i].text
  {
    FindIndexIsFirst(ns, IsLevelOneHeading, i);
  }

  /** Without a level-1 heading the title is "Untitled". */
  lemma UntitledWithoutTitleHeading(ns: seq<Node>)
    requires forall j :: 0 <= j < |ns| ==> !IsLevelOneHeading(ns[j])
    ensures Title(ns) == UNTITLED
  {
  }

  /** An empty first level-1 heading gives "Untitled" too, even when a later one has text. */
  lemma EmptyTitleHeadingIsUntitled(ns: seq<Node>, i: nat)
    requires i < |ns| && IsLevelOneHeading(ns[i]) && ns[i].text == ""
    requires forall j :: 0 <= j < i ==> !IsLevelOneHeading(ns[j])
    ensures Title(ns) == UNTITLED
  {
    FindIndexIsFirst(ns, IsLevelOneHeading, i);
  }

  /** A malformed tree is rejected before anything is rendered. */
  lemma MalformedAstIsRejected<S>(d: Dialect, env: Env<S>, extract: seq<Node> -> DocumentInfo,
                                   transform: Root -> Result<Root>, st: GenState<S>, ast: Root)
    requires ast.t != START || |ast.v| == 0
    ensures GenerateSpec(d, env, extract, transform, st, ast) == Threw(MALFORMED_AST)
  {
  }

  /**
   * The base template generator creates no directives controller: the first
   * directive, or the language read after the flow, throws "Not implemented".
   */
  lemma BaseTemplateCannotFinish<S>(env: Env<S>, st: GenState<S>, ns: seq<Node>, info: DocumentInfo)
    requires st.controllers == 0
    ensures Start(TEMPLATE_BASE, env, st, ns, info).Threw?
  {
    ControllerCreatedOnce(TEMPLATE_BASE, env, st, ns);
  }
}
