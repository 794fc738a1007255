/**
 * The first generators, before the directly flowing one: `Generator`, which
 * renders through a template, and the old `TexTufteGenerator`, which renders
 * through its LaTeX renderer and parses the extension clauses of images. Both
 * accept only headings, paragraphs, codeblocks, equation blocks and images,
 * require every component and paragraph element to render to something, and
 * hand the root writer the concatenated flow and the title of the tree.
 *
 * The collaborators are those of `DirectFlowGenerator.Env`; these generators
 * use only its renderer and evaluator, over the world state `S`.
 */
module LegacyGenerator {
  import opened Wrappers
  import opened Ast
  import opened Rendering
  import opened CodeEvaluation
  import DFG = DirectFlowGenerator
  import ExtensionsOld

  const NULL_OR_MALFORMED := "AST cannot be null, undefined or malformed"
  const DID_NOT_RENDER := "Component did not render"

  /** The message of an unknown paragraph element, without the colon the later generators print. */
  function UnrecognizedElement(t: string): string
  {
    "Unrecognized par type'" + t + "'"
  }

  /** The two generators of this shape differ only in what they hand the image writer. */
  datatype Kind =
      /** `Generator`: no extension values. */
    | TemplateGenerator
      /** The old `TexTufteGenerator`: the values parsed from the image's clauses. */
    | TexTufteGenerator

  /** A renderer call. */
  function Render<S>(env: DFG.Env<S>, w: S, c: Call): Step<S, string>
  {
    env.render(w, c)
  }

  /** `generateCodeComponent`: the converted result of the chunk when it is run. */
  function CodeComponent<S>(env: DFG.Env<S>, w: S, run: bool, src: string): Step<S, Option<string>>
  {
    if !run then Done(w, None)
    else if env.evaluator.None? then Threw(DFG.NO_EVALUATOR)
    else
      match env.evaluator.value(w, src)
      case Threw(m) => Threw(m)
      case Done(w1, e) => Done(w1, Some(ConvertResult(e)))
  }

  /** One paragraph element, before the check that it rendered. */
  function ElementOutput<S>(env: DFG.Env<S>, w: S, e: Element): Step<S, string>
  {
    match e
    case Text(s) => Render(env, w, WriteParagraphText(s))
    case Bold(s) => Render(env, w, WriteParagraphBoldText(s))
    case Italic(s) => Render(env, w, WriteParagraphItalicText(s))
    case CodeInline(run, src) =>
      (match CodeComponent(env, w, run, src)
       case Threw(m) => Threw(m)
       case Done(w1, res) => Render(env, w1, WriteParagraphCodeInline(src, res)))
    case EqInline(eq) => Render(env, w, WriteParagraphEquationInlineText(eq))
    case _ => Threw(UnrecognizedElement(ElementTag(e)))
  }

  /** One paragraph element, which must render to something. */
  function RenderElement<S>(env: DFG.Env<S>, w: S, e: Element): Step<S, string>
  {
    match ElementOutput(env, w, e)
    case Threw(m) => Threw(m)
    case Done(w1, out) => if out == "" then Threw(DFG.PAR_DID_NOT_RENDER) else Done(w1, out)
  }

  /** The elements of a paragraph rendered in order and concatenated. */
  function Elements<S>(env: DFG.Env<S>, w: S, es: seq<Element>): Step<S, string>
    decreases |es|
  {
    if |es| == 0 then Done(w, "")
    else
      match Elements(env, w, es[..|es| - 1])
      case Threw(m) => Threw(m)
      case Done(w1, acc) => DFG.Append(acc, RenderElement(env, w1, es[|es| - 1]))
  }

  /** `generateParagraph`: the paragraph writer applied to the rendered elements. */
  function ParagraphSpec<S>(env: DFG.Env<S>, w: S, es: seq<Element>): Step<S, string>
  {
    match Elements(env, w, es)
    case Threw(m) => Threw(m)
    case Done(w1, content) => Render(env, w1, WriteParagraph(content))
  }

  /** The older parser's result as the image writer receives it: only `fullwidth` is set. */
  function OldValues(p: ExtensionsOld.Parsed): Extensions.Values
  {
    Extensions.Values(p.result.fullwidth, None, None, None, None)
  }

  /** The extension values handed to the image writer, parsed by the older parser. */
  function ImageExtensions(k: Kind, ext: Option<seq<ExtClause>>): Option<Extensions.Values>
  {
    if k.TexTufteGenerator? then Some(OldValues(ExtensionsOld.ParseSpec(Extensions.Stringify(ext)))) else None
  }

  /** One component node, before the check that it rendered. */
  function NodeOutput<S>(k: Kind, env: DFG.Env<S>, w: S, n: Node): Step<S, string>
  {
    match n
    case Heading(text, level, _) => Render(env, w, WriteHeading(text, level))
    case Paragraph(es) => ParagraphSpec(env, w, es)
    case Codeblock(run, src, _) =>
      (match CodeComponent(env, w, run, src)
       case Threw(m) => Threw(m)
       case Done(w1, res) => Render(env, w1, WriteCodeblock(src, res, None)))
    case EqBlock(eq) => Render(env, w, WriteEquationblock(eq))
    case Image(alt, path, title, ext) => Render(env, w, WriteImage(alt, path, title, ImageExtensions(k, ext)))
    case _ => Threw(DFG.UnrecognizedNode(Tag(n)))
  }

  /** One component node of the loop of `generateStart`, which must render to something. */
  function RenderNode<S>(k: Kind, env: DFG.Env<S>, w: S, n: Node): Step<S, string>
  {
    match NodeOutput(k, env, w, n)
    case Threw(m) => Threw(m)
    case Done(w1, out) => if out == "" then Threw(DID_NOT_RENDER) else Done(w1, out)
  }

  /** The loop of `generateStart`: the components rendered in order and concatenated. */
  function Flow<S>(k: Kind, env: DFG.Env<S>, w: S, ns: seq<Node>): Step<S, string>
    decreases |ns|
  {
    if |ns| == 0 then Done(w, "")
    else
      match Flow(k, env, w, ns[..|ns| - 1])
      case Threw(m) => Threw(m)
      case Done(w1, acc) => DFG.Append(acc, RenderNode(k, env, w1, ns[|ns| - 1]))
  }

  /** `generateStart`: the flow, then the root writer with the title of the tree and nothing else. */
  function StartSpec<S>(k: Kind, env: DFG.Env<S>, w: S, ns: seq<Node>): Step<S, string>
  {
    match Flow(k, env, w, ns)
    case Threw(m) => Threw(m)
    case Done(w1, flow) => Render(env, w1, WriteRoot(flow, Some(DFG.ExtractSemanticInfo(ns))))
  }

  /** `generate`: a missing tree or one that is not a `start`, then an empty one, are rejected. */
  function GenerateSpec<S>(k: Kind, env: DFG.Env<S>, w: S, ast: Option<Root>): Step<S, string>
  {
    if ast.None? || ast.value.t != START then Threw(NULL_OR_MALFORMED)
    else if |ast.value.v| == 0 then Threw(DFG.MALFORMED_AST)
    else StartSpec(k, env, w, ast.value.v)
  }

  /** The node kinds these generators render. */
  predicate Supported(n: Node)
  {
    n.Heading? || n.Paragraph? || n.Codeblock? || n.EqBlock? || n.Image?
  }

  /** The element kinds these generators render. */
  predicate SupportedElement(e: Element)
  {
    e.Text? || e.Bold? || e.Italic? || e.CodeInline? || e.EqInline?
  }

  lemma {:induction false} ElementsPrefixThrows<S>(env: DFG.Env<S>, w: S, es: seq<Element>, k: nat)
    requires k <= |es| && Elements(env, w, es[..k]).Threw?
    ensures Elements(env, w, es) == Elements(env, w, es[..k])
    decreases |es| - k
  {
    if k < |es| {
      assert es[..|es| - 1][..k] == es[..k];
      ElementsPrefixThrows(env, w, es[..|es| - 1], k);
    } else {
      assert es[..k] == es;
    }
  }

  lemma {:induction false} FlowPrefixThrows<S>(k: Kind, env: DFG.Env<S>, w: S, ns: seq<Node>, i: nat)
    requires i <= |ns| && Flow(k, env, w, ns[..i]).Threw?
    ensures Flow(k, env, w, ns) == Flow(k, env, w, ns[..i])
    decreases |ns| - i
  {
    if i < |ns| {
      assert ns[..|ns| - 1][..i] == ns[..i];
      FlowPrefixThrows(k, env, w, ns[..|ns| - 1], i);
    } else {
      assert ns[..i] == ns;
    }
  }

  /**
   * A rendered paragraph holds only the supported elements, each of which
   * rendered to at least one character.
   */
  lemma {:induction false} ElementsRendered<S>(env: DFG.Env<S>, w: S, es: seq<Element>)
    ensures Elements(env, w, es).Done? ==>
      (forall i :: 0 <= i < |es| ==> SupportedElement(es[i])) && |Elements(env, w, es).value| >= |es|
    decreases |es|
  {
    if |es| > 0 {
      var init := es[..|es| - 1];
      ElementsRendered(env, w, init);
      if Elements(env, w, es).Done? {
        assert forall i :: 0 <= i < |init| ==> init[i] == es[i];
      }
    }
  }

  /**
   * A rendered flow holds only the supported node kinds, each of which
   * rendered to at least one character; any other node makes the generation
   * throw.
   */
  lemma {:induction false} FlowRendered<S>(k: Kind, env: DFG.Env<S>, w: S, ns: seq<Node>)
    ensures Flow(k, env, w, ns).Done? ==>
      (forall i :: 0 <= i < |ns| ==> Supported(ns[i])) && |Flow(k, env, w, ns).value| >= |ns|
    decreases |ns|
  {
    if |ns| > 0 {
      var init := ns[..|ns| - 1];
      FlowRendered(k, env, w, init);
      if Flow(k, env, w, ns).Done? {
        assert forall i :: 0 <= i < |init| ==> init[i] == ns[i];
      }
    }
  }

  /**
   * A well-formed tree gets to the root writer exactly when its flow
   * renders, with the flow and the title of the tree.
   */
  lemma GenerateOutcome<S>(k: Kind, env: DFG.Env<S>, w: S, ast: Option<Root>)
    ensures ast.None? || ast.value.t != START ==> GenerateSpec(k, env, w, ast) == Threw(NULL_OR_MALFORMED)
    ensures ast.Some? && ast.value.t == START && |ast.value.v| == 0 ==> GenerateSpec(k, env, w, ast) == Threw(DFG.MALFORMED_AST)
    ensures ast.Some? && ast.value.t == START && |ast.value.v| > 0 && Flow(k, env, w, ast.value.v).Done? ==>
      GenerateSpec(k, env, w, ast)
        == Render(env, Flow(k, env, w, ast.value.v).state,
             WriteRoot(Flow(k, env, w, ast.value.v).value, Some(DocumentInfo(Some(DFG.Title(ast.value.v)), None, None, None))))
  {
  }

  /** The directly flowing state of a world, with `c` directives controllers. */
  function Lifted<S>(s: Step<S, string>, c: nat): Step<DFG.GenState<S>, string>
  {
    match s
    case Threw(m) => Threw(m)
    case Done(w, v) => Done(DFG.GenState(w, c), v)
  }

  /** An element this generator renders is rendered alike by the older directly flowing generator. */
  lemma ElementAgrees<S>(env: DFG.Env<S>, w: S, c: nat, e: Element)
    requires RenderElement(env, w, e).Done?
    ensures DFG.RenderElement(DFG.OLDER, env, DFG.GenState(w, c), e) == Lifted(RenderElement(env, w, e), c)
  {
    if e.CodeInline? {
      var st := DFG.GenState(w, c);
      assert DFG.CodeComponent(env, st, e.run, e.src) == match CodeComponent(env, w, e.run, e.src)
        case Threw(m) => Threw(m)
        case Done(w1, res) => Done(DFG.GenState(w1, c), res);
    }
  }

  lemma {:induction false} ElementsAgree<S>(env: DFG.Env<S>, w: S, c: nat, es: seq<Element>)
    requires Elements(env, w, es).Done?
    ensures DFG.Elements(DFG.OLDER, env, DFG.GenState(w, c), es) == Lifted(Elements(env, w, es), c)
    decreases |es|
  {
    if |es| > 0 {
      var init := es[..|es| - 1];
      if Elements(env, w, init).Done? {
        ElementsAgree(env, w, c, init);
        var w1 := Elements(env, w, init).state;
        ElementAgrees(env, w1, c, es[|es| - 1]);
      }
    }
  }

  /**
   * The image values of the old LaTeX generator are those of the newer
   * parser with every attribute but `fullwidth` left out.
   */
  lemma ImageValuesKeepFullwidth(ext: Option<seq<ExtClause>>)
    ensures ImageExtensions(TexTufteGenerator, ext)
      == Some(DFG.ExtensionValues(ext).(theorem := None, hidden := None, ifDef := None, output := None))
  {
    ExtensionsOld.AgreesWithNewerParser(Extensions.Stringify(ext));
  }

  /**
   * A component other than an image that the old LaTeX generator renders is
   * rendered alike by the older directly flowing generator; an image reaches
   * the writer with the newer parser's full values there.
   */
  lemma NodeAgrees<S>(env: DFG.Env<S>, w: S, c: nat, n: Node)
    requires RenderNode(TexTufteGenerator, env, w, n).Done? && !n.Image?
    ensures DFG.RenderNode(DFG.OLDER, env, DFG.GenState(w, c), n) == Lifted(RenderNode(TexTufteGenerator, env, w, n), c)
  {
    var st := DFG.GenState(w, c);
    match n
    case Paragraph(es) =>
      ElementsAgree(env, w, c, es);
    case Codeblock(run, src, _) =>
      assert DFG.CodeComponent(env, st, run, src) == match CodeComponent(env, w, run, src)
        case Threw(m) => Threw(m)
        case Done(w1, res) => Done(DFG.GenState(w1, c), res);
    case _ =>
  }

  /**
   * The older directly flowing generator extends these: every flow without
   * images the old LaTeX generator renders, it renders to the same output
   * and world, and creates no directives controller doing so.
   */
  lemma {:induction false} FlowAgrees<S>(env: DFG.Env<S>, w: S, c: nat, ns: seq<Node>)
    requires Flow(TexTufteGenerator, env, w, ns).Done?
    requires forall i :: 0 <= i < |ns| ==> !ns[i].Image?
    ensures DFG.Flow(DFG.OLDER, env, DFG.GenState(w, c), ns) == Lifted(Flow(TexTufteGenerator, env, w, ns), c)
    decreases |ns|
  {
    if |ns| > 0 {
      var init := ns[..|ns| - 1];
      if Flow(TexTufteGenerator, env, w, init).Done? {
        FlowAgrees(env, w, c, init);
        var w1 := Flow(TexTufteGenerator, env, w, init).state;
        NodeAgrees(env, w1, c, ns[|ns| - 1]);
      }
    }
  }

  class LegacyGenerator<!S> {
    const kind: Kind
    const env: DFG.Env<S>
    var world: S

    constructor(kind: Kind, env: DFG.Env<S>, world: S)
      ensures this.kind == kind && this.env == env && this.world == world
    {
      this.kind := kind;
      this.env := env;
      this.world := world;
    }

    /** The method's result and the new world are those of the step `s`. */
    ghost predicate Reached<T>(r: Result<T>, s: Step<S, T>)
      reads this
    {
      match s
      case Done(w, v) => r == Ok(v) && world == w
      case Threw(m) => r == Err(m)
    }

    method Call(c: Call) returns (r: Result<string>)
      modifies this
      ensures Reached(r, Render(env, old(world), c))
    {
      var s := env.render(world, c);
      match s
      case Threw(m) =>
        r := Err(m);
      case Done(w, out) =>
        world := w;
        r := Ok(out);
    }

    method GenerateCodeComponent(run: bool, src: string) returns (r: Result<Option<string>>)
      modifies this
      ensures Reached(r, CodeComponent(env, old(world), run, src))
    {
      if !run {
        return Ok(None);
      }
      if env.evaluator.None? {
        return Err(DFG.NO_EVALUATOR);
      }
      var s := env.evaluator.value(world, src);
      match s
      case Threw(m) =>
        r := Err(m);
      case Done(w, e) =>
        world := w;
        r := Ok(Some(ConvertResult(e)));
    }

    method GenerateElement(e: Element) returns (r: Result<string>)
      modifies this
      ensures Reached(r, RenderElement(env, old(world), e))
    {
      match e {
      case Text(s) =>
        r := Call(WriteParagraphText(s));
      case Bold(s) =>
        r := Call(WriteParagraphBoldText(s));
      case Italic(s) =>
        r := Call(WriteParagraphItalicText(s));
      case CodeInline(run, src) =>
        var res := GenerateCodeComponent(run, src);
        if res.Err? {
          return Err(res.error);
        }
        r := Call(WriteParagraphCodeInline(src, res.value));
      case EqInline(eq) =>
        r := Call(WriteParagraphEquationInlineText(eq));
      case InlineDirective(_) =>
        return Err(UnrecognizedElement(ElementTag(e)));
      case OtherElement(_, _) =>
        return Err(UnrecognizedElement(ElementTag(e)));
      }
      if r.Ok? && r.value == "" {
        r := Err(DFG.PAR_DID_NOT_RENDER);
      }
    }

    method GenerateParagraph(es: seq<Element>) returns (r: Result<string>)
      modifies this
      ensures Reached(r, ParagraphSpec(env, old(world), es))
    {
      ghost var w0 := world;
      var flow := "";
      for i := 0 to |es|
        invariant Elements(env, w0, es[..i]) == Done(world, flow)
      {
        assert es[..i + 1][..i] == es[..i];
        var x := GenerateElement(es[i]);
        if x.Err? {
          ElementsPrefixThrows(env, w0, es, i + 1);
          return Err(x.error);
        }
        flow := flow + x.value;
      }
      assert es[..|es|] == es;
      r := Call(WriteParagraph(flow));
    }

    method GenerateNode(n: Node) returns (r: Result<string>)
      modifies this
      ensures Reached(r, RenderNode(kind, env, old(world), n))
    {
      match n {
      case Heading(text, level, _) =>
        r := Call(WriteHeading(text, level));
      case Paragraph(es) =>
        r := GenerateParagraph(es);
      case Codeblock(run, src, _) =>
        var res := GenerateCodeComponent(run, src);
        if res.Err? {
          return Err(res.error);
        }
        r := Call(WriteCodeblock(src, res.value, None));
      case EqBlock(eq) =>
        r := Call(WriteEquationblock(eq));
      case Image(alt, path, title, ext) =>
        var values: Option<Extensions.Values> := None;
        if kind.TexTufteGenerator? {
          var parsed := ExtensionsOld.Parse(Extensions.Stringify(ext));
          values := Some(OldValues(parsed));
        }
        r := Call(WriteImage(alt, path, title, values));
      case _ =>
        return Err(DFG.UnrecognizedNode(Tag(n)));
      }
      if r.Ok? && r.value == "" {
        r := Err(DID_NOT_RENDER);
      }
    }

    method GenerateStart(ns: seq<Node>) returns (r: Result<string>)
      modifies this
      ensures Reached(r, StartSpec(kind, env, old(world), ns))
    {
      var info := DocumentInfo(Some(DFG.Title(ns)), None, None, None);
      ghost var w0 := world;
      var flow := "";
      for i := 0 to |ns|
        invariant Flow(kind, env, w0, ns[..i]) == Done(world, flow)
      {
        assert ns[..i + 1][..i] == ns[..i];
        var x := GenerateNode(ns[i]);
        if x.Err? {
          FlowPrefixThrows(kind, env, w0, ns, i + 1);
          return Err(x.error);
        }
        flow := flow + x.value;
      }
      assert ns[..|ns|] == ns;
      r := Call(WriteRoot(flow, Some(info)));
    }

    method Generate(ast: Option<Root>) returns (r: Result<string>)
      modifies this
      ensures Reached(r, GenerateSpec(kind, env, old(world), ast))
    {
      if ast.None? || ast.value.t != START {
        return Err(NULL_OR_MALFORMED);
      }
      if |ast.value.v| == 0 {
        return Err(DFG.MALFORMED_AST);
      }
      r := GenerateStart(ast.value.v);
    }
  }
}
