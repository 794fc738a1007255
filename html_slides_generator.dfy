/**
 * The reveal.js generator of the templates: the tree is split into slides,
 * each slide's flow is rendered by the directly flowing generator and wrapped
 * in a `section`, and the slides are concatenated into the page. It replaces
 * the base `generate`, so the document information the base generator would
 * have set is never set.
 */
module HtmlSlidesGenerator {
  import opened Wrappers
  import opened Ast
  import opened Rendering
  import DirectFlowGenerator
  import SlidesTransformer
  import HtmlSlidesRenderer
  import HtmlTufteRenderer

  const NULL_OR_MALFORMED := "AST cannot be null, undefined or malformed"
  const DID_NOT_RENDER := "Component did not render"

  /** `generateSlide`: the slide's flow, then the slide writer. */
  function SlideSpec<S>(d: DirectFlowGenerator.Dialect, env: DirectFlowGenerator.Env<S>,
                        st: DirectFlowGenerator.GenState<S>, contents: seq<Node>)
    : Step<DirectFlowGenerator.GenState<S>, string>
  {
    match DirectFlowGenerator.Flow(d, env, st, contents)
    case Threw(m) => Threw(m)
    case Done(st1, flow) => DirectFlowGenerator.Render(env, st1, WriteSlide(flow))
  }

  /** One node of the transformed tree: a slide, which must render to something; anything else throws. */
  function SlideNodeSpec<S>(d: DirectFlowGenerator.Dialect, env: DirectFlowGenerator.Env<S>,
                            st: DirectFlowGenerator.GenState<S>, n: Node)
    : Step<DirectFlowGenerator.GenState<S>, string>
  {
    match n
    case Slide(contents) =>
      (match SlideSpec(d, env, st, contents)
       case Threw(m) => Threw(m)
       case Done(st1, out) => if out == "" then Threw(DID_NOT_RENDER) else Done(st1, out))
    case _ => Threw(DirectFlowGenerator.UnrecognizedNode(Tag(n)))
  }

  /** The loop of `generateStart`: the slides rendered in order and concatenated. */
  function SlidesFlow<S>(d: DirectFlowGenerator.Dialect, env: DirectFlowGenerator.Env<S>,
                         st: DirectFlowGenerator.GenState<S>, ns: seq<Node>)
    : Step<DirectFlowGenerator.GenState<S>, string>
    decreases |ns|
  {
    if |ns| == 0 then Done(st, "")
    else
      match SlidesFlow(d, env, st, ns[..|ns| - 1])
      case Threw(m) => Threw(m)
      case Done(st1, acc) => DirectFlowGenerator.Append(acc, SlideNodeSpec(d, env, st1, ns[|ns| - 1]))
  }

  /** Once a prefix of the slides throws, the loop throws the same. */
  lemma {:induction false} SlidesFlowPrefixThrows<S>(d: DirectFlowGenerator.Dialect, env: DirectFlowGenerator.Env<S>,
                                                     st: DirectFlowGenerator.GenState<S>, ns: seq<Node>, k: nat)
    requires k <= |ns| && SlidesFlow(d, env, st, ns[..k]).Threw?
    ensures SlidesFlow(d, env, st, ns) == SlidesFlow(d, env, st, ns[..k])
    decreases |ns| - k
  {
    if k < |ns| {
      var init := ns[..|ns| - 1];
      assert init[..k] == ns[..k];
      SlidesFlowPrefixThrows(d, env, st, init, k);
    } else {
      assert ns[..k] == ns;
    }
  }

  /** `generateStart` of the templates: the slides, then the root writer with the given document information. */
  function StartSpec<S>(d: DirectFlowGenerator.Dialect, env: DirectFlowGenerator.Env<S>,
                        st: DirectFlowGenerator.GenState<S>, ns: seq<Node>, info: Option<DocumentInfo>)
    : Step<DirectFlowGenerator.GenState<S>, string>
  {
    match SlidesFlow(d, env, st, ns)
    case Threw(m) => Threw(m)
    case Done(st1, flow) => DirectFlowGenerator.Render(env, st1, WriteRoot(flow, info))
  }

  /** The checks of `generate`: a missing tree or one that is not a `start`, then an empty flow. */
  function CheckTree(ast: Option<Root>): Option<string>
  {
    if ast.None? || ast.value.t != START then Some(NULL_OR_MALFORMED)
    else if |ast.value.v| == 0 then Some(DirectFlowGenerator.MALFORMED_AST)
    else None
  }

  /** The slide nodes the transformer makes of a flow. */
  function Slides(ns: seq<Node>): seq<Node>
  {
    SlidesTransformer.SlideNodes(SlidesTransformer.SplitSlides(ns))
  }

  /** `generate` of the templates, as written: the start node is rendered with the document information `info` the generator holds. */
  function GenerateSpec<S>(d: DirectFlowGenerator.Dialect, env: DirectFlowGenerator.Env<S>,
                           st: DirectFlowGenerator.GenState<S>, ast: Option<Root>, info: Option<DocumentInfo>)
    : Step<DirectFlowGenerator.GenState<S>, string>
  {
    var check := CheckTree(ast);
    if check.Some? then Threw(check.value)
    else StartSpec(d, env, st, Slides(ast.value.v), info)
  }

  /**
   * Whether a node of the transformed tree holds a level-1 heading: the test
   * `searchTitle(n) !== undefined` of `extractSemanticInfo`.
   */
  predicate HasTitle(n: Node)
  {
    n.Slide? && FindIndex(n.contents, IsLevelOneHeading).Some?
  }

  /** The text of the first level-1 heading of the first slide that has one. */
  function FirstTitle(ns: seq<Node>): Option<string>
  {
    var k := FindIndex(ns, HasTitle);
    if k.None? then None
    else
      var contents := ns[k.value].contents;
      Some(contents[FindIndex(contents, IsLevelOneHeading).value].text)
  }

  /**
   * `extractSemanticInfo` as written: the title heading searched in the slide
   * found to have one; with no such slide the search reads the contents of
   * `undefined` and throws.
   */
  function ExtractSemanticInfoAsWritten(ns: seq<Node>): (r: Result<DocumentInfo>)
    ensures r.Err? <==> forall k :: 0 <= k < |ns| ==> !HasTitle(ns[k])
    ensures r.Err? ==> r.error == UndefinedRead("v")
  {
    match FirstTitle(ns)
    case None => Err(UndefinedRead("v"))
    case Some(t) => Ok(DocumentInfo(Some(if t != "" then t else UNTITLED), None, None, None))
  }

  /** `extractSemanticInfo` with the missing slide handled: "Untitled" when no slide has a level-1 heading. */
  function ExtractSemanticInfo(ns: seq<Node>): DocumentInfo
  {
    var t := FirstTitle(ns);
    DocumentInfo(Some(if t.Some? && t.value != "" then t.value else UNTITLED), None, None, None)
  }

  /** The two agree whenever a slide has a title; otherwise only the corrected one answers, with "Untitled". */
  lemma ExtractAsWrittenAgrees(ns: seq<Node>)
    ensures ExtractSemanticInfoAsWritten(ns).Ok? ==> ExtractSemanticInfoAsWritten(ns).value == ExtractSemanticInfo(ns)
    ensures ExtractSemanticInfoAsWritten(ns).Err? ==> ExtractSemanticInfo(ns).title == Some(UNTITLED)
  {
  }

  /** A run of nodes none of which passes `p` shifts every later find by its length. */
  lemma {:induction false} FindIndexAfter(a: seq<Node>, b: seq<Node>, p: Node -> bool)
    requires forall j :: 0 <= j < |a| ==> !p(a[j])
    ensures FindIndex(b, p).None? ==> FindIndex(a + b, p).None?
    ensures FindIndex(b, p).Some? ==> FindIndex(a + b, p) == Some(FindIndex(b, p).value + |a|)
  {
    if FindIndex(b, p).Some? {
      var i := FindIndex(b, p).value;
      assert (a + b)[i + |a|] == b[i];
      forall j | 0 <= j < i + |a|
        ensures !p((a + b)[j])
      {
        if j >= |a| { assert (a + b)[j] == b[j - |a|]; }
      }
      FindIndexIsFirst(a + b, p, i + |a|);
    } else {
      forall j | 0 <= j < |a + b|
        ensures !p((a + b)[j])
      {
        if j >= |a| { assert (a + b)[j] == b[j - |a|]; }
      }
    }
  }

  /** The title of the first titled slide is that of the first level-1 heading of the flattened slides. */
  predicate TitleAgrees(ss: seq<seq<Node>>)
  {
    var nodes := SlidesTransformer.SlideNodes(ss);
    var flow := SlidesTransformer.Flatten(ss);
    (FirstTitle(nodes).None? <==> FindIndex(flow, IsLevelOneHeading).None?)
    && (FirstTitle(nodes).Some? ==> FirstTitle(nodes).value == flow[FindIndex(flow, IsLevelOneHeading).value].text)
  }

  /** A first slide with a level-1 heading holds the title of the whole flow. */
  lemma TitledFirstSlide(ss: seq<seq<Node>>)
    requires |ss| > 0 && FindIndex(ss[0], IsLevelOneHeading).Some?
    ensures TitleAgrees(ss)
  {
    var nodes := SlidesTransformer.SlideNodes(ss);
    var h := FindIndex(ss[0], IsLevelOneHeading);
    assert SlidesTransformer.Flatten(ss) == ss[0] + SlidesTransformer.Flatten(ss[1..]);
    assert HasTitle(nodes[0]);
    FindIndexIsFirst(nodes, HasTitle, 0);
    FindIndexIsFirst(SlidesTransformer.Flatten(ss), IsLevelOneHeading, h.value);
  }

  /** A first slide without a level-1 heading leaves the title to the slides after it. */
  lemma UntitledFirstSlide(ss: seq<seq<Node>>)
    requires |ss| > 0 && FindIndex(ss[0], IsLevelOneHeading).None?
    requires TitleAgrees(ss[1..])
    ensures TitleAgrees(ss)
  {
    var nodes := SlidesTransformer.SlideNodes(ss);
    var rest := ss[1..];
    assert SlidesTransformer.Flatten(ss) == ss[0] + SlidesTransformer.Flatten(rest);
    assert nodes[1..] == SlidesTransformer.SlideNodes(rest);
    assert !HasTitle(nodes[0]);
    FindIndexAfter(ss[0], SlidesTransformer.Flatten(rest), IsLevelOneHeading);
    FindIndexAfter([nodes[0]], nodes[1..], HasTitle);
    assert [nodes[0]] + nodes[1..] == nodes;
    var i := FindIndex(SlidesTransformer.Flatten(rest), IsLevelOneHeading);
    if i.Some? {
      assert SlidesTransformer.Flatten(ss)[i.value + |ss[0]|] == SlidesTransformer.Flatten(rest)[i.value];
    }
  }

  /** The first titled slide's heading is the first level-1 heading of the whole flow, slides put end to end. */
  lemma {:induction false} FirstTitleIsFlowTitle(ss: seq<seq<Node>>)
    ensures FirstTitle(SlidesTransformer.SlideNodes(ss)).None? <==>
      FindIndex(SlidesTransformer.Flatten(ss), IsLevelOneHeading).None?
    ensures FirstTitle(SlidesTransformer.SlideNodes(ss)).Some? ==>
      FirstTitle(SlidesTransformer.SlideNodes(ss)).value
        == SlidesTransformer.Flatten(ss)[FindIndex(SlidesTransformer.Flatten(ss), IsLevelOneHeading).value].text
  {
    if |ss| > 0 {
      FirstTitleIsFlowTitle(ss[1..]);
      if FindIndex(ss[0], IsLevelOneHeading).Some? {
        TitledFirstSlide(ss);
      } else {
        UntitledFirstSlide(ss);
      }
    }
  }

  /**
   * So the corrected information of the transformed tree has the title the
   * base generators give the flow without its horizontal rules.
   */
  lemma SlidesTitleIsFlowTitle(ns: seq<Node>)
    ensures ExtractSemanticInfo(Slides(ns))
      == DirectFlowGenerator.ExtractSemanticInfo(SlidesTransformer.Flatten(SlidesTransformer.SplitSlides(ns)))
  {
    FirstTitleIsFlowTitle(SlidesTransformer.SplitSlides(ns));
  }

  /**
   * `generate` with the document information set from the transformed tree
   * before the start node is rendered.
   */
  function GenerateCorrectedSpec<S>(d: DirectFlowGenerator.Dialect, env: DirectFlowGenerator.Env<S>,
                                    st: DirectFlowGenerator.GenState<S>, ast: Option<Root>)
    : Step<DirectFlowGenerator.GenState<S>, string>
  {
    var check := CheckTree(ast);
    if check.Some? then Threw(check.value)
    else StartSpec(d, env, st, Slides(ast.value.v), Some(ExtractSemanticInfo(Slides(ast.value.v))))
  }

  /** A renderer call as the slides renderer answers it; serving the page's files is not modelled. */
  function SlidesAnswer<S>(paths: HtmlSlidesRenderer.SlidesPaths, others: (S, Call) -> Step<S, string>, w: S, c: Call)
    : Step<S, string>
  {
    match c
    case WriteRoot(content, info) =>
      var page := HtmlSlidesRenderer.Page(content, paths, info);
      if page.Err? then Threw(page.error) else Done(w, page.value)
    case WriteSlide(content) => Done(w, HtmlSlidesRenderer.WriteSlide(content))
    case _ => others(w, c)
  }

  function SlidesRender<S>(paths: HtmlSlidesRenderer.SlidesPaths, others: (S, Call) -> Step<S, string>)
    : (S, Call) -> Step<S, string>
  {
    (w: S, c: Call) => SlidesAnswer(paths, others, w, c)
  }

  /** The collaborators with the slides renderer. */
  function SlidesEnv<S>(paths: HtmlSlidesRenderer.SlidesPaths, env: DirectFlowGenerator.Env<S>): DirectFlowGenerator.Env<S>
  {
    env.(render := SlidesRender(paths, env.render))
  }

  /** The slides renderer writes a slide as its content in a `section`. */
  lemma SlidesRenderSlide<S>(paths: HtmlSlidesRenderer.SlidesPaths, env: DirectFlowGenerator.Env<S>,
                             st: DirectFlowGenerator.GenState<S>, content: string)
    ensures DirectFlowGenerator.Render(SlidesEnv(paths, env), st, WriteSlide(content))
      == Done(st, "<section>" + content + "</section>")
  {
    var e := SlidesEnv(paths, env);
    assert e.render(st.world, WriteSlide(content)) == SlidesAnswer(paths, env.render, st.world, WriteSlide(content));
  }

  /** The root call answered by the slides renderer is the page, or the error of the page. */
  lemma SlidesRootAnswer<S>(paths: HtmlSlidesRenderer.SlidesPaths, env: DirectFlowGenerator.Env<S>,
                            st: DirectFlowGenerator.GenState<S>, content: string, info: Option<DocumentInfo>)
    ensures var page := HtmlSlidesRenderer.Page(content, paths, info);
      SlidesEnv(paths, env).render(st.world, WriteRoot(content, info))
        == if page.Err? then Threw(page.error) else Done(st.world, page.value)
  {
    var c := WriteRoot(content, info);
    var e := SlidesEnv(paths, env);
    assert e.render == SlidesRender(paths, env.render);
    assert e.render(st.world, c) == SlidesAnswer(paths, env.render, st.world, c);
  }

  /** The slides renderer writes the root as the page, which throws without document information. */
  lemma SlidesRenderRoot<S>(paths: HtmlSlidesRenderer.SlidesPaths, env: DirectFlowGenerator.Env<S>,
                            st: DirectFlowGenerator.GenState<S>, content: string, info: Option<DocumentInfo>)
    ensures info.None? ==>
      DirectFlowGenerator.Render(SlidesEnv(paths, env), st, WriteRoot(content, info)) == Threw(UndefinedRead("language"))
    ensures info.Some? ==>
      DirectFlowGenerator.Render(SlidesEnv(paths, env), st, WriteRoot(content, info))
        == Done(st, HtmlSlidesRenderer.Page(content, paths, info).value)
  {
    SlidesRootAnswer(paths, env, st, content, info);
    assert st.(world := st.world) == st;
  }

  /** With the slides renderer, a slide is its flow in a `section`, never empty. */
  lemma SlideIsSection<S>(d: DirectFlowGenerator.Dialect, paths: HtmlSlidesRenderer.SlidesPaths,
                          env: DirectFlowGenerator.Env<S>, st: DirectFlowGenerator.GenState<S>, contents: seq<Node>)
    ensures var e := SlidesEnv(paths, env);
      DirectFlowGenerator.Flow(d, e, st, contents).Done? ==>
        SlideNodeSpec(d, e, st, Slide(contents))
          == Done(DirectFlowGenerator.Flow(d, e, st, contents).state,
                  "<section>" + DirectFlowGenerator.Flow(d, e, st, contents).value + "</section>")
  {
    var e := SlidesEnv(paths, env);
    var f := DirectFlowGenerator.Flow(d, e, st, contents);
    if f.Done? {
      SlidesRenderSlide(paths, env, f.state, f.value);
    }
  }

  /**
   * As written the generator hands the root writer no document information,
   * and the slides renderer throws reading its language: no deck is ever
   * generated, whatever the tree.
   */
  lemma AsWrittenNeverGenerates<S>(d: DirectFlowGenerator.Dialect, paths: HtmlSlidesRenderer.SlidesPaths,
                                   env: DirectFlowGenerator.Env<S>, st: DirectFlowGenerator.GenState<S>, ast: Option<Root>)
    ensures GenerateSpec(d, SlidesEnv(paths, env), st, ast, None).Threw?
    ensures CheckTree(ast).None? && SlidesFlow(d, SlidesEnv(paths, env), st, Slides(ast.value.v)).Done? ==>
      GenerateSpec(d, SlidesEnv(paths, env), st, ast, None) == Threw(UndefinedRead("language"))
  {
    if CheckTree(ast).None? {
      var f := SlidesFlow(d, SlidesEnv(paths, env), st, Slides(ast.value.v));
      if f.Done? {
        SlidesRenderRoot(paths, env, f.state, f.value, None);
      }
    }
  }

  /**
   * With the information set, a well-formed tree whose slides all render
   * gives the page around them, titled from the flow and with no language.
   */
  lemma CorrectedGenerates<S>(d: DirectFlowGenerator.Dialect, paths: HtmlSlidesRenderer.SlidesPaths,
                              env: DirectFlowGenerator.Env<S>, st: DirectFlowGenerator.GenState<S>, ast: Root)
    requires CheckTree(Some(ast)).None?
    requires SlidesFlow(d, SlidesEnv(paths, env), st, Slides(ast.v)).Done?
    ensures GenerateCorrectedSpec(d, SlidesEnv(paths, env), st, Some(ast))
      == Done(SlidesFlow(d, SlidesEnv(paths, env), st, Slides(ast.v)).state,
              HtmlSlidesRenderer.PageWith("", SlidesFlow(d, SlidesEnv(paths, env), st, Slides(ast.v)).value, paths,
                Some(DirectFlowGenerator.Title(SlidesTransformer.Flatten(SlidesTransformer.SplitSlides(ast.v))))))
  {
    SlidesTitleIsFlowTitle(ast.v);
    var f := SlidesFlow(d, SlidesEnv(paths, env), st, Slides(ast.v));
    var info := ExtractSemanticInfo(Slides(ast.v));
    SlidesRenderRoot(paths, env, f.state, f.value, Some(info));
    assert HtmlTufteRenderer.LangAttribute(info.language) == "";
  }

  /** The loop of `generateStart`, on the directly flowing generator `g` that renders each slide. */
  method GenerateSlides<S>(g: DirectFlowGenerator.DirectFlowGenerator<S>, ns: seq<Node>) returns (r: Result<string>)
    modifies g
    ensures g.Reached(r, SlidesFlow(g.dialect, g.env, old(g.State()), ns))
    ensures g.docInfo == old(g.docInfo)
  {
    ghost var st0 := g.State();
    var flow := "";
    for i := 0 to |ns|
      invariant SlidesFlow(g.dialect, g.env, st0, ns[..i]) == Done(g.State(), flow)
      invariant g.docInfo == old(g.docInfo)
    {
      assert ns[..i + 1][..i] == ns[..i];
      var n := ns[i];
      if !n.Slide? {
        SlidesFlowPrefixThrows(g.dialect, g.env, st0, ns, i + 1);
        return Err(DirectFlowGenerator.UnrecognizedNode(Tag(n)));
      }
      var contents := g.GenerateFlow(n.contents);
      if contents.Err? {
        SlidesFlowPrefixThrows(g.dialect, g.env, st0, ns, i + 1);
        return Err(contents.error);
      }
      var out := g.Call(WriteSlide(contents.value));
      if out.Err? || out.value == "" {
        SlidesFlowPrefixThrows(g.dialect, g.env, st0, ns, i + 1);
        return if out.Err? then Err(out.error) else Err(DID_NOT_RENDER);
      }
      flow := flow + out.value;
    }
    assert ns[..|ns|] == ns;
    r := Ok(flow);
  }

  class HtmlSlidesGenerator<!S> {
    /** The directly flowing generator this one extends, with its renderer, evaluator and fields. */
    const generator: DirectFlowGenerator.DirectFlowGenerator<S>

    constructor(generator: DirectFlowGenerator.DirectFlowGenerator<S>)
      ensures this.generator == generator
    {
      this.generator := generator;
    }

    /** `generateStart`: the slides, then the root writer with the `docInfo` field as it stands. */
    method GenerateStart(ns: seq<Node>) returns (r: Result<string>)
      modifies generator
      ensures generator.Reached(r, StartSpec(generator.dialect, generator.env, old(generator.State()), ns, old(generator.docInfo)))
      ensures generator.docInfo == old(generator.docInfo)
    {
      var flow := GenerateSlides(generator, ns);
      if flow.Err? {
        return Err(flow.error);
      }
      r := generator.Call(WriteRoot(flow.value, generator.docInfo));
    }

    /** `generate`: the checks, the slides transformation and the start node; the document information is left as it is. */
    method Generate(ast: Option<Root>) returns (r: Result<string>)
      modifies generator
      ensures generator.Reached(r, GenerateSpec(generator.dialect, generator.env, old(generator.State()), ast, old(generator.docInfo)))
      ensures generator.docInfo == old(generator.docInfo)
    {
      if ast.None? || ast.value.t != START {
        return Err(NULL_OR_MALFORMED);
      }
      if |ast.value.v| == 0 {
        return Err(DirectFlowGenerator.MALFORMED_AST);
      }
      var transformed, slides := SlidesTransformer.Transform(ast.value);
      r := GenerateStart(transformed.v);
    }
  }
}

/**
 * The first reveal.js generator: it holds a directly flowing generator of
 * the older kind to render each slide's flow, computes the title of the
 * slides before rendering them, and writes the page with it.
 */
module HtmlSlidesGeneratorOld {
  import opened Wrappers
  import opened Ast
  import opened Rendering
  import DirectFlowGenerator
  import SlidesTransformer
  import HtmlSlidesGenerator

  /** `generateStart` as written: the information first, which may throw, then the slides and the root writer. */
  function StartSpec<S>(env: DirectFlowGenerator.Env<S>, st: DirectFlowGenerator.GenState<S>, ns: seq<Node>)
    : Step<DirectFlowGenerator.GenState<S>, string>
  {
    match HtmlSlidesGenerator.ExtractSemanticInfoAsWritten(ns)
    case Err(e) => Threw(e)
    case Ok(info) => HtmlSlidesGenerator.StartSpec(DirectFlowGenerator.OLDER, env, st, ns, Some(info))
  }

  /** `generateStart` with the corrected information, which always has a title. */
  function StartCorrectedSpec<S>(env: DirectFlowGenerator.Env<S>, st: DirectFlowGenerator.GenState<S>, ns: seq<Node>)
    : Step<DirectFlowGenerator.GenState<S>, string>
  {
    HtmlSlidesGenerator.StartSpec(DirectFlowGenerator.OLDER, env, st, ns, Some(HtmlSlidesGenerator.ExtractSemanticInfo(ns)))
  }

  function GenerateSpec<S>(env: DirectFlowGenerator.Env<S>, st: DirectFlowGenerator.GenState<S>, ast: Option<Root>)
    : Step<DirectFlowGenerator.GenState<S>, string>
  {
    var check := HtmlSlidesGenerator.CheckTree(ast);
    if check.Some? then Threw(check.value)
    else StartSpec(env, st, HtmlSlidesGenerator.Slides(ast.value.v))
  }

  /**
   * As written, a deck without a level-1 heading throws before a single
   * slide is rendered; the corrected generator renders it as "Untitled".
   */
  lemma AsWrittenUntitledDeckThrows<S>(env: DirectFlowGenerator.Env<S>, st: DirectFlowGenerator.GenState<S>, ss: seq<seq<Node>>)
    requires forall k, j :: 0 <= k < |ss| && 0 <= j < |ss[k]| ==> !IsLevelOneHeading(ss[k][j])
    ensures StartSpec(env, st, SlidesTransformer.SlideNodes(ss)) == Threw(UndefinedRead("v"))
    ensures StartCorrectedSpec(env, st, SlidesTransformer.SlideNodes(ss))
      == HtmlSlidesGenerator.StartSpec(DirectFlowGenerator.OLDER, env, st, SlidesTransformer.SlideNodes(ss),
           Some(DocumentInfo(Some(UNTITLED), None, None, None)))
  {
    var nodes := SlidesTransformer.SlideNodes(ss);
    forall k | 0 <= k < |nodes|
      ensures !HtmlSlidesGenerator.HasTitle(nodes[k])
    {
      assert nodes[k] == Slide(ss[k]);
    }
  }

  /** Whenever a slide has a level-1 heading, the generator as written and the corrected one agree. */
  lemma AsWrittenAgreesWhenTitled<S>(env: DirectFlowGenerator.Env<S>, st: DirectFlowGenerator.GenState<S>, ns: seq<Node>)
    requires exists k :: 0 <= k < |ns| && HtmlSlidesGenerator.HasTitle(ns[k])
    ensures StartSpec(env, st, ns) == StartCorrectedSpec(env, st, ns)
  {
    HtmlSlidesGenerator.ExtractAsWrittenAgrees(ns);
  }

  class HtmlSlidesGeneratorOld<!S> {
    /** The directly flowing generator that renders each slide's flow; it shares this generator's renderer. */
    const generator: DirectFlowGenerator.DirectFlowGenerator<S>

    constructor(generator: DirectFlowGenerator.DirectFlowGenerator<S>)
      requires generator.dialect == DirectFlowGenerator.OLDER
      ensures this.generator == generator
    {
      this.generator := generator;
    }

    method GenerateStart(ns: seq<Node>) returns (r: Result<string>)
      requires generator.dialect == DirectFlowGenerator.OLDER
      modifies generator
      ensures generator.Reached(r, StartSpec(generator.env, old(generator.State()), ns))
    {
      var info := HtmlSlidesGenerator.ExtractSemanticInfoAsWritten(ns);
      if info.Err? {
        return Err(info.error);
      }
      var flow := HtmlSlidesGenerator.GenerateSlides(generator, ns);
      if flow.Err? {
        return Err(flow.error);
      }
      r := generator.Call(WriteRoot(flow.value, Some(info.value)));
    }

    method Generate(ast: Option<Root>) returns (r: Result<string>)
      requires generator.dialect == DirectFlowGenerator.OLDER
      modifies generator
      ensures generator.Reached(r, GenerateSpec(generator.env, old(generator.State()), ast))
    {
      if ast.None? || ast.value.t != START {
        return Err(HtmlSlidesGenerator.NULL_OR_MALFORMED);
      }
      if |ast.value.v| == 0 {
        return Err(DirectFlowGenerator.MALFORMED_AST);
      }
      var transformed, slides := SlidesTransformer.Transform(ast.value);
      r := GenerateStart(transformed.v);
    }
  }
}
