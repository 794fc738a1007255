/**
 * The first, functional generator: a document tree `start` whose components
 * are headings, paragraphs and code blocks, turned into one string by a
 * template of writer functions. Each component is dispatched on its type and
 * written; the outputs are concatenated in order and handed to the root
 * writer. The first component that cannot be written ends the generation.
 */
module FunctionalGenerator {
  import opened Wrappers
  import opened Rendering

  /** An inline element of a paragraph: its type and its text. */
  datatype Inline = Inline(t: string, v: string)

  /** A top-level component of the tree; `OtherComponent` is a component of any other type, without a value. */
  datatype Component =
    | HeadingComponent(text: string, level: int)
    | ParagraphComponent(elements: seq<Inline>)
    | CodeblockComponent(text: string)
    | OtherComponent(t: string)

  /** The tree: its type, which must be "start", and its components. */
  datatype Tree = Tree(t: string, v: seq<Component>)

  /**
   * The template. The root and heading writers are always present; a
   * template may lack the paragraph or the code block writer.
   */
  datatype Template = Template(
    rootWriter: string -> string,
    headingWriter: (string, int) -> Result<string>,
    paragraphWriter: Option<seq<Inline> -> Result<string>>,
    codeblockWriter: Option<string -> string>)

  const START := "start"
  const HEADING := "heading"
  const PARAGRAPH := "paragraph"

  /**
   * The node type the dispatch compares code blocks against. The constants
   * the generator imports define no code block type, so as written the case
   * compares against `undefined`, which no component type equals.
   */
  const CODEBLOCK_AS_WRITTEN: Option<string> := None

  /** The code block type the dispatch was evidently meant to recognise. */
  const CODEBLOCK: Option<string> := Some("codeblock")

  const NULL_AST := "AST cannot be null, undefined or empty"
  const MISSING_TEMPLATE := "Missing template"
  const MALFORMED_AST := "Malformed AST"

  function UnrecognizedNode(t: string): string
  {
    "Unrecognized node type'" + t + "'"
  }

  /** What JavaScript throws when a missing writer of the template is called. */
  function NotAFunction(writer: string): string
  {
    "template." + writer + " is not a function"
  }

  function Tag(c: Component): string
  {
    match c
    case HeadingComponent(_, _) => HEADING
    case ParagraphComponent(_) => PARAGRAPH
    case CodeblockComponent(_) => "codeblock"
    case OtherComponent(t) => t
  }

  /** The writer a component type is dispatched to. */
  datatype Handler = HeadingHandler | ParagraphHandler | CodeblockHandler

  /**
   * `getRootNodeGeneratorFunction`: headings and paragraphs, then code blocks
   * when their type is `codeblockType`; any other type throws.
   */
  function Dispatch(codeblockType: Option<string>, t: string): (r: Result<Handler>)
    ensures r == Ok(HeadingHandler) <==> t == HEADING
    ensures r == Ok(ParagraphHandler) <==> t == PARAGRAPH
    ensures r == Ok(CodeblockHandler) <==> t != HEADING && t != PARAGRAPH && codeblockType == Some(t)
    ensures r.Err? ==> r.error == UnrecognizedNode(t)
  {
    if t == HEADING then Ok(HeadingHandler)
    else if t == PARAGRAPH then Ok(ParagraphHandler)
    else if codeblockType == Some(t) then Ok(CodeblockHandler)
    else Err(UnrecognizedNode(t))
  }

  /** The code block writer applied to `text`, or the error of calling a missing one. */
  function CallCodeblockWriter(tpl: Template, text: string): Result<string>
  {
    if tpl.codeblockWriter.None? then Err(NotAFunction("codeblockWriter")) else Ok(tpl.codeblockWriter.value(text))
  }

  /**
   * One component written by the writer its type is dispatched to. A
   * component of another type carries no value: the heading and paragraph
   * writers throw reading it, the code block writer prints it as "undefined".
   */
  function WriteComponent(codeblockType: Option<string>, tpl: Template, c: Component): Result<string>
  {
    match Dispatch(codeblockType, Tag(c))
    case Err(e) => Err(e)
    case Ok(h) =>
      match c
      case HeadingComponent(text, level) => tpl.headingWriter(text, level)
      case ParagraphComponent(es) =>
        if tpl.paragraphWriter.None? then Err(NotAFunction("paragraphWriter")) else tpl.paragraphWriter.value(es)
      case CodeblockComponent(text) => CallCodeblockWriter(tpl, text)
      case OtherComponent(_) =>
        if h == CodeblockHandler then CallCodeblockWriter(tpl, Show(None)) else Err(UndefinedRead("v"))
  }

  /** The flow: the written components concatenated in order, or the first error. */
  function Flow(codeblockType: Option<string>, tpl: Template, cs: seq<Component>): Result<string>
  {
    if |cs| == 0 then Ok("")
    else
      match WriteComponent(codeblockType, tpl, cs[0])
      case Err(e) => Err(e)
      case Ok(head) =>
        match Flow(codeblockType, tpl, cs[1..])
        case Err(e) => Err(e)
        case Ok(tail) => Ok(head + tail)
  }

  /** `checkAst`: the tree is a `start` with at least one component. */
  predicate CheckAst(ast: Tree)
  {
    ast.t == START && |ast.v| > 0
  }

  /** `generate`, with the dispatch comparing code blocks against `codeblockType`. */
  function Generate(codeblockType: Option<string>, ast: Option<Tree>, tpl: Option<Template>): Result<string>
  {
    if ast.None? then Err(NULL_AST)
    else if tpl.None? then Err(MISSING_TEMPLATE)
    else if !CheckAst(ast.value) then Err(MALFORMED_AST)
    else
      match Flow(codeblockType, tpl.value, ast.value.v)
      case Err(e) => Err(e)
      case Ok(flow) => Ok(tpl.value.rootWriter(flow))
  }

  /** The flow of `a + b` is that of `a`, then that of `b`; the first error wins. */
  predicate FlowAppends(codeblockType: Option<string>, tpl: Template, a: seq<Component>, b: seq<Component>)
  {
    var fa := Flow(codeblockType, tpl, a);
    var fb := Flow(codeblockType, tpl, b);
    var fab := Flow(codeblockType, tpl, a + b);
    (fa.Err? ==> fab == fa)
    && (fa.Ok? && fb.Err? ==> fab == fb)
    && (fa.Ok? && fb.Ok? ==> fab == Ok(fa.value + fb.value))
  }

  /** The law for a run with one more component in front. */
  lemma FlowAppendsCons(codeblockType: Option<string>, tpl: Template, c: Component, t: seq<Component>, b: seq<Component>)
    requires FlowAppends(codeblockType, tpl, t, b)
    ensures FlowAppends(codeblockType, tpl, [c] + t, b)
  {
    var a := [c] + t;
    assert a[0] == c && a[1..] == t;
    var ab := a + b;
    assert ab[0] == c && ab[1..] == t + b;
    var h := WriteComponent(codeblockType, tpl, c);
    var ra := Flow(codeblockType, tpl, t);
    var rb := Flow(codeblockType, tpl, b);
    if h.Ok? && ra.Ok? && rb.Ok? {
      assert h.value + (ra.value + rb.value) == (h.value + ra.value) + rb.value;
    }
  }

  /** The flow of two runs of components is the flow of the first, then of the second; the first error wins. */
  lemma {:induction false} FlowAppend(codeblockType: Option<string>, tpl: Template, a: seq<Component>, b: seq<Component>)
    ensures Flow(codeblockType, tpl, a).Err? ==> Flow(codeblockType, tpl, a + b) == Flow(codeblockType, tpl, a)
    ensures Flow(codeblockType, tpl, a).Ok? && Flow(codeblockType, tpl, b).Err? ==>
      Flow(codeblockType, tpl, a + b) == Flow(codeblockType, tpl, b)
    ensures Flow(codeblockType, tpl, a).Ok? && Flow(codeblockType, tpl, b).Ok? ==>
      Flow(codeblockType, tpl, a + b) == Ok(Flow(codeblockType, tpl, a).value + Flow(codeblockType, tpl, b).value)
  {
    if |a| == 0 {
      assert a + b == b;
      var rb := Flow(codeblockType, tpl, b);
      if rb.Ok? {
        assert "" + rb.value == rb.value;
      }
    } else {
      FlowAppend(codeblockType, tpl, a[1..], b);
      FlowAppendsCons(codeblockType, tpl, a[0], a[1..], b);
      assert [a[0]] + a[1..] == a;
    }
  }

  /** A single component flows to exactly what its writer gives. */
  lemma FlowSingle(codeblockType: Option<string>, tpl: Template, c: Component)
    ensures Flow(codeblockType, tpl, [c]) == WriteComponent(codeblockType, tpl, c)
  {
    assert [c][1..] == [];
    var h := WriteComponent(codeblockType, tpl, c);
    if h.Ok? {
      assert h.value + "" == h.value;
    }
  }

  /**
   * The flow succeeds exactly when every component can be written; when it
   * fails, the error is that of the first component that cannot.
   */
  lemma {:induction false} FlowFirstError(codeblockType: Option<string>, tpl: Template, cs: seq<Component>)
    ensures Flow(codeblockType, tpl, cs).Ok? <==> forall i :: 0 <= i < |cs| ==> WriteComponent(codeblockType, tpl, cs[i]).Ok?
    ensures Flow(codeblockType, tpl, cs).Err? ==>
      exists i :: 0 <= i < |cs| && WriteComponent(codeblockType, tpl, cs[i]) == Flow(codeblockType, tpl, cs)
        && forall j :: 0 <= j < i ==> WriteComponent(codeblockType, tpl, cs[j]).Ok?
  {
    if |cs| > 0 {
      FlowFirstError(codeblockType, tpl, cs[1..]);
      var h := WriteComponent(codeblockType, tpl, cs[0]);
      if h.Err? {
        assert WriteComponent(codeblockType, tpl, cs[0]) == Flow(codeblockType, tpl, cs);
      } else {
        if Flow(codeblockType, tpl, cs[1..]).Err? {
          var i :| 0 <= i < |cs[1..]| && WriteComponent(codeblockType, tpl, cs[1..][i]) == Flow(codeblockType, tpl, cs[1..])
            && forall j :: 0 <= j < i ==> WriteComponent(codeblockType, tpl, cs[1..][j]).Ok?;
          assert WriteComponent(codeblockType, tpl, cs[i + 1]) == Flow(codeblockType, tpl, cs);
          forall j | 0 <= j < i + 1
            ensures WriteComponent(codeblockType, tpl, cs[j]).Ok?
          {
            if j > 0 { assert cs[j] == cs[1..][j - 1]; }
          }
        } else {
          forall i | 0 <= i < |cs|
            ensures WriteComponent(codeblockType, tpl, cs[i]).Ok?
          {
            if i > 0 { assert cs[i] == cs[1..][i - 1]; }
          }
        }
      }
    }
  }

  /**
   * The checks come in order: a missing tree, a missing template, a
   * malformed tree; then the generation succeeds exactly when every
   * component can be written, and the output is the root around the flow.
   */
  lemma GenerateOutcome(codeblockType: Option<string>, ast: Option<Tree>, tpl: Option<Template>)
    ensures ast.None? ==> Generate(codeblockType, ast, tpl) == Err(NULL_AST)
    ensures ast.Some? && tpl.None? ==> Generate(codeblockType, ast, tpl) == Err(MISSING_TEMPLATE)
    ensures ast.Some? && tpl.Some? && !CheckAst(ast.value) ==> Generate(codeblockType, ast, tpl) == Err(MALFORMED_AST)
    ensures ast.Some? && tpl.Some? && CheckAst(ast.value) ==>
      (Generate(codeblockType, ast, tpl).Ok? <==>
        forall i :: 0 <= i < |ast.value.v| ==> WriteComponent(codeblockType, tpl.value, ast.value.v[i]).Ok?)
    ensures Generate(codeblockType, ast, tpl).Ok? ==>
      Generate(codeblockType, ast, tpl).value == tpl.value.rootWriter(Flow(codeblockType, tpl.value, ast.value.v).value)
  {
    if ast.Some? && tpl.Some? {
      FlowFirstError(codeblockType, tpl.value, ast.value.v);
    }
  }

  /** A component of a type that is not dispatched ends the generation with the unrecognised-type error. */
  lemma UnrecognizedComponent(codeblockType: Option<string>, tpl: Template, c: Component)
    requires Tag(c) != HEADING && Tag(c) != PARAGRAPH && codeblockType != Some(Tag(c))
    ensures Generate(codeblockType, Some(Tree(START, [c])), Some(tpl)) == Err(UnrecognizedNode(Tag(c)))
  {
    FlowSingle(codeblockType, tpl, c);
  }

  /**
   * As written, a code block is never dispatched: generating a tree holding
   * one throws the unrecognised-type error, whatever the template.
   */
  lemma AsWrittenCodeblockUnrecognized(tpl: Template, text: string)
    ensures Generate(CODEBLOCK_AS_WRITTEN, Some(Tree(START, [CodeblockComponent(text)])), Some(tpl))
      == Err(UnrecognizedNode("codeblock"))
  {
    UnrecognizedComponent(CODEBLOCK_AS_WRITTEN, tpl, CodeblockComponent(text));
  }

  /** With the code block type defined, a code block is written by the template's code block writer. */
  lemma CodeblockWritten(tpl: Template, text: string)
    requires tpl.codeblockWriter.Some?
    ensures Generate(CODEBLOCK, Some(Tree(START, [CodeblockComponent(text)])), Some(tpl))
      == Ok(tpl.rootWriter(tpl.codeblockWriter.value(text)))
  {
    FlowSingle(CODEBLOCK, tpl, CodeblockComponent(text));
  }

  /** A template without a paragraph writer fails on the first paragraph it reaches. */
  lemma MissingParagraphWriter(codeblockType: Option<string>, tpl: Template, es: seq<Inline>)
    requires tpl.paragraphWriter.None?
    ensures Generate(codeblockType, Some(Tree(START, [ParagraphComponent(es)])), Some(tpl))
      == Err(NotAFunction("paragraphWriter"))
  {
    FlowSingle(codeblockType, tpl, ParagraphComponent(es));
  }
}
