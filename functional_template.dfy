/**
 * The HTML Tufte template of the functional generator: the root in `body`
 * and `article`, headings chosen from `h1`..`h6`, paragraphs of text, italic,
 * bold and inline code, and preformatted code blocks.
 */
module FunctionalTemplate {
  import opened Wrappers
  import opened Text
  import opened Rendering
  import HtmlTufteRenderer
  import FunctionalGenerator

  /** `writeRoot`: the content inside `body` and `article`. */
  function WriteRoot(content: string): (r: string)
    ensures r == "<body><article>" + content + "</article></body>"
  {
    ConcatAround(["<body>", "<article>"], content, ["</article>", "</body>"]);
    ConcatTwo("<body>", "<article>");
    ConcatTwo("</article>", "</body>");
    Concat(["<body>", "<article>"] + [content] + ["</article>", "</body>"])
  }

  /**
   * The tag `writeHeading` picks: the entry `min(level + 1, 6)` of `h1`..`h6`,
   * which is `undefined` outside the table.
   */
  function HeadingTagAsWritten(level: int): Option<string>
  {
    var i := if level + 1 < |HtmlTufteRenderer.HEADING_TAGS| then level + 1 else |HtmlTufteRenderer.HEADING_TAGS|;
    if 0 <= i < |HtmlTufteRenderer.HEADING_TAGS| then Some(HtmlTufteRenderer.HEADING_TAGS[i]) else None
  }

  /** `writeHeading` as written: the text between the picked tags, with no check of the level. */
  function WriteHeadingAsWritten(text: string, level: int): string
  {
    var tag := Show(HeadingTagAsWritten(level));
    Concat(["<" + tag + ">", text, "</" + tag + ">"])
  }

  /**
   * As written, a heading is two levels deeper than its level: levels 1 to 4
   * give `h3` to `h6`, and levels from 5 on, or below -1, give the tag
   * `undefined`.
   */
  lemma AsWrittenHeadingTwoLevelsDeeper(text: string, level: int)
    ensures 1 <= level <= 4 ==>
      WriteHeadingAsWritten(text, level)
        == "<h" + NatToString(level + 2) + ">" + text + "</h" + NatToString(level + 2) + ">"
    ensures level == 1 ==> WriteHeadingAsWritten(text, level) == "<h3>" + text + "</h3>"
    ensures (level >= 5 || level < -1) ==> WriteHeadingAsWritten(text, level) == "<undefined>" + text + "</undefined>"
  {
    ConcatThree("<" + Show(HeadingTagAsWritten(level)) + ">", text, "</" + Show(HeadingTagAsWritten(level)) + ">");
    if 1 <= level <= 4 {
      HtmlTufteRenderer.HeadingTagIsLevel(level + 2);
      var n := NatToString(level + 2);
      assert "<" + ("h" + n) + ">" == "<h" + n + ">";
      assert "</" + ("h" + n) + ">" == "</h" + n + ">";
    }
    if level == 1 {
      assert NatToString(3) == "3";
    }
  }

  /**
   * No heading of a valid level comes out as intended: the level-checked
   * writer gives `h<level>`, the writer as written another tag.
   */
  lemma AsWrittenHeadingNeverAtItsLevel(text: string, level: int)
    requires 1 <= level <= 6
    ensures HtmlTufteRenderer.WriteHeading(text, level).Ok?
    ensures WriteHeadingAsWritten(text, level) != HtmlTufteRenderer.WriteHeading(text, level).value
  {
    HtmlTufteRenderer.HeadingLevels(text, level);
    AsWrittenHeadingTwoLevelsDeeper(text, level);
    var intended := HtmlTufteRenderer.WriteHeading(text, level).value;
    var d := NatToString(level);
    assert d == [DigitChar(level)];
    assert intended[2] == DigitChar(level);
    var written := WriteHeadingAsWritten(text, level);
    if level <= 4 {
      var e := NatToString(level + 2);
      assert e == [DigitChar(level + 2)];
      assert written[2] == DigitChar(level + 2);
    } else {
      assert written[2] == 'n';
    }
  }

  const PAR_TEXT := "text"
  const PAR_ITALIC := "italic"
  const PAR_BOLD := "bold"
  const PAR_CODEINLINE := "codeinline"

  function UnrecognizedElement(t: string): string
  {
    "Unrecognized par element type '" + t + "'"
  }

  predicate KnownInline(t: string)
  {
    t == PAR_TEXT || t == PAR_ITALIC || t == PAR_BOLD || t == PAR_CODEINLINE
  }

  /** One inline element written by the renderer of its type; an unknown type throws. */
  function WriteInline(e: FunctionalGenerator.Inline): (r: Result<string>)
    ensures r.Ok? <==> KnownInline(e.t)
    ensures r.Err? ==> r.error == UnrecognizedElement(e.t)
    ensures e.t == PAR_TEXT ==> r == Ok(e.v)
  {
    if e.t == PAR_TEXT then Ok(e.v)
    else if e.t == PAR_ITALIC then Ok("<em>" + e.v + "</em>")
    else if e.t == PAR_BOLD then Ok("<strong>" + e.v + "</strong>")
    else if e.t == PAR_CODEINLINE then Ok("<code>" + e.v + "</code>")
    else Err(UnrecognizedElement(e.t))
  }

  /** The written elements joined by "", or the error of the first one that cannot be written. */
  function InlineContent(es: seq<FunctionalGenerator.Inline>): Result<string>
  {
    if |es| == 0 then Ok("")
    else
      match WriteInline(es[0])
      case Err(e) => Err(e)
      case Ok(head) =>
        match InlineContent(es[1..])
        case Err(e) => Err(e)
        case Ok(tail) => Ok(head + tail)
  }

  /** `writeParagraph`: the content inside `p`. */
  function WriteParagraph(es: seq<FunctionalGenerator.Inline>): Result<string>
  {
    match InlineContent(es)
    case Err(e) => Err(e)
    case Ok(content) => Ok("<p>" + content + "</p>")
  }

  /**
   * A paragraph is written exactly when all its elements have a known type;
   * otherwise the error names the first element of an unknown type.
   */
  lemma {:induction false} ParagraphFirstUnknownElement(es: seq<FunctionalGenerator.Inline>)
    ensures WriteParagraph(es).Ok? <==> forall i :: 0 <= i < |es| ==> KnownInline(es[i].t)
    ensures WriteParagraph(es).Err? ==>
      exists i :: 0 <= i < |es| && WriteParagraph(es).error == UnrecognizedElement(es[i].t)
        && !KnownInline(es[i].t) && forall j :: 0 <= j < i ==> KnownInline(es[j].t)
  {
    if |es| > 0 {
      ParagraphFirstUnknownElement(es[1..]);
      if KnownInline(es[0].t) {
        if InlineContent(es[1..]).Err? {
          var i :| 0 <= i < |es[1..]| && WriteParagraph(es[1..]).error == UnrecognizedElement(es[1..][i].t)
            && !KnownInline(es[1..][i].t) && forall j :: 0 <= j < i ==> KnownInline(es[1..][j].t);
          assert es[i + 1] == es[1..][i];
          forall j | 0 <= j < i + 1
            ensures KnownInline(es[j].t)
          {
            if j > 0 { assert es[j] == es[1..][j - 1]; }
          }
        } else {
          forall i | 0 <= i < |es|
            ensures KnownInline(es[i].t)
          {
            if i > 0 { assert es[i] == es[1..][i - 1]; }
          }
        }
      }
    }
  }

  /** The texts of the elements, in order. */
  function Texts(es: seq<FunctionalGenerator.Inline>): (r: seq<string>)
    ensures |r| == |es|
  {
    if |es| == 0 then [] else [es[0].v] + Texts(es[1..])
  }

  /** A paragraph of plain text elements is their texts joined by "", inside `p`. */
  lemma {:induction false} PlainTextParagraph(es: seq<FunctionalGenerator.Inline>)
    requires forall i :: 0 <= i < |es| ==> es[i].t == PAR_TEXT
    ensures InlineContent(es) == Ok(Concat(Texts(es)))
    ensures WriteParagraph(es) == Ok("<p>" + Concat(Texts(es)) + "</p>")
  {
    if |es| > 0 {
      PlainTextParagraph(es[1..]);
      assert WriteInline(es[0]) == Ok(es[0].v);
      assert Texts(es)[0] == es[0].v;
      assert Texts(es)[1..] == Texts(es[1..]);
    }
  }

  /** `writeCodeblock`: the text in `pre` and `code`, the block the class-based HTML renderer writes without a result. */
  function WriteCodeblock(text: string): (r: string)
    ensures r == "<pre><code>" + text + "</code></pre>"
    ensures r == HtmlTufteRenderer.WriteCodeblock(text, None, None)
  {
    HtmlTufteRenderer.PreCodeText(text);
    HtmlTufteRenderer.CodeblockResultBlock(text, None, None);
    Concat(HtmlTufteRenderer.PreCode(text))
  }

  /** `TEMPLATE`: the four writers; the heading writer never throws. */
  const TEMPLATE := FunctionalGenerator.Template(
    WriteRoot,
    (text: string, level: int) => Ok(WriteHeadingAsWritten(text, level)),
    Some(WriteParagraph),
    Some(WriteCodeblock))

  /** The template with the level-checked heading writer. */
  const CORRECTED_TEMPLATE := TEMPLATE.(headingWriter := HtmlTufteRenderer.WriteHeading)

  /** As written, a document that is one level-1 heading renders it as `h3`. */
  lemma AsWrittenTitleIsH3(text: string)
    ensures FunctionalGenerator.Generate(FunctionalGenerator.CODEBLOCK_AS_WRITTEN,
      Some(FunctionalGenerator.Tree(FunctionalGenerator.START, [FunctionalGenerator.HeadingComponent(text, 1)])),
      Some(TEMPLATE))
      == Ok("<body><article><h3>" + text + "</h3></article></body>")
  {
    var c := FunctionalGenerator.HeadingComponent(text, 1);
    FunctionalGenerator.FlowSingle(FunctionalGenerator.CODEBLOCK_AS_WRITTEN, TEMPLATE, c);
    AsWrittenHeadingTwoLevelsDeeper(text, 1);
    var heading := "<h3>" + text + "</h3>";
    assert TEMPLATE.headingWriter(text, 1) == Ok(heading);
    assert FunctionalGenerator.WriteComponent(FunctionalGenerator.CODEBLOCK_AS_WRITTEN, TEMPLATE, c) == Ok(heading);
    assert TEMPLATE.rootWriter(heading) == WriteRoot(heading);
    assert WriteRoot(heading) == "<body><article>" + heading + "</article></body>";
    assert "<body><article>" + "<h3>" == "<body><article><h3>";
    assert "</h3>" + "</article></body>" == "</h3></article></body>";
    var tree := FunctionalGenerator.Tree(FunctionalGenerator.START, [c]);
    assert FunctionalGenerator.CheckAst(tree);
    assert FunctionalGenerator.Flow(FunctionalGenerator.CODEBLOCK_AS_WRITTEN, TEMPLATE, tree.v) == Ok(heading);
    assert FunctionalGenerator.Generate(FunctionalGenerator.CODEBLOCK_AS_WRITTEN, Some(tree), Some(TEMPLATE))
      == Ok(TEMPLATE.rootWriter(heading));
    assert "<body><article>" + heading + "</article></body>" == "<body><article><h3>" + text + "</h3></article></body>";
  }

  /**
   * With the code block type recognised and the level-checked heading
   * writer, a level-1 heading followed by a code block renders as `h1` and a
   * preformatted block, in order, inside the root.
   */
  lemma CorrectedHeadingAndCodeblock(text: string, src: string)
    ensures FunctionalGenerator.Generate(FunctionalGenerator.CODEBLOCK,
      Some(FunctionalGenerator.Tree(FunctionalGenerator.START,
        [FunctionalGenerator.HeadingComponent(text, 1), FunctionalGenerator.CodeblockComponent(src)])),
      Some(CORRECTED_TEMPLATE))
      == Ok("<body><article><h1>" + text + "</h1><pre><code>" + src + "</code></pre></article></body>")
  {
    var h := FunctionalGenerator.HeadingComponent(text, 1);
    var c := FunctionalGenerator.CodeblockComponent(src);
    var heading := "<h1>" + text + "</h1>";
    var block := "<pre><code>" + src + "</code></pre>";
    CorrectedFlow(text, src);
    var tree := FunctionalGenerator.Tree(FunctionalGenerator.START, [h, c]);
    assert FunctionalGenerator.CheckAst(tree);
    assert FunctionalGenerator.Generate(FunctionalGenerator.CODEBLOCK, Some(tree), Some(CORRECTED_TEMPLATE))
      == Ok(CORRECTED_TEMPLATE.rootWriter(heading + block));
    assert CORRECTED_TEMPLATE.rootWriter(heading + block) == WriteRoot(heading + block);
    HeadingAndCodeblockText(text, src);
  }

  lemma HeadingAndCodeblockText(text: string, src: string)
    ensures WriteRoot(("<h1>" + text + "</h1>") + ("<pre><code>" + src + "</code></pre>"))
      == "<body><article><h1>" + text + "</h1><pre><code>" + src + "</code></pre></article></body>"
  {
    assert "<body><article>" + "<h1>" == "<body><article><h1>";
    assert "</h1>" + "<pre><code>" == "</h1><pre><code>";
    assert "</code></pre>" + "</article></body>" == "</code></pre></article></body>";
  }

  /** The flow of the heading and the code block under the corrected template. */
  lemma CorrectedFlow(text: string, src: string)
    ensures FunctionalGenerator.Flow(FunctionalGenerator.CODEBLOCK, CORRECTED_TEMPLATE,
      [FunctionalGenerator.HeadingComponent(text, 1), FunctionalGenerator.CodeblockComponent(src)])
      == Ok(("<h1>" + text + "</h1>") + ("<pre><code>" + src + "</code></pre>"))
  {
    var h := FunctionalGenerator.HeadingComponent(text, 1);
    var c := FunctionalGenerator.CodeblockComponent(src);
    CorrectedComponents(text, src);
    FunctionalGenerator.FlowSingle(FunctionalGenerator.CODEBLOCK, CORRECTED_TEMPLATE, h);
    FunctionalGenerator.FlowSingle(FunctionalGenerator.CODEBLOCK, CORRECTED_TEMPLATE, c);
    FunctionalGenerator.FlowAppend(FunctionalGenerator.CODEBLOCK, CORRECTED_TEMPLATE, [h], [c]);
    assert [h] + [c] == [h, c];
  }

  /** The two components each written by the corrected template. */
  lemma CorrectedComponents(text: string, src: string)
    ensures FunctionalGenerator.WriteComponent(FunctionalGenerator.CODEBLOCK, CORRECTED_TEMPLATE,
      FunctionalGenerator.HeadingComponent(text, 1)) == Ok("<h1>" + text + "</h1>")
    ensures FunctionalGenerator.WriteComponent(FunctionalGenerator.CODEBLOCK, CORRECTED_TEMPLATE,
      FunctionalGenerator.CodeblockComponent(src)) == Ok("<pre><code>" + src + "</code></pre>")
  {
    HtmlTufteRenderer.HeadingLevels(text, 1);
    assert NatToString(1) == "1";
    assert "<h" + NatToString(1) + ">" + text + "</h" + NatToString(1) + ">" == "<h1>" + text + "</h1>";
    assert CORRECTED_TEMPLATE.headingWriter(text, 1) == HtmlTufteRenderer.WriteHeading(text, 1);
    assert CORRECTED_TEMPLATE.codeblockWriter == Some(WriteCodeblock);
    assert CORRECTED_TEMPLATE.codeblockWriter.value(src) == WriteCodeblock(src);
  }
}

/**
 * The JavaScript twin of the functional template: the same root writer, a
 * heading writer that prefixes the picked tag with a second "h", and no
 * paragraph or code block writer.
 */
module FunctionalTemplateJs {
  import opened Wrappers
  import opened Text
  import opened Rendering
  import FunctionalGenerator
  import FunctionalTemplate

  /** `writeHeading`: the tag is "h" followed by the entry the TypeScript template picks. */
  function WriteHeading(text: string, level: int): string
  {
    var tag := "h" + Show(FunctionalTemplate.HeadingTagAsWritten(level));
    Concat(["<" + tag + ">", text, "</" + tag + ">"])
  }

  /** The tag gets a doubled "h": level 1 gives `hh3`, and levels from 5 on give `hundefined`. */
  lemma AsWrittenDoubledPrefix(text: string, level: int)
    ensures level == 1 ==> WriteHeading(text, level) == "<hh3>" + text + "</hh3>"
    ensures (level >= 5 || level < -1) ==> WriteHeading(text, level) == "<hundefined>" + text + "</hundefined>"
    ensures -1 <= level <= 4 ==> WriteHeading(text, level)[..3] == "<hh"
  {
    var tag := "h" + Show(FunctionalTemplate.HeadingTagAsWritten(level));
    ConcatThree("<" + tag + ">", text, "</" + tag + ">");
  }

  /** `TEMPLATE`: the root and heading writers only. */
  const TEMPLATE := FunctionalGenerator.Template(
    FunctionalTemplate.WriteRoot,
    (text: string, level: int) => Ok(WriteHeading(text, level)),
    None,
    None)

  /** Any document that reaches a paragraph fails with this template: it has no paragraph writer. */
  lemma ParagraphHasNoWriter(codeblockType: Option<string>, es: seq<FunctionalGenerator.Inline>)
    ensures FunctionalGenerator.Generate(codeblockType,
      Some(FunctionalGenerator.Tree(FunctionalGenerator.START, [FunctionalGenerator.ParagraphComponent(es)])),
      Some(TEMPLATE))
      == Err(FunctionalGenerator.NotAFunction("paragraphWriter"))
  {
    FunctionalGenerator.MissingParagraphWriter(codeblockType, TEMPLATE, es);
  }
}
