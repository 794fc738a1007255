/**
 * The renderer of Tufte pages in HTML, whose writers the other HTML
 * renderers share: headings `h1` to `h6`, paragraphs, inline code that
 * shows its result and keeps its source in a tooltip, code blocks with an
 * optional result block, and figures that are either page-wide or carry a
 * margin note toggled by a fresh reference id. The page reads the served
 * style sheets and script, whose serving is outside this model.
 */
module HtmlTufteRenderer {
  import opened Wrappers
  import opened Text
  import opened Rendering
  import Extensions
  import IdGen

  const HEADING_TAGS := ["h1", "h2", "h3", "h4", "h5", "h6"]

  /** A heading in the tag named after `level` in `tags`, or the level error. */
  function Heading(tags: seq<string>, text: string, level: int): (r: Result<string>)
    ensures r.Ok? <==> 1 <= level <= |tags|
    ensures r.Ok? ==> r.value == "<" + tags[level - 1] + ">" + text + "</" + tags[level - 1] + ">"
    ensures r.Err? ==> r.error == InvalidLevel(level, |tags|)
  {
    match LevelName(tags, level)
    case Err(e) => Err(e)
    case Ok(tag) =>
      ConcatThree("<" + tag + ">", text, "</" + tag + ">");
      Ok(Concat(["<" + tag + ">", text, "</" + tag + ">"]))
  }

  function WriteHeading(text: string, level: int): Result<string>
  {
    Heading(HEADING_TAGS, text, level)
  }

  /** The tag of a heading of level 1 to 6 is "h" followed by the level. */
  lemma HeadingTagIsLevel(level: int)
    requires 1 <= level <= 6
    ensures HEADING_TAGS[level - 1] == "h" + NatToString(level)
  {
    assert NatToString(level) == [DigitChar(level)];
    if level == 1 { assert DigitChar(1) == '1'; }
    else if level == 2 { assert DigitChar(2) == '2'; }
    else if level == 3 { assert DigitChar(3) == '3'; }
    else if level == 4 { assert DigitChar(4) == '4'; }
    else if level == 5 { assert DigitChar(5) == '5'; }
    else { assert DigitChar(6) == '6'; }
  }

  /** Levels 1 to 6 give the heading `h<level>` around the text; any other level throws. */
  lemma HeadingLevels(text: string, level: int)
    ensures WriteHeading(text, level).Ok? <==> 1 <= level <= 6
    ensures 1 <= level <= 6 ==>
      WriteHeading(text, level).value == "<h" + NatToString(level) + ">" + text + "</h" + NatToString(level) + ">"
    ensures !(1 <= level <= 6) ==> WriteHeading(text, level) == Err(InvalidLevel(level, 6))
  {
    if 1 <= level <= 6 {
      HeadingTagIsLevel(level);
      var n := NatToString(level);
      assert "<" + ("h" + n) + ">" == "<h" + n + ">";
      assert "</" + ("h" + n) + ">" == "</h" + n + ">";
    }
  }

  function WriteParagraph(content: string): string
  {
    "<p>" + content + "</p>"
  }

  function WriteParagraphBoldText(text: string): string
  {
    "<strong>" + text + "</strong>"
  }

  function WriteParagraphItalicText(text: string): string
  {
    "<em>" + text + "</em>"
  }

  function WriteParagraphEquationInlineText(equation: string): string
  {
    "\\(" + equation + "\\)"
  }

  /**
   * Inline code: with a truthy result, the result in a `code` element whose
   * title names the source; otherwise the source.
   */
  function WriteParagraphCodeInline(src: string, result: Option<string>): (r: string)
    ensures Extensions.Truthy(result) ==> r == "<code title=\"Evaluated from: '" + src + "'\">" + result.value + "</code>"
    ensures !Extensions.Truthy(result) ==> r == "<code>" + src + "</code>"
  {
    if Extensions.Truthy(result) then
      ConcatThree("<code title=\"Evaluated from: '" + src + "'\">", result.value, "</code>");
      Concat(["<code title=\"Evaluated from: '" + src + "'\">", result.value, "</code>"])
    else
      ConcatThree("<code>", src, "</code>");
      Concat(["<code>", src, "</code>"])
  }

  /** The five parts of a preformatted code element holding `text`. */
  function PreCode(text: string): seq<string>
  {
    ["<pre>", "<code>", text, "</code>", "</pre>"]
  }

  /** The parts of a code block: the source block, then five parts that are empty unless the result is truthy. */
  function CodeblockParts(src: string, result: Option<string>): (r: seq<string>)
    ensures |r| == 10
  {
    PreCode(src) + (if Extensions.Truthy(result) then PreCode(result.value) else ["", "", "", "", ""])
  }

  function WriteCodeblock(src: string, result: Option<string>, outputType: Option<string>): string
  {
    Concat(CodeblockParts(src, result))
  }

  lemma PreCodeText(text: string)
    ensures Concat(PreCode(text)) == "<pre><code>" + text + "</code></pre>"
  {
    assert PreCode(text) == ["<pre>", "<code>"] + [text] + ["</code>", "</pre>"];
    ConcatAround(["<pre>", "<code>"], text, ["</code>", "</pre>"]);
    ConcatTwo("<pre>", "<code>");
    ConcatTwo("</code>", "</pre>");
  }

  /**
   * A code block is the source in `pre`/`code`, followed by a second such
   * block holding the result exactly when the result is truthy.
   */
  lemma CodeblockResultBlock(src: string, result: Option<string>, outputType: Option<string>)
    ensures WriteCodeblock(src, result, outputType)
      == "<pre><code>" + src + "</code></pre>"
         + (if Extensions.Truthy(result) then "<pre><code>" + result.value + "</code></pre>" else "")
  {
    ConcatAppend(PreCode(src), CodeblockParts(src, result)[5..]);
    assert CodeblockParts(src, result) == PreCode(src) + CodeblockParts(src, result)[5..];
    PreCodeText(src);
    if Extensions.Truthy(result) {
      PreCodeText(result.value);
    } else {
      assert ["", "", "", "", ""] == ["", ""] + [""] + ["", ""];
      ConcatAround(["", ""], "", ["", ""]);
      ConcatTwo("", "");
    }
  }

  function WriteEquationblock(equation: string): string
  {
    Concat(["<p>", "\\[", equation, "\\]", "</p>"])
  }

  function WriteHRule(): string
  {
    "<!--HRULE-->"
  }

  /** The image element of a figure. */
  function ImageTag(immPath: string, alt: string): string
  {
    "<img src=\"" + immPath + "\" alt=\"" + alt + "\" />"
  }

  /** A figure across the page: the image alone. */
  function FullwidthFigure(immPath: string, alt: string): string
  {
    Concat(["<figure class='fullwidth'>", ImageTag(immPath, alt), "</figure>"])
  }

  /** The parts of a figure with a margin note toggled by the checkbox `ref`. */
  function MarginFigureParts(immPath: string, alt: string, title: Option<string>, ref: Option<string>): seq<string>
  {
    ["<figure>",
     "<label for=\"" + Show(ref) + "\" class=\"margin-toggle\">&#8853;</label>",
     "<input type=\"checkbox\" id=\"" + Show(ref) + "\" class=\"margin-toggle\"/>",
     "<span class=\"marginnote\">" + Or(title, alt) + "</span>",
     ImageTag(immPath, alt),
     "</figure>"]
  }

  /** The label and the checkbox name the same id, and the margin note shows the title or else the alt text. */
  lemma MarginNote(immPath: string, alt: string, title: Option<string>, ref: Option<string>)
    ensures var parts := MarginFigureParts(immPath, alt, title, ref);
      && parts[1] == "<label for=\"" + Show(ref) + "\" class=\"margin-toggle\">&#8853;</label>"
      && parts[2] == "<input type=\"checkbox\" id=\"" + Show(ref) + "\" class=\"margin-toggle\"/>"
      && (Extensions.Truthy(title) ==> parts[3] == "<span class=\"marginnote\">" + title.value + "</span>")
      && (!Extensions.Truthy(title) ==> parts[3] == "<span class=\"marginnote\">" + alt + "</span>")
  {
  }

  /** The paths of the resources a page refers to, as the resource manager serves them. */
  datatype PagePaths = PagePaths(mathjaxJs: string, tufteCss: string, latexCss: string)

  /** ` lang="..."` when a language is set, nothing otherwise. */
  function LangAttribute(language: Option<string>): (r: string)
    ensures r == "" <==> !Extensions.Truthy(language)
  {
    if Extensions.Truthy(language) then " lang=\"" + language.value + "\"" else ""
  }

  /** The parts of the page up to the opening of the article. */
  function Head(langAttribute: string, title: Option<string>, paths: PagePaths): seq<string>
  {
    ["<!DOCTYPE html>",
     "<html" + langAttribute + ">",
     "<head>",
     "<meta charset='utf-8'/>",
     "<title>" + Or(title, UNTITLED) + "</title>",
     "<link rel='stylesheet' href='" + paths.latexCss + "'>",
     "<link rel='stylesheet' href='" + paths.tufteCss + "'>",
     "<script id='MathJax-script' async src='" + paths.mathjaxJs + "/tex-chtml.js'></script>",
     "<meta name='viewport' content='width=device-width, initial-scale=1'>",
     "</head>",
     "<body>",
     "<article>"]
  }

  /**
   * The parts of one block of the article's header: its opening, the value
   * or "", its closing; opening and closing are empty unless the value is
   * non-empty.
   */
  function HeaderBlock(open: string, value: Option<string>, close: string): seq<string>
  {
    var shown := Extensions.Truthy(value);
    [if shown then open else "", Or(value, ""), if shown then close else ""]
  }

  /** A header block is the value between its tags when the value is non-empty, and nothing otherwise. */
  lemma HeaderBlockText(open: string, value: Option<string>, close: string)
    ensures Extensions.Truthy(value) ==> Concat(HeaderBlock(open, value, close)) == open + value.value + close
    ensures !Extensions.Truthy(value) ==> Concat(HeaderBlock(open, value, close)) == ""
  {
    var b := HeaderBlock(open, value, close);
    ConcatThree(b[0], b[1], b[2]);
    assert b == [b[0], b[1], b[2]];
  }

  /** The header of the article: title, author and abstract, each only when non-empty. */
  function Header(info: DocumentInfo): seq<string>
  {
    HeaderBlock("<h1>", info.title, "</h1>")
      + HeaderBlock("<p class='subtitle'>", info.author, "</p>")
      + HeaderBlock("<h2>Abstract</h2><p>", info.abstractText, "</p>")
  }

  const EPILOGUE := ["</article>", "</body>", "</html>"]

  /** `getPageTemplate`: the parts joined by "". */
  function Page(content: string, paths: PagePaths, info: DocumentInfo): string
  {
    Concat(Head(LangAttribute(info.language), info.title, paths) + Header(info) + [content] + EPILOGUE)
  }

  /** The text of an article header block. */
  function BlockText(open: string, value: Option<string>, close: string): (r: string)
    ensures r == Concat(HeaderBlock(open, value, close))
  {
    HeaderBlockText(open, value, close);
    if Extensions.Truthy(value) then open + value.value + close else ""
  }

  /** The header is its three blocks, each present only for a non-empty value. */
  lemma HeaderText(info: DocumentInfo)
    ensures Concat(Header(info))
      == BlockText("<h1>", info.title, "</h1>")
         + BlockText("<p class='subtitle'>", info.author, "</p>")
         + BlockText("<h2>Abstract</h2><p>", info.abstractText, "</p>")
  {
    var a := HeaderBlock("<h1>", info.title, "</h1>");
    var b := HeaderBlock("<p class='subtitle'>", info.author, "</p>");
    var c := HeaderBlock("<h2>Abstract</h2><p>", info.abstractText, "</p>");
    ConcatAppend(a + b, c);
    ConcatAppend(a, b);
  }

  /**
   * The page is the head, the header blocks (each present only for a
   * non-empty value), the content verbatim, and the closing tags.
   */
  lemma PageStructure(content: string, paths: PagePaths, info: DocumentInfo)
    ensures Page(content, paths, info)
      == Concat(Head(LangAttribute(info.language), info.title, paths)) + Concat(Header(info))
         + content + "</article></body></html>"
  {
    var head := Head(LangAttribute(info.language), info.title, paths);
    ConcatAround(head + Header(info), content, EPILOGUE);
    ConcatAppend(head, Header(info));
    ConcatThree("</article>", "</body>", "</html>");
  }

  /** The `<html>` tag carries the language exactly when one is set; the title falls back to "Untitled". */
  lemma HeadFields(info: DocumentInfo, paths: PagePaths)
    ensures var head := Head(LangAttribute(info.language), info.title, paths);
      && (Extensions.Truthy(info.language) ==> head[1] == "<html lang=\"" + info.language.value + "\">")
      && (!Extensions.Truthy(info.language) ==> head[1] == "<html>")
      && head[4] == "<title>" + (if Extensions.Truthy(info.title) then info.title.value else UNTITLED) + "</title>"
  {
  }

  class HtmlTufteRenderer {
    const refIdGen: IdGen.IdGenerator
    /** The path under which the resource manager serves an image file. */
    const serveImage: string -> string
    /** Whether this is the renderer of imported documents, whose page is the content alone. */
    const imported: bool

    constructor(refIdGen: IdGen.IdGenerator, serveImage: string -> string, imported: bool)
      ensures this.refIdGen == refIdGen && this.serveImage == serveImage && this.imported == imported
    {
      this.refIdGen := refIdGen;
      this.serveImage := serveImage;
      this.imported := imported;
    }

    /** `writeRoot` with the served paths: the page, or for an imported document the content unchanged. */
    function WriteRoot(content: string, paths: PagePaths, info: DocumentInfo): (r: string)
      ensures imported ==> r == content
      ensures !imported ==> r == Page(content, paths, info)
    {
      if imported then content else Page(content, paths, info)
    }

    /**
     * `writeImage`: the image is served; reading the attribute of missing
     * extensions throws; a page-wide figure takes no reference id, a figure
     * with a margin note takes exactly one.
     */
    method WriteImage(alt: string, path: string, title: Option<string>, ext: Option<Extensions.Values>)
      returns (r: Result<string>)
      modifies refIdGen
      ensures ext.None? ==> r == Err(UndefinedRead("fullwidth")) && refIdGen.calls == old(refIdGen.calls)
      ensures ext.Some? && IsFullwidth(ext.value) ==>
        r == Ok(FullwidthFigure(serveImage(path), alt)) && refIdGen.calls == old(refIdGen.calls)
      ensures ext.Some? && !IsFullwidth(ext.value) ==>
        && r == Ok(Concat(MarginFigureParts(serveImage(path), alt, title, IdGen.IdAt(refIdGen.prefix, old(refIdGen.calls)))))
        && refIdGen.calls == old(refIdGen.calls) + 1
    {
      var immPath := serveImage(path);
      if ext.None? {
        return Err(UndefinedRead("fullwidth"));
      }
      if IsFullwidth(ext.value) {
        return Ok(FullwidthFigure(immPath, alt));
      }
      var ref := refIdGen.Next();
      r := Ok(Concat(MarginFigureParts(immPath, alt, title, ref)));
    }
  }
}
