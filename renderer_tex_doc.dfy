/**
 * The renderer of LaTeX articles. Headings, paragraphs, inline writers,
 * figures and the horizontal rule are those of `TexRenderer`; code goes in a
 * `docspec` environment and equations are numbered. The page is an `article`
 * with an optional author line; the renderer of imported documents returns
 * its content alone. No resource is served for the page.
 */
module TexDocRenderer {
  import opened Wrappers
  import opened Text
  import opened Rendering
  import Extensions
  import IdGen
  import TexRenderer

  /** The environment of code blocks and of their results. */
  const CODE_ENV := "docspec"

  /** The environment of equation blocks. */
  const EQUATION_ENV := "equation"

  function WriteCodeblock(src: string, result: Option<string>): string
  {
    TexRenderer.Block(TexRenderer.CodeblockLines(CODE_ENV, src, result))
  }

  function WriteEquationblock(equation: string): string
  {
    TexRenderer.Block(TexRenderer.EquationLines(EQUATION_ENV, equation))
  }

  /** The author line: `\author{...}` for a non-empty author, an empty line otherwise. */
  function AuthorLine(author: Option<string>): string
  {
    if Extensions.Truthy(author) then "\\author{" + author.value + "}" else ""
  }

  /** The lines before the content: packages, theorem environments, title, author and date. */
  function Preamble(info: DocumentInfo): (r: seq<string>)
    ensures |r| == 17
  {
    ["\\documentclass{article}",
     "\\usepackage[utf8]{inputenc}",
     "\\usepackage{amsfonts}",
     "\\usepackage{amsmath} % extended mathematics",
     "\\usepackage{fancyvrb} % extended verbatim environments",
     "\\usepackage{amsthm} % theorems",
     "\\usepackage{graphicx} % allow embedded images",
     "\\usepackage{sidecap}",
     "\\usepackage{listings} % better code snippets",
     "% defining custom envs for theorems",
     "\\newtheorem{prop}{Proposition}",
     "\\newtheorem{lemma}{Lemma}",
     "\\title{" + Or(info.title, UNTITLED) + "}",
     AuthorLine(info.author),
     "\\date{\\today}",
     "\\begin{document}",
     "\\maketitle"]
  }

  /** The lines after the content. */
  const CLOSING := ["%\\tableofcontents", "\\end{document}"]

  /** `getPageTemplate`: the preamble, the content and the closing lines, joined by `EOL`. */
  function Page(content: string, info: DocumentInfo): string
  {
    Join(Preamble(info) + [content] + CLOSING, EOL)
  }

  /** The content is placed verbatim, on lines of its own, between the preamble and the closing lines. */
  lemma PageAroundContent(content: string, info: DocumentInfo)
    ensures Page(content, info) == Join(Preamble(info), EOL) + EOL + content + EOL + "%\\tableofcontents" + EOL + "\\end{document}"
  {
    JoinAround(Preamble(info), content, CLOSING, EOL);
  }

  /**
   * The title line falls back to "Untitled" and the author line is empty
   * exactly when there is no non-empty author.
   */
  lemma TitleAndAuthorLines(info: DocumentInfo)
    ensures Preamble(info)[12] == "\\title{" + (if Extensions.Truthy(info.title) then info.title.value else UNTITLED) + "}"
    ensures Preamble(info)[13] == "" <==> !Extensions.Truthy(info.author)
    ensures Extensions.Truthy(info.author) ==> Preamble(info)[13] == "\\author{" + info.author.value + "}"
  {
  }

  /** The page reads nothing of the information but the title and the author: no abstract, no language. */
  lemma PageIgnoresAbstractAndLanguage(content: string, info: DocumentInfo, abstractText: Option<string>, language: Option<string>)
    ensures Page(content, info.(abstractText := abstractText, language := language)) == Page(content, info)
  {
  }

  /** A code block in `docspec`, with the result block only for a truthy result, ending with `EOL`. */
  lemma CodeblockResult(src: string, result: Option<string>)
    ensures !Extensions.Truthy(result) ==> WriteCodeblock(src, result) == WriteCodeblock(src, None)
    ensures Extensions.Truthy(result) ==>
      WriteCodeblock(src, result)
        == Join(TexRenderer.CodeblockLines(CODE_ENV, src, None)[..3], EOL) + EOL
           + Join(["Result:", "\\begin{" + CODE_ENV + "}", result.value, "\\end{" + CODE_ENV + "}"], EOL) + EOL
  {
    if Extensions.Truthy(result) {
      TexRenderer.CodeblockWithResult(CODE_ENV, src, result.value);
      assert TexRenderer.CodeblockLines(CODE_ENV, src, result) == TexRenderer.CodeblockLines(CODE_ENV, src, Some(result.value));
    } else {
      TexRenderer.FalsyResultIsNoResult(CODE_ENV, src, result);
    }
  }

  class TexDocRenderer {
    const refIdGen: IdGen.IdGenerator
    /** The path under which the resource manager serves an image file. */
    const serveImage: string -> string
    /** Whether this is the renderer of imported documents, whose page is the content alone. */
    const imported: bool

    constructor(refIdGen: IdGen.IdGenerator, serveImage: string -> string, imported: bool)
      ensures this.refIdGen == refIdGen && this.serveImage == serveImage && this.imported == imported
    {
      this.refIdGen := refIdGen;
      this.serveImage := serveImage;
      this.imported := imported;
    }

    /** `writeRoot`: the page, or for an imported document the content unchanged. */
    function WriteRoot(content: string, info: DocumentInfo): (r: string)
      ensures imported ==> r == content
      ensures !imported ==> r == Join(Preamble(info), EOL) + EOL + content + EOL + "%\\tableofcontents" + EOL + "\\end{document}"
    {
      PageAroundContent(content, info);
      if imported then content else Page(content, info)
    }

    /** `writeImage`: the image is served, then exactly one reference id is taken, whichever figure follows. */
    method WriteImage(alt: string, path: string, title: Option<string>, ext: Option<Extensions.Values>)
      returns (r: Result<string>)
      modifies refIdGen
      ensures refIdGen.calls == old(refIdGen.calls) + 1
      ensures var f := TexRenderer.Figure(serveImage(path), title, ext, IdGen.IdAt(refIdGen.prefix, old(refIdGen.calls)));
        (f.Err? ==> r == Err(f.error)) && (f.Ok? ==> r == Ok(TexRenderer.Block(f.value)))
    {
      var immPath := serveImage(path);
      var ref := refIdGen.Next();
      var f := TexRenderer.Figure(immPath, title, ext, ref);
      if f.Err? {
        return Err(f.error);
      }
      r := Ok(TexRenderer.Block(f.value));
    }
  }
}
