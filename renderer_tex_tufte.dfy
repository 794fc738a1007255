/**
 * The renderer of Tufte handouts in LaTeX. Its writers are those of the
 * LaTeX article renderer; the page is a `tufte-handout` whose author line
 * and abstract block appear only for a non-empty author and abstract. The
 * renderer of imported documents returns its content alone. Serving the
 * template files before the page is written is outside this model.
 */
module TexTufteRenderer {
  import opened Wrappers
  import opened Text
  import opened Rendering
  import Extensions
  import IdGen
  import TexRenderer

  /** The author line: `\author[a]{a}` for a non-empty author, an empty line otherwise. */
  function AuthorLine(author: Option<string>): string
  {
    if Extensions.Truthy(author) then "\\author[" + author.value + "]{" + author.value + "}" else ""
  }

  /** The four lines of the abstract block, each empty unless the abstract is non-empty. */
  function AbstractLines(abstractText: Option<string>): (r: seq<string>)
    ensures |r| == 4
  {
    var shown := Extensions.Truthy(abstractText);
    [if shown then "\\begin{abstract}" else "",
     if shown then "\\noindent" else "",
     if shown then abstractText.value else "",
     if shown then "\\end{abstract}" else ""]
  }

  /** The fixed lines between the author line and the beginning of the document. */
  const PACKAGES := [
    "\\usepackage{graphicx} % allow embedded images",
    "\\setkeys{Gin}{width=\\linewidth,totalheight=\\textheight,keepaspectratio}",
    "\\graphicspath{{graphics/}} % set of paths to search for images",
    "\\usepackage{amsmath} % extended mathematics",
    "\\usepackage{booktabs} % book-quality tables",
    "\\usepackage{units} % non-stacked fractions and better unit spacing",
    "\\usepackage{multicol} % multiple column layout facilities",
    "\\usepackage{fancyvrb} % extended verbatim environments",
    "\\fvset{fontsize=\\normalsize} % default font size for fancy-verbatim environments",
    "\\newcommand{\\doccmd}[1]{\\texttt{\\textbackslash#1}}% command name -- adds backslash automatically",
    "\\newcommand{\\docopt}[1]{\\ensuremath{\\langle}\\textrm{\\textit{#1}}\\ensuremath{\\rangle}}% optional command argument",
    "\\newcommand{\\docarg}[1]{\\textrm{\\textit{#1}}}% (required) command argument",
    "\\newcommand{\\docenv}[1]{\\textsf{#1}}% environment name",
    "\\newcommand{\\docpkg}[1]{\\texttt{#1}}% package name",
    "\\newcommand{\\doccls}[1]{\\texttt{#1}}% document class name",
    "\\newcommand{\\docclsopt}[1]{\\texttt{#1}}% document class option name",
    "\\newenvironment{docspec}{\\begin{quote}\\noindent}{\\end{quote}}% command specification environment"]

  /**
   * The lines before the content, given the author line and the abstract
   * lines: class, title, author, packages, the beginning of the document,
   * the title block, then the abstract.
   */
  function Preamble(title: Option<string>, authorLine: string, abstractLines: seq<string>): (r: seq<string>)
    ensures |r| == 22 + |abstractLines|
  {
    ["\\documentclass{tufte-handout}", "\\title{" + Or(title, UNTITLED) + "}", authorLine]
      + PACKAGES
      + ["\\begin{document}", "\\maketitle% this prints the handout title, author, and date"]
      + abstractLines
  }

  /** The lines after the content. */
  const CLOSING := ["\\bibliography{sample-handout}", "\\bibliographystyle{plainnat}", "\\end{document}"]

  /** `getPageTemplate`: the preamble, the content and the closing lines, joined by `EOL`. */
  function Page(content: string, info: DocumentInfo): string
  {
    Join(Preamble(info.title, AuthorLine(info.author), AbstractLines(info.abstractText)) + [content] + CLOSING, EOL)
  }

  /** The content is placed verbatim, on lines of its own, between the preamble and the closing lines. */
  lemma PageAroundContent(content: string, info: DocumentInfo)
    ensures Page(content, info)
      == Join(Preamble(info.title, AuthorLine(info.author), AbstractLines(info.abstractText)), EOL) + EOL + content + EOL
         + "\\bibliography{sample-handout}" + EOL + "\\bibliographystyle{plainnat}" + EOL + "\\end{document}"
  {
    var pre := Preamble(info.title, AuthorLine(info.author), AbstractLines(info.abstractText));
    JoinAround(pre, content, CLOSING, EOL);
    JoinThree(CLOSING[0], CLOSING[1], CLOSING[2], EOL);
    assert CLOSING == [CLOSING[0], CLOSING[1], CLOSING[2]];
  }

  /**
   * The title falls back to "Untitled"; the author line is empty exactly
   * when there is no non-empty author; the abstract block is present exactly
   * when the abstract is non-empty.
   */
  lemma PreambleFields(info: DocumentInfo)
    ensures var pre := Preamble(info.title, AuthorLine(info.author), AbstractLines(info.abstractText));
      && pre[1] == "\\title{" + (if Extensions.Truthy(info.title) then info.title.value else UNTITLED) + "}"
      && (pre[2] == "" <==> !Extensions.Truthy(info.author))
      && (Extensions.Truthy(info.author) ==> pre[2] == "\\author[" + info.author.value + "]{" + info.author.value + "}")
      && (Extensions.Truthy(info.abstractText) ==> pre[22..] == ["\\begin{abstract}", "\\noindent", info.abstractText.value, "\\end{abstract}"])
      && (!Extensions.Truthy(info.abstractText) ==> pre[22..] == ["", "", "", ""])
  {
    var pre := Preamble(info.title, AuthorLine(info.author), AbstractLines(info.abstractText));
    assert pre[22..] == AbstractLines(info.abstractText);
  }

  /** The page reads nothing of the information but the title, the author and the abstract. */
  lemma PageIgnoresLanguage(content: string, info: DocumentInfo, language: Option<string>)
    ensures Page(content, info.(language := language)) == Page(content, info)
  {
  }

  class TexTufteRenderer {
    const refIdGen: IdGen.IdGenerator
    /** The path under which the resource manager serves an image file. */
    const serveImage: string -> string
    /** Whether this is the renderer of imported documents, whose page is the content alone. */
    const imported: bool

    constructor(refIdGen: IdGen.IdGenerator, serveImage: string -> string, imported: bool)
      ensures this.refIdGen == refIdGen && this.serveImage == serveImage && this.imported == imported
    {
      this.refIdGen := refIdGen;
      this.serveImage := serveImage;
      this.imported := imported;
    }

    /** `writeRoot`: the handout page, or for an imported document the content unchanged. */
    function WriteRoot(content: string, info: DocumentInfo): (r: string)
      ensures imported ==> r == content
      ensures !imported ==> r == Page(content, info)
    {
      if imported then content else Page(content, info)
    }

    /** `writeImage`: the image is served, then exactly one reference id is taken, whichever figure follows. */
    method WriteImage(alt: string, path: string, title: Option<string>, ext: Option<Extensions.Values>)
      returns (r: Result<string>)
      modifies refIdGen
      ensures refIdGen.calls == old(refIdGen.calls) + 1
      ensures var f := TexRenderer.Figure(serveImage(path), title, ext, IdGen.IdAt(refIdGen.prefix, old(refIdGen.calls)));
        (f.Err? ==> r == Err(f.error)) && (f.Ok? ==> r == Ok(TexRenderer.Block(f.value)))
    {
      var immPath := serveImage(path);
      var ref := refIdGen.Next();
      var f := TexRenderer.Figure(immPath, title, ext, ref);
      if f.Err? {
        return Err(f.error);
      }
      r := Ok(TexRenderer.Block(f.value));
    }
  }
}
