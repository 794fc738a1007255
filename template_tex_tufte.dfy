/**
 * The first LaTeX Tufte template, from before the renderers: four heading
 * levels, the `docspec` code blocks and numbered equations of the later
 * renderers but without a final line break, and a handout page with a fixed
 * author and a fixed abstract. Serving the template files before the page is
 * written is outside this model.
 */
module TexTufteTemplate {
  import opened Wrappers
  import opened Text
  import opened Rendering
  import Extensions
  import IdGen
  import TexRenderer
  import TexDocRenderer
  import TexTufteRenderer

  const SECTION_LEVELS := ["section", "subsection", "subsubsection", "paragraph"]

  function WriteHeading(text: string, level: int): Result<string>
  {
    TexRenderer.Heading(SECTION_LEVELS, text, level)
  }

  /** Levels 1 to 4 give section, subsection, subsubsection and paragraph; any other level throws. */
  lemma HeadingLevels(text: string, level: int)
    ensures WriteHeading(text, level).Ok? <==> 1 <= level <= 4
    ensures level == 1 ==> WriteHeading(text, level) == Ok("\\section{" + text + "}" + EOL)
    ensures level == 2 ==> WriteHeading(text, level) == Ok("\\subsection{" + text + "}" + EOL)
    ensures level == 3 ==> WriteHeading(text, level) == Ok("\\subsubsection{" + text + "}" + EOL)
    ensures level == 4 ==> WriteHeading(text, level) == Ok("\\paragraph{" + text + "}" + EOL)
    ensures !(1 <= level <= 4) ==> WriteHeading(text, level) == Err(InvalidLevel(level, 4))
  {
    assert "\\" + "section" + "{" == "\\section{";
    assert "\\" + "subsection" + "{" == "\\subsection{";
    assert "\\" + "subsubsection" + "{" == "\\subsubsection{";
    assert "\\" + "paragraph" + "{" == "\\paragraph{";
  }

  function WriteCodeblock(src: string, result: Option<string>): string
  {
    Join(TexRenderer.CodeblockLines(TexDocRenderer.CODE_ENV, src, result), EOL)
  }

  function WriteEquationblock(equation: string): string
  {
    Join(TexRenderer.EquationLines(TexDocRenderer.EQUATION_ENV, equation), EOL)
  }

  /** The blocks are those of the LaTeX article renderer without their final line break. */
  lemma BlocksWithoutFinalLineBreak(src: string, result: Option<string>, equation: string)
    ensures TexDocRenderer.WriteCodeblock(src, result) == WriteCodeblock(src, result) + EOL
    ensures TexDocRenderer.WriteEquationblock(equation) == WriteEquationblock(equation) + EOL
  {
  }

  /** A truthy result adds the result block; any other result leaves the source block alone. */
  lemma CodeblockResult(src: string, result: Option<string>)
    ensures !Extensions.Truthy(result) ==> WriteCodeblock(src, result) == WriteCodeblock(src, None)
    ensures Extensions.Truthy(result) ==>
      WriteCodeblock(src, result)
        == Join(TexRenderer.CodeblockLines(TexDocRenderer.CODE_ENV, src, None)[..3], EOL) + EOL
           + Join(["Result:", "\\begin{" + TexDocRenderer.CODE_ENV + "}", result.value, "\\end{" + TexDocRenderer.CODE_ENV + "}"], EOL)
  {
    if Extensions.Truthy(result) {
      TexRenderer.CodeblockWithResult(TexDocRenderer.CODE_ENV, src, result.value);
      assert TexRenderer.CodeblockLines(TexDocRenderer.CODE_ENV, src, result)
        == TexRenderer.CodeblockLines(TexDocRenderer.CODE_ENV, src, Some(result.value));
    } else {
      TexRenderer.FalsyResultIsNoResult(TexDocRenderer.CODE_ENV, src, result);
    }
  }

  /** The author line every page carries. */
  const FIXED_AUTHOR_LINE := "\\author[The Tufte-LaTeX Developers]{The Developers}"

  /** The abstract every page carries. */
  const FIXED_ABSTRACT := "This is the abstract."

  /** `getPageTemplate`: the handout page with the fixed author and abstract. */
  function Page(content: string, info: DocumentInfo): string
  {
    Join(TexTufteRenderer.Preamble(info.title, FIXED_AUTHOR_LINE, TexTufteRenderer.AbstractLines(Some(FIXED_ABSTRACT)))
      + [content] + TexTufteRenderer.CLOSING, EOL)
  }

  /**
   * The page is the later handout page of a document whose author line is
   * the fixed one and whose abstract is the fixed text: only the title is
   * read from the information, with the "Untitled" fallback.
   */
  lemma PageIsFixedHandout(content: string, info: DocumentInfo)
    ensures var pre := TexTufteRenderer.Preamble(info.title, FIXED_AUTHOR_LINE, TexTufteRenderer.AbstractLines(Some(FIXED_ABSTRACT)));
      && Page(content, info) == Join(pre, EOL) + EOL + content + EOL
           + "\\bibliography{sample-handout}" + EOL + "\\bibliographystyle{plainnat}" + EOL + "\\end{document}"
      && pre[1] == "\\title{" + (if Extensions.Truthy(info.title) then info.title.value else UNTITLED) + "}"
      && pre[2] == FIXED_AUTHOR_LINE
      && pre[22..] == ["\\begin{abstract}", "\\noindent", FIXED_ABSTRACT, "\\end{abstract}"]
  {
    var pre := TexTufteRenderer.Preamble(info.title, FIXED_AUTHOR_LINE, TexTufteRenderer.AbstractLines(Some(FIXED_ABSTRACT)));
    JoinAround(pre, content, TexTufteRenderer.CLOSING, EOL);
    JoinThree(TexTufteRenderer.CLOSING[0], TexTufteRenderer.CLOSING[1], TexTufteRenderer.CLOSING[2], EOL);
    assert TexTufteRenderer.CLOSING == [TexTufteRenderer.CLOSING[0], TexTufteRenderer.CLOSING[1], TexTufteRenderer.CLOSING[2]];
    assert pre[22..] == TexTufteRenderer.AbstractLines(Some(FIXED_ABSTRACT));
  }

  class TexTufteTemplate {
    const refIdGen: IdGen.IdGenerator
    /** The path under which the resource manager serves an image file. */
    const serveImage: string -> string

    constructor(refIdGen: IdGen.IdGenerator, serveImage: string -> string)
      ensures this.refIdGen == refIdGen && this.serveImage == serveImage
    {
      this.refIdGen := refIdGen;
      this.serveImage := serveImage;
    }

    /** `writeImage`: the image is served, then exactly one reference id is taken; the figure has no final line break. */
    method WriteImage(alt: string, path: string, title: Option<string>, ext: Option<Extensions.Values>)
      returns (r: Result<string>)
      modifies refIdGen
      ensures refIdGen.calls == old(refIdGen.calls) + 1
      ensures var f := TexRenderer.Figure(serveImage(path), title, ext, IdGen.IdAt(refIdGen.prefix, old(refIdGen.calls)));
        (f.Err? ==> r == Err(f.error)) && (f.Ok? ==> r == Ok(Join(f.value, EOL)))
    {
      var immPath := serveImage(path);
      var ref := refIdGen.Next();
      var f := TexRenderer.Figure(immPath, title, ext, ref);
      if f.Err? {
        return Err(f.error);
      }
      r := Ok(Join(f.value, EOL));
    }
  }
}

/**
 * The first LaTeX Tufte renderer: the writers of the first template, plus a
 * horizontal rule written as the later renderers write it.
 */
module TexTufteRendererOld {
  import TexRenderer

  /** The rule is a `%HRULE` comment on a line of its own, as in the later renderers. */
  function WriteHRule(): (r: string)
    ensures r == TexRenderer.WriteHRule()
  {
    "\n%HRULE\n"
  }
}
