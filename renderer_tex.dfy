/**
 * The writers every LaTeX renderer of the templates shares: sectioning
 * commands, paragraph decorations, code and equation blocks, and figures
 * labelled with a fresh reference id. `TexRenderer` itself leaves the page
 * to its subclasses and writes the output as `/main.tex` in the output image.
 */
module TexRenderer {
  import opened Wrappers
  import opened Text
  import opened Rendering
  import Extensions
  import IdGen
  import ResourceImages

  /** The title is rendered apart, so headings of levels 1 and 2 are both sections. */
  const SECTION_LEVELS := ["section", "section", "subsection", "subsubsection", "paragraph"]

  /** The virtual path of the written output. */
  const MAIN_TEX := "/main.tex"

  /** A sectioning command named after `level` in the table `names`, or the level error. */
  function Heading(names: seq<string>, text: string, level: int): (r: Result<string>)
    ensures r.Ok? <==> 1 <= level <= |names|
    ensures r.Err? ==> r.error == InvalidLevel(level, |names|)
  {
    match LevelName(names, level)
    case Err(e) => Err(e)
    case Ok(name) => Ok("\\" + name + "{" + text + "}" + EOL)
  }

  function WriteHeading(text: string, level: int): Result<string>
  {
    Heading(SECTION_LEVELS, text, level)
  }

  /** Levels 1 to 5 are accepted; 1 and 2 give a section, then subsection, subsubsection and paragraph. */
  lemma HeadingLevels(text: string, level: int)
    ensures WriteHeading(text, level).Ok? <==> 1 <= level <= 5
    ensures level == 1 || level == 2 ==> WriteHeading(text, level) == Ok("\\section{" + text + "}" + EOL)
    ensures level == 3 ==> WriteHeading(text, level) == Ok("\\subsection{" + text + "}" + EOL)
    ensures level == 4 ==> WriteHeading(text, level) == Ok("\\subsubsection{" + text + "}" + EOL)
    ensures level == 5 ==> WriteHeading(text, level) == Ok("\\paragraph{" + text + "}" + EOL)
    ensures !(1 <= level <= 5) ==> WriteHeading(text, level) == Err(InvalidLevel(level, 5))
  {
    assert "\\" + "section" + "{" == "\\section{";
    assert "\\" + "subsection" + "{" == "\\subsection{";
    assert "\\" + "subsubsection" + "{" == "\\subsubsection{";
    assert "\\" + "paragraph" + "{" == "\\paragraph{";
  }

  function WriteParagraph(content: string): string
  {
    content + EOL
  }

  function WriteParagraphBoldText(text: string): string
  {
    "\\textbf{" + text + "}"
  }

  function WriteParagraphItalicText(text: string): string
  {
    "\\textit{" + text + "}"
  }

  function WriteParagraphEquationInlineText(equation: string): string
  {
    "$" + equation + "$"
  }

  /** Inline code: the evaluation result when it is truthy, otherwise the source, in a `\Verb`. */
  function WriteParagraphCodeInline(src: string, result: Option<string>): (r: string)
    ensures Extensions.Truthy(result) ==> r == "\\Verb|" + result.value + "|"
    ensures !Extensions.Truthy(result) ==> r == "\\Verb|" + src + "|"
  {
    "\\Verb|" + Or(result, src) + "|"
  }

  /**
   * The lines of a code block in the environment `env`: the source block,
   * then the four lines of the result block, each empty unless the result is
   * truthy.
   */
  function CodeblockLines(env: string, src: string, result: Option<string>): seq<string>
  {
    var shown := Extensions.Truthy(result);
    ["\\begin{" + env + "}", src, "\\end{" + env + "}",
     if shown then "Result:" else "",
     if shown then "\\begin{" + env + "}" else "",
     if shown then result.value else "",
     if shown then "\\end{" + env + "}" else ""]
  }

  /** The lines joined with `EOL`, then one more `EOL`. */
  function Block(lines: seq<string>): string
  {
    Join(lines, EOL) + EOL
  }

  /** A block of code quoted, with its result after "Result:" when there is one. */
  function WriteCodeblock(src: string, result: Option<string>, outputType: Option<string>): string
  {
    Block(CodeblockLines("quote", src, result))
  }

  /** A falsy result writes the same lines as no result at all: the source block and four empty lines. */
  lemma FalsyResultIsNoResult(env: string, src: string, result: Option<string>)
    requires !Extensions.Truthy(result)
    ensures CodeblockLines(env, src, result) == CodeblockLines(env, src, None)
    ensures CodeblockLines(env, src, None)[3..] == ["", "", "", ""]
  {
  }

  /**
   * With a truthy result, the block is the source block, a line break, and
   * the result block: "Result:" and the result in the same environment.
   */
  lemma CodeblockWithResult(env: string, src: string, result: string)
    requires result != ""
    ensures Join(CodeblockLines(env, src, Some(result)), EOL)
      == Join(CodeblockLines(env, src, None)[..3], EOL) + EOL
         + Join(["Result:", "\\begin{" + env + "}", result, "\\end{" + env + "}"], EOL)
  {
    var tail := ["Result:", "\\begin{" + env + "}", result, "\\end{" + env + "}"];
    assert CodeblockLines(env, src, Some(result)) == CodeblockLines(env, src, None)[..3] + tail;
    JoinAppend(CodeblockLines(env, src, None)[..3], tail, EOL);
  }

  /** The lines of an equation block in the environment `env`. */
  function EquationLines(env: string, equation: string): seq<string>
  {
    ["\\begin{" + env + "}", equation, "\\end{" + env + "}"]
  }

  function WriteEquationblock(equation: string): string
  {
    Block(EquationLines("equation*", equation))
  }

  function WriteHRule(): string
  {
    EOL + "%HRULE" + EOL
  }

  /**
   * The lines of a figure: a `figure*` placed here when it spans the page,
   * otherwise a `figure` aligned to the bottom. The caption and the label
   * print a missing title or id as "undefined".
   */
  function FigureLines(fullwidth: bool, immPath: string, title: Option<string>, ref: Option<string>): seq<string>
  {
    if fullwidth then
      ["\\begin{figure*}[h]", "\\includegraphics{" + immPath + "}", "\\caption{" + Show(title) + "}",
       "\\label{" + Show(ref) + "}", "\\end{figure*}"]
    else
      ["\\begin{figure}", "\\includegraphics{" + immPath + "}", "\\caption{" + Show(title) + "}",
       "\\label{" + Show(ref) + "}", "\\setfloatalignment{b}", "\\end{figure}"]
  }

  /**
   * The figure lines for the image served at `immPath` with the reference id
   * `ref`; reading the attribute of missing extensions throws.
   */
  function Figure(immPath: string, title: Option<string>, ext: Option<Extensions.Values>, ref: Option<string>)
    : (r: Result<seq<string>>)
    ensures ext.None? <==> r.Err?
    ensures r.Err? ==> r.error == UndefinedRead("fullwidth")
    ensures r.Ok? ==> |r.value| >= 5
    ensures r.Ok? ==> r.value[1] == "\\includegraphics{" + immPath + "}" && r.value[3] == "\\label{" + Show(ref) + "}"
    ensures r.Ok? ==> (r.value[0] == "\\begin{figure*}[h]" <==> IsFullwidth(ext.value))
  {
    if ext.None? then Err(UndefinedRead("fullwidth"))
    else Ok(FigureLines(IsFullwidth(ext.value), immPath, title, ref))
  }

  class TexRenderer {
    const outputImage: ResourceImages.ResourceImage
    const refIdGen: IdGen.IdGenerator
    /** The path under which the resource manager serves an image file. */
    const serveImage: string -> string

    constructor(outputImage: ResourceImages.ResourceImage, refIdGen: IdGen.IdGenerator, serveImage: string -> string)
      ensures this.outputImage == outputImage && this.refIdGen == refIdGen && this.serveImage == serveImage
    {
      this.outputImage := outputImage;
      this.refIdGen := refIdGen;
      this.serveImage := serveImage;
    }

    /** `writeOutput`: the output is added to the output image as `/main.tex`, whose path is returned. */
    method WriteOutput(output: string) returns (vpath: string)
      modifies outputImage
      ensures vpath == MAIN_TEX
      ensures outputImage.components
        == old(outputImage.components) + [ResourceImages.Component(MAIN_TEX, ResourceImages.Encode(ResourceImages.TextValue(output)))]
    {
      vpath := MAIN_TEX;
      outputImage.AddString(ResourceImages.TextValue(output), vpath);
    }

    /** `writeImage`: the image is served, then exactly one reference id is taken, whichever figure follows. */
    method WriteImage(alt: string, path: string, title: Option<string>, ext: Option<Extensions.Values>)
      returns (r: Result<string>)
      modifies refIdGen
      ensures refIdGen.calls == old(refIdGen.calls) + 1
      ensures var f := Figure(serveImage(path), title, ext, IdGen.IdAt(refIdGen.prefix, old(refIdGen.calls)));
        (f.Err? ==> r == Err(f.error)) && (f.Ok? ==> r == Ok(Block(f.value)))
    {
      var immPath := serveImage(path);
      var ref := refIdGen.Next();
      var f := Figure(immPath, title, ext, ref);
      if f.Err? {
        return Err(f.error);
      }
      r := Ok(Block(f.value));
    }
  }
}
