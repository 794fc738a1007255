/**
 * The stylist of LaTeX code blocks: the source in a framed `lstlisting`,
 * followed, for a non-empty output, by a nested frame holding the output. The
 * output goes in an `equation*` when the output format is "latex" and in an
 * unframed `lstlisting` for any other format.
 */
module CodeBlockStyle {
  import opened Wrappers
  import opened Text
  import opened Rendering
  import Extensions

  /** The output format whose code outputs are typeset as equations. */
  const LATEX := "latex"

  const FRAME_BEGIN := "\\begin{mdframed}[backgroundcolor=codebackcolor]"
  const OUTPUT_FRAME_BEGIN := "\\begin{mdframed}[rightline=false,leftline=false,bottomline=false]"
  const FRAME_END := "\\end{mdframed}"
  const LISTING_BEGIN := "\\begin{lstlisting}"
  const LISTING_END := "\\end{lstlisting}"

  /** `TexCodeBlockStylist`, configured with an output format. */
  datatype TexCodeBlockStylist = TexCodeBlockStylist(outputFormat: string)
  {
    /** The environment the output is placed in, as its opening and closing lines. */
    function OutputEnvironment(): (string, string)
    {
      if outputFormat == LATEX then ("\\begin{equation*}", "\\end{equation*}")
      else ("\\begin{lstlisting}[frame=none]", LISTING_END)
    }

    /** The ten lines of a styled block; the five output lines are empty unless the output is non-empty. */
    function Lines(src: string, output: Option<string>): (r: seq<string>)
      ensures |r| == 10
    {
      var shown := Extensions.Truthy(output);
      var env := OutputEnvironment();
      [FRAME_BEGIN, LISTING_BEGIN, src, LISTING_END,
       if shown then OUTPUT_FRAME_BEGIN else "",
       if shown then env.0 else "",
       if shown then output.value else "",
       if shown then env.1 else "",
       if shown then FRAME_END else "",
       FRAME_END]
    }

    /** `style`: the lines joined by `EOL`, then one more `EOL`. */
    function Style(src: string, output: Option<string>): string
    {
      Join(Lines(src, output), EOL) + EOL
    }
  }

  /**
   * The source always sits verbatim in the framed listing; the nested output
   * frame appears exactly when the output is non-empty, with the output in
   * the environment of the format, and is five empty lines otherwise.
   */
  lemma StyleLines(stylist: TexCodeBlockStylist, src: string, output: Option<string>)
    ensures stylist.Lines(src, output)[..4] == [FRAME_BEGIN, LISTING_BEGIN, src, LISTING_END]
    ensures stylist.Lines(src, output)[9] == FRAME_END
    ensures Extensions.Truthy(output) && stylist.outputFormat == LATEX ==>
      stylist.Lines(src, output)[4..9] == [OUTPUT_FRAME_BEGIN, "\\begin{equation*}", output.value, "\\end{equation*}", FRAME_END]
    ensures Extensions.Truthy(output) && stylist.outputFormat != LATEX ==>
      stylist.Lines(src, output)[4..9] == [OUTPUT_FRAME_BEGIN, "\\begin{lstlisting}[frame=none]", output.value, LISTING_END, FRAME_END]
    ensures !Extensions.Truthy(output) ==> stylist.Lines(src, output)[4..9] == ["", "", "", "", ""]
  {
  }

  /** An empty output is styled like no output at all, whatever the format. */
  lemma EmptyOutputIsNoOutput(stylist: TexCodeBlockStylist, src: string, output: Option<string>)
    requires !Extensions.Truthy(output)
    ensures stylist.Style(src, output) == stylist.Style(src, None)
    ensures stylist.Style(src, output) == TexCodeBlockStylist(LATEX).Style(src, None)
  {
  }

  /** Every format other than "latex" styles alike; the formats differ only in the output environment. */
  lemma FormatsDifferInOutputEnvironmentOnly(f: string, g: string, src: string, output: Option<string>)
    ensures f != LATEX && g != LATEX ==> TexCodeBlockStylist(f).Style(src, output) == TexCodeBlockStylist(g).Style(src, output)
    ensures var a := TexCodeBlockStylist(f).Lines(src, output);
      var b := TexCodeBlockStylist(g).Lines(src, output);
      a[..5] == b[..5] && a[6] == b[6] && a[8..] == b[8..]
  {
  }

  /**
   * With a non-empty output the block is the listing, a line break, the
   * output frame, and the closing frame line.
   */
  lemma {:induction false} StyleWithOutput(stylist: TexCodeBlockStylist, src: string, output: string)
    requires output != ""
    ensures stylist.Style(src, Some(output))
      == Join([FRAME_BEGIN, LISTING_BEGIN, src, LISTING_END], EOL) + EOL
         + Join([OUTPUT_FRAME_BEGIN, stylist.OutputEnvironment().0, output, stylist.OutputEnvironment().1, FRAME_END], EOL)
         + EOL + FRAME_END + EOL
  {
    var lines := stylist.Lines(src, Some(output));
    var head := [FRAME_BEGIN, LISTING_BEGIN, src, LISTING_END];
    var frame := [OUTPUT_FRAME_BEGIN, stylist.OutputEnvironment().0, output, stylist.OutputEnvironment().1, FRAME_END];
    assert lines == head + (frame + [FRAME_END]);
    JoinAppend(head, frame + [FRAME_END], EOL);
    JoinAppend(frame, [FRAME_END], EOL);
  }
}
