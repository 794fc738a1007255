/**
 * What the generators and the renderers share: the document information a
 * page is rendered with, the calls a generator makes on a renderer, and the
 * outcome of a step that may throw.
 */
module Rendering {
  import opened Wrappers
  import opened Text
  import Extensions

  /** The line separator the TeX renderers join with. */
  const EOL := "\n"

  /** The title a document without one receives. */
  const UNTITLED := "Untitled"

  /** What JavaScript throws when a property is read from `undefined`. */
  function UndefinedRead(property: string): string
  {
    "Cannot read properties of undefined (reading '" + property + "')"
  }

  /** `o || fallback` for an optional string. */
  function Or(o: Option<string>, fallback: string): (r: string)
    ensures Extensions.Truthy(o) ==> r == o.value
    ensures !Extensions.Truthy(o) ==> r == fallback
  {
    if Extensions.Truthy(o) then o.value else fallback
  }

  /**
   * `o || fallback` is empty only when both sides are, and it is always one
   * of the two: a present value or the fallback.
   */
  lemma OrEmptyOnlyWhenBothAre(o: Option<string>, fallback: string)
    ensures Or(o, fallback) == "" <==> (!Extensions.Truthy(o) && fallback == "")
    ensures Or(o, fallback) == fallback || (o.Some? && Or(o, fallback) == o.value)
  {
  }

  /** An optional string inside a template literal: `undefined` prints as "undefined". */
  function Show(o: Option<string>): string
  {
    if o.Some? then o.value else "undefined"
  }

  /** An image spans the page only when its `fullwidth` attribute is exactly "true". */
  predicate IsFullwidth(ext: Extensions.Values)
  {
    ext.fullwidth == Some("true")
  }

  /** The generic information on a document; an absent field is `None`. */
  datatype DocumentInfo = DocumentInfo(
    title: Option<string>,
    abstractText: Option<string>,
    author: Option<string>,
    language: Option<string>)

  /**
   * One call of a generator on its renderer, with the arguments the
   * generator passes. An argument the generator leaves out is `None`.
   */
  datatype Call =
    | WriteHeading(text: string, level: int)
    | WriteParagraph(content: string)
    | WriteParagraphText(text: string)
    | WriteParagraphBoldText(text: string)
    | WriteParagraphItalicText(text: string)
    | WriteParagraphCodeInline(src: string, result: Option<string>)
    | WriteParagraphEquationInlineText(equation: string)
    | WriteCodeblock(src: string, result: Option<string>, outputType: Option<string>)
    | WriteEquationblock(equation: string)
    | WriteImage(alt: string, path: string, title: Option<string>, ext: Option<Extensions.Values>)
    | WriteHRule
      /** `info` is `None` when the generator passes an unset field. */
    | WriteRoot(content: string, info: Option<DocumentInfo>)
    | WriteSlide(content: string)
    | WriteOutput(output: string)

  /** The outcome of a step over a state `S`: the new state and a value, or the message thrown. */
  datatype Step<S, T> = Done(state: S, value: T) | Threw(message: string)

  /** The message a heading writer throws for a level outside 1..count. */
  function InvalidLevel(level: int, count: nat): string
  {
    "Invalid level '" + IntToString(level) + "'. Allowed is 1.." + NatToString(count)
  }

  /**
   * The entry a heading writer picks from its table of level names: levels
   * 1..|names| select `names[level - 1]`, any other level throws.
   */
  function LevelName(names: seq<string>, level: int): (r: Result<string>)
    ensures r.Ok? <==> 1 <= level <= |names|
    ensures r.Ok? ==> r.value == names[level - 1]
    ensures r.Err? ==> r.error == InvalidLevel(level, |names|)
  {
    if level <= 0 || level > |names| then Err(InvalidLevel(level, |names|))
    else Ok(names[level - 1])
  }

  /**
   * With a table of distinct names, the entry a heading writer picks
   * identifies the level: two levels that pick the same entry are equal.
   */
  lemma LevelNameIdentifiesLevel(names: seq<string>, a: int, b: int)
    requires forall i, j :: 0 <= i < j < |names| ==> names[i] != names[j]
    requires LevelName(names, a).Ok? && LevelName(names, b) == LevelName(names, a)
    ensures a == b
  {
  }
}
