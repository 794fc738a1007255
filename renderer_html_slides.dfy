/**
 * The renderer of reveal.js slide decks. Its paragraph, heading and code
 * writers are those of `HtmlTufteRenderer`; a slide is a `section`, an image
 * a bare `img` tag, and a horizontal rule cannot be written, because the
 * generator turns every rule into a slide break. The page reads the served
 * reveal.js directories, whose serving is outside this model, and the
 * document information the generator hands over, which may be unset.
 */
module HtmlSlidesRenderer {
  import opened Wrappers
  import opened Text
  import opened Rendering
  import Extensions
  import ResourceImages
  import HtmlTufteRenderer

  /** `writeSlide`: the content inside a `section`. */
  function WriteSlide(content: string): (r: string)
    ensures r == "<section>" + content + "</section>"
  {
    ConcatThree("<section>", content, "</section>");
    Concat(["<section>", content, "</section>"])
  }

  /** The message `writeHRule` throws. */
  const NOT_IMPLEMENTED := "Not implemented"

  /** `writeHRule` always throws. */
  function WriteHRule(): (r: Result<string>)
    ensures r == Err(NOT_IMPLEMENTED)
  {
    Err(NOT_IMPLEMENTED)
  }

  /** The virtual path of the written output. */
  const INDEX_HTML := "/index.html"

  /** The served reveal.js directories. */
  datatype SlidesPaths = SlidesPaths(dist: string, plugin: string)

  /** The parts of the page before the content. */
  function Head(langAttribute: string, title: Option<string>, paths: SlidesPaths): seq<string>
  {
    ["<!DOCTYPE html>",
     "<html" + langAttribute + ">",
     "<head>",
     "<meta charset='utf-8'/>",
     "<meta name='viewport' content='width=device-width, initial-scale=1.0, maximum-scale=1.0, user-scalable=no'>",
     "<title>" + Or(title, UNTITLED) + "</title>",
     "<link rel=\"stylesheet\" href=\"" + paths.dist + "/reset.css\">",
     "<link rel=\"stylesheet\" href=\"" + paths.dist + "/reveal.css\">",
     "<link rel=\"stylesheet\" href=\"" + paths.dist + "/theme/white.css\">",
     "<link rel=\"stylesheet\" href=\"" + paths.plugin + "/highlight/monokai.css\">",
     "</head>",
     "<body>",
     "<div class=\"reveal\">",
     "<div class=\"slides\">"]
  }

  /** The parts of the page after the content. */
  function Tail(paths: SlidesPaths): seq<string>
  {
    ["</div>",
     "</div>",
     "<script src=\"" + paths.dist + "/reveal.js\"></script>",
     "<script src=\"" + paths.plugin + "/notes/notes.js\"></script>",
     "<script src=\"" + paths.plugin + "/highlight/highlight.js\"></script>",
     "<script src=\"" + paths.plugin + "/math/math.js\"></script>",
     "<script>",
     "Reveal.initialize({hash: true, plugins: [ RevealHighlight, RevealNotes, RevealMath.MathJax3 ]});",
     "</script>",
     "</body>",
     "</html>"]
  }

  /** The page for a given `lang` attribute: the parts joined by "". */
  function PageWith(langAttribute: string, content: string, paths: SlidesPaths, title: Option<string>): string
  {
    Concat(Head(langAttribute, title, paths) + [content] + Tail(paths))
  }

  /** The content sits verbatim inside the slides `div`, which closes right after it. */
  lemma PageAroundContent(langAttribute: string, content: string, paths: SlidesPaths, title: Option<string>)
    ensures PageWith(langAttribute, content, paths, title)
      == Concat(Head(langAttribute, title, paths)) + content + Concat(Tail(paths))
    ensures Head(langAttribute, title, paths)[13] == "<div class=\"slides\">" && Tail(paths)[0] == "</div>"
    ensures Head(langAttribute, title, paths)[5] == "<title>" + (if Extensions.Truthy(title) then title.value else UNTITLED) + "</title>"
  {
    ConcatAround(Head(langAttribute, title, paths), content, Tail(paths));
  }

  /**
   * `getPageTemplate`: the `lang` attribute only when a language is set.
   * Reading the language of an unset information throws.
   */
  function Page(content: string, paths: SlidesPaths, info: Option<DocumentInfo>): (r: Result<string>)
    ensures info.None? <==> r.Err?
    ensures r.Err? ==> r.error == UndefinedRead("language")
    ensures info.Some? ==> r.value == PageWith(HtmlTufteRenderer.LangAttribute(info.value.language), content, paths, info.value.title)
  {
    if info.None? then Err(UndefinedRead("language"))
    else Ok(PageWith(HtmlTufteRenderer.LangAttribute(info.value.language), content, paths, info.value.title))
  }

  class HtmlSlidesRenderer {
    const outputImage: ResourceImages.ResourceImage
    /** The path under which the resource manager serves an image file. */
    const serveImage: string -> string

    constructor(outputImage: ResourceImages.ResourceImage, serveImage: string -> string)
      ensures this.outputImage == outputImage && this.serveImage == serveImage
    {
      this.outputImage := outputImage;
      this.serveImage := serveImage;
    }

    /** `writeOutput`: the output is added to the output image as `/index.html`, whose path is returned. */
    method WriteOutput(output: string) returns (vpath: string)
      modifies outputImage
      ensures vpath == INDEX_HTML
      ensures outputImage.components
        == old(outputImage.components) + [ResourceImages.Component(INDEX_HTML, ResourceImages.Encode(ResourceImages.TextValue(output)))]
    {
      vpath := INDEX_HTML;
      outputImage.AddString(ResourceImages.TextValue(output), vpath);
    }

    /**
     * `writeRoot` with the served paths. The imported renderer overrides an
     * instance page method that this static call never reaches, so imported
     * documents get the full page too.
     */
    function WriteRoot(content: string, paths: SlidesPaths, info: Option<DocumentInfo>): (r: Result<string>)
      ensures info.None? ==> r == Err(UndefinedRead("language"))
      ensures info.Some? ==> r == Ok(PageWith(HtmlTufteRenderer.LangAttribute(info.value.language), content, paths, info.value.title))
    {
      Page(content, paths, info)
    }

    /** `writeImage`: a bare image tag on the served path; no reference id, no figure. */
    function WriteImage(alt: string, path: string, title: Option<string>, ext: Option<Extensions.Values>): (r: string)
      ensures r == "<img src=\"" + serveImage(path) + "\" alt=\"" + alt + "\" />"
    {
      HtmlTufteRenderer.ImageTag(serveImage(path), alt)
    }
  }
}
