/**
 * The first HTML Tufte template, from before the renderers: the heading,
 * paragraph, inline and code block writers of `HtmlTufteRenderer`, no
 * figures, equations or rules, and a page fixed to English whose title
 * falls back to the empty string and which leaves the `html` element open.
 * Serving the style sheets and the script is outside this model.
 */
module HtmlTufteTemplate {
  import opened Wrappers
  import opened Text
  import opened Rendering
  import Extensions
  import HtmlTufteRenderer

  /** The parts of the page before the content. */
  function Head(title: Option<string>, paths: HtmlTufteRenderer.PagePaths): seq<string>
  {
    ["<html lang='en'>",
     "<head>",
     "<meta charset='utf-8'/>",
     "<title>" + Or(title, "") + "</title>",
     "<link rel='stylesheet' href='" + paths.latexCss + "'>",
     "<link rel='stylesheet' href='" + paths.tufteCss + "'>",
     "<script id='MathJax-script' async src='" + paths.mathjaxJs + "/tex-chtml.js'></script>",
     "<meta name='viewport' content='width=device-width, initial-scale=1'>",
     "</head>",
     "<body>",
     "<article>"]
  }

  /** `getPageTemplate`: the parts joined by "". */
  function Page(content: string, paths: HtmlTufteRenderer.PagePaths, info: DocumentInfo): string
  {
    Concat(Head(info.title, paths) + [content] + ["</article>", "</body>"])
  }

  /**
   * The page is in English whatever the information says, its title is
   * empty when the document has none, and it ends right after the body.
   */
  lemma PageStructure(content: string, paths: HtmlTufteRenderer.PagePaths, info: DocumentInfo)
    ensures Page(content, paths, info) == Concat(Head(info.title, paths)) + content + "</article></body>"
    ensures Head(info.title, paths)[0] == "<html lang='en'>"
    ensures !Extensions.Truthy(info.title) ==> Head(info.title, paths)[3] == "<title></title>"
    ensures Extensions.Truthy(info.title) ==> Head(info.title, paths)[3] == "<title>" + info.title.value + "</title>"
  {
    ConcatAround(Head(info.title, paths), content, ["</article>", "</body>"]);
    ConcatTwo("</article>", "</body>");
  }
}
