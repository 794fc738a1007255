/**
 * The first HTML Tufte renderer. Its writers and figures are those of
 * `HtmlTufteRenderer`; its page has no `lang` attribute and no article
 * header, and there is no renderer of imported documents.
 */
module HtmlTufteRendererOld {
  import opened Wrappers
  import opened Text
  import opened Rendering
  import Extensions
  import HtmlTufteRenderer

  /** `getPageTemplate`: the head without a language, the content, the closing tags. */
  function Page(content: string, paths: HtmlTufteRenderer.PagePaths, info: DocumentInfo): string
  {
    Concat(HtmlTufteRenderer.Head("", info.title, paths) + [content] + HtmlTufteRenderer.EPILOGUE)
  }

  /**
   * The content follows the opening of the article directly, with no header
   * blocks; the `<html>` tag carries no language, and the title falls back
   * to "Untitled".
   */
  lemma PageStructure(content: string, paths: HtmlTufteRenderer.PagePaths, info: DocumentInfo)
    ensures var head := HtmlTufteRenderer.Head("", info.title, paths);
      && Page(content, paths, info) == Concat(head) + content + "</article></body></html>"
      && head[1] == "<html>" && head[11] == "<article>"
      && head[4] == "<title>" + (if Extensions.Truthy(info.title) then info.title.value else UNTITLED) + "</title>"
  {
    ConcatAround(HtmlTufteRenderer.Head("", info.title, paths), content, HtmlTufteRenderer.EPILOGUE);
    ConcatThree("</article>", "</body>", "</html>");
  }

  /**
   * It is the later page of a document with no language, author or abstract
   * and a title that is not shown as a heading.
   */
  lemma LaterPageWithoutHeader(content: string, paths: HtmlTufteRenderer.PagePaths, info: DocumentInfo)
    requires !Extensions.Truthy(info.title)
    ensures Page(content, paths, info) == HtmlTufteRenderer.Page(content, paths, DocumentInfo(info.title, None, None, None))
  {
    var later := DocumentInfo(info.title, None, None, None);
    PageStructure(content, paths, info);
    HtmlTufteRenderer.PageStructure(content, paths, later);
    HtmlTufteRenderer.HeaderText(later);
    assert HtmlTufteRenderer.LangAttribute(None) == "";
  }
}
