/**
 * The first reveal.js renderer. Its writers are those of
 * `HtmlSlidesRenderer`; its page has no `lang` attribute and reads only the
 * title of the information, which its generator always computes.
 */
module HtmlSlidesRendererOld {
  import opened Wrappers
  import opened Rendering
  import HtmlSlidesRenderer

  /** `getPageTemplate`: the later page without a language attribute. */
  function Page(content: string, paths: HtmlSlidesRenderer.SlidesPaths, info: DocumentInfo): string
  {
    HtmlSlidesRenderer.PageWith("", content, paths, info.title)
  }

  /** It is the later page of the same document with its language unset. */
  lemma LaterPageWithoutLanguage(content: string, paths: HtmlSlidesRenderer.SlidesPaths, info: DocumentInfo)
    ensures HtmlSlidesRenderer.Page(content, paths, Some(info.(language := None))) == Ok(Page(content, paths, info))
  {
  }
}
