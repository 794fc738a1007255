/**
 * The author of a document: the text of the first paragraph after the author
 * heading, where the author heading is searched from the title heading on.
 */
module AuthorHelper {
  import opened Wrappers
  import opened Text
  import opened Ast

  /** A heading of level at most 2 whose lower-cased, trimmed text is the author keyword. */
  predicate IsAuthorHeading(n: Node)
  {
    n.Heading? && n.level <= 2 && Trim(ToLower(n.text)) == AUTHOR_KEYWORD
  }

  /** The element values of a paragraph joined with "", or "" when there is no paragraph. */
  function JoinedText(p: Option<Node>): string
  {
    if p.Some? && p.value.Paragraph? then Concat(ElementValues(p.value.elements)) else ""
  }

  /** `getAuthor` as written, reading the paragraph from the wrong position. */
  function GetAuthorAsWritten(ns: seq<Node>): string
  {
    JoinedText(SectionParagraphAsWritten(ns, IsAuthorHeading))
  }

  /** `getAuthor` with the author heading's index taken in the whole list. */
  function GetAuthor(ns: seq<Node>): string
  {
    JoinedText(SectionParagraph(ns, IsAuthorHeading))
  }

  /**
   * With the title at `t` and the first author heading from there on at `h`,
   * the author is the text of the first paragraph after it, at `q`.
   */
  lemma AuthorIsParagraphAfterHeading(ns: seq<Node>, t: nat, h: nat, q: nat)
    requires t <= h < q < |ns|
    requires IsLevelOneHeading(ns[t]) && forall j :: 0 <= j < t ==> !IsLevelOneHeading(ns[j])
    requires IsAuthorHeading(ns[h]) && forall j :: t <= j < h ==> !IsAuthorHeading(ns[j])
    requires ns[q].Paragraph? && forall j :: h <= j < q ==> !ns[j].Paragraph?
    ensures GetAuthor(ns) == Concat(ElementValues(ns[q].elements))
  {
    SectionParagraphAt(ns, IsAuthorHeading, t, h, q);
  }

  /**
   * As written, with the title at `t` and the first author heading from
   * there on at `h`, the author is the text of the first paragraph at or
   * after the offset `h - t`, at `q`, wherever that lies.
   */
  lemma AuthorAsWrittenIsParagraphFromOffset(ns: seq<Node>, t: nat, h: nat, q: nat)
    requires t <= h < |ns| && h - t <= q < |ns|
    requires IsLevelOneHeading(ns[t]) && forall j :: 0 <= j < t ==> !IsLevelOneHeading(ns[j])
    requires IsAuthorHeading(ns[h]) && forall j :: t <= j < h ==> !IsAuthorHeading(ns[j])
    requires ns[q].Paragraph? && forall j :: h - t <= j < q ==> !ns[j].Paragraph?
    ensures GetAuthorAsWritten(ns) == Concat(ElementValues(ns[q].elements))
  {
    SectionAsWrittenAt(ns, IsAuthorHeading, t, h, q);
  }

  /** With no paragraph after the author heading, the author is "". */
  lemma NoParagraphAfterAuthorHeading(ns: seq<Node>, t: nat, h: nat)
    requires t <= h < |ns|
    requires IsLevelOneHeading(ns[t]) && forall j :: 0 <= j < t ==> !IsLevelOneHeading(ns[j])
    requires IsAuthorHeading(ns[h]) && forall j :: t <= j < h ==> !IsAuthorHeading(ns[j])
    requires forall j :: h <= j < |ns| ==> !ns[j].Paragraph?
    ensures GetAuthor(ns) == ""
  {
    SectionWithoutParagraph(ns, IsAuthorHeading, t, h);
  }

  /** Without a title heading there is no author. */
  lemma NoTitleNoAuthor(ns: seq<Node>)
    requires forall j :: 0 <= j < |ns| ==> !IsLevelOneHeading(ns[j])
    ensures GetAuthor(ns) == "" && GetAuthorAsWritten(ns) == ""
  {
    NoTitleNoSection(ns, IsAuthorHeading);
  }

  /** With the title at `t` and no author heading from there on, there is no author. */
  lemma NoAuthorHeading(ns: seq<Node>, t: nat)
    requires t < |ns| && IsLevelOneHeading(ns[t])
    requires forall j :: 0 <= j < t ==> !IsLevelOneHeading(ns[j])
    requires forall j :: t <= j < |ns| ==> !IsAuthorHeading(ns[j])
    ensures GetAuthor(ns) == ""
  {
    NoSectionHeading(ns, IsAuthorHeading, t);
  }

  /** The author keyword is its own lower-cased, trimmed form. */
  lemma AuthorKeywordIsNormal()
    ensures Trim(ToLower(AUTHOR_KEYWORD)) == AUTHOR_KEYWORD
  {
    ToLowerPointwise(AUTHOR_KEYWORD);
    assert ToLower(AUTHOR_KEYWORD) == AUTHOR_KEYWORD;
    assert AUTHOR_KEYWORD[0] == 'a' && AUTHOR_KEYWORD[|AUTHOR_KEYWORD| - 1] == 'r';
    TrimNoEdgeSpace(AUTHOR_KEYWORD);
  }

  /** The heading "author" at level 2 is an author heading. */
  lemma AuthorKeywordHeading()
    ensures IsAuthorHeading(Heading(AUTHOR_KEYWORD, 2, None))
  {
    AuthorKeywordIsNormal();
  }

  /**
   * A flow with a paragraph before the title, such as an author heading like
   * the one of `AuthorKeywordHeading`: as written, the paragraph before the
   * title is taken for the author; corrected, the paragraph after the author
   * heading is.
   */
  lemma AsWrittenReadsParagraphBeforeTitle(intro: string, title: Node, heading: Node, name: string)
    requires IsLevelOneHeading(title) && !IsAuthorHeading(title)
    requires heading.Heading? && IsAuthorHeading(heading)
    ensures var ns := [HRule, Paragraph([Text(intro)]), title, heading, Paragraph([Text(name)])];
      GetAuthorAsWritten(ns) == intro && GetAuthor(ns) == name
  {
    var ns := [HRule, Paragraph([Text(intro)]), title, heading, Paragraph([Text(name)])];
    SectionAsWrittenReadsBeforeTitle(HRule, Paragraph([Text(intro)]), title, heading,
      Paragraph([Text(name)]), IsAuthorHeading);
    assert ElementValues([Text(intro)]) == [intro];
    assert ElementValues([Text(name)]) == [name];
    ConcatSingle(intro);
    ConcatSingle(name);
    assert GetAuthorAsWritten(ns) == intro;
    assert GetAuthor(ns) == name;
  }

  /** When the title heading comes first, the flaw has no effect. */
  lemma AsWrittenAgreesWhenTitleFirst(ns: seq<Node>)
    requires |ns| > 0 && IsLevelOneHeading(ns[0])
    ensures GetAuthorAsWritten(ns) == GetAuthor(ns)
  {
    SectionAsWrittenAgreesWhenTitleFirst(ns, IsAuthorHeading);
  }
}
