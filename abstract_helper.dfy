/**
 * The abstract of a document: the element values of the first paragraph
 * after the abstract heading, where the abstract heading is searched from the
 * title heading on.
 */
module AbstractHelper {
  import opened Wrappers
  import opened Text
  import opened Ast

  /** A heading of level at most 2 whose lower-cased, trimmed text is the abstract keyword. */
  predicate IsAbstractHeading(n: Node)
  {
    n.Heading? && n.level <= 2 && Trim(ToLower(n.text)) == ABSTRACT_KEYWORD
  }

  /** The element values of a paragraph, one per element, or `[]` when there is no paragraph. */
  function ValuesOf(p: Option<Node>): seq<string>
  {
    if p.Some? && p.value.Paragraph? then ElementValues(p.value.elements) else []
  }

  /** `getAbstract` as written, reading the paragraph from the wrong position. */
  function GetAbstractAsWritten(ns: seq<Node>): seq<string>
  {
    ValuesOf(SectionParagraphAsWritten(ns, IsAbstractHeading))
  }

  /** `getAbstract` with the abstract heading's index taken in the whole list. */
  function GetAbstract(ns: seq<Node>): seq<string>
  {
    ValuesOf(SectionParagraph(ns, IsAbstractHeading))
  }

  /**
   * With the title at `t` and the first abstract heading from there on at
   * `h`, the abstract is the element values of the first paragraph after it,
   * at `q`, one entry per element and in order.
   */
  lemma AbstractIsParagraphAfterHeading(ns: seq<Node>, t: nat, h: nat, q: nat)
    requires t <= h < q < |ns|
    requires IsLevelOneHeading(ns[t]) && forall j :: 0 <= j < t ==> !IsLevelOneHeading(ns[j])
    requires IsAbstractHeading(ns[h]) && forall j :: t <= j < h ==> !IsAbstractHeading(ns[j])
    requires ns[q].Paragraph? && forall j :: h <= j < q ==> !ns[j].Paragraph?
    ensures |GetAbstract(ns)| == |ns[q].elements|
    ensures forall i :: 0 <= i < |ns[q].elements| ==> GetAbstract(ns)[i] == ElementValue(ns[q].elements[i])
  {
    SectionParagraphAt(ns, IsAbstractHeading, t, h, q);
  }

  /** With no paragraph after the abstract heading, the abstract is empty. */
  lemma NoParagraphAfterAbstractHeading(ns: seq<Node>, t: nat, h: nat)
    requires t <= h < |ns|
    requires IsLevelOneHeading(ns[t]) && forall j :: 0 <= j < t ==> !IsLevelOneHeading(ns[j])
    requires IsAbstractHeading(ns[h]) && forall j :: t <= j < h ==> !IsAbstractHeading(ns[j])
    requires forall j :: h <= j < |ns| ==> !ns[j].Paragraph?
    ensures GetAbstract(ns) == []
  {
    SectionWithoutParagraph(ns, IsAbstractHeading, t, h);
  }

  /** Without a title heading there is no abstract. */
  lemma NoTitleNoAbstract(ns: seq<Node>)
    requires forall j :: 0 <= j < |ns| ==> !IsLevelOneHeading(ns[j])
    ensures GetAbstract(ns) == [] && GetAbstractAsWritten(ns) == []
  {
    NoTitleNoSection(ns, IsAbstractHeading);
  }

  /** With the title at `t` and no abstract heading from there on, there is no abstract. */
  lemma NoAbstractHeading(ns: seq<Node>, t: nat)
    requires t < |ns| && IsLevelOneHeading(ns[t])
    requires forall j :: 0 <= j < t ==> !IsLevelOneHeading(ns[j])
    requires forall j :: t <= j < |ns| ==> !IsAbstractHeading(ns[j])
    ensures GetAbstract(ns) == []
  {
    NoSectionHeading(ns, IsAbstractHeading, t);
  }

  /** The heading "abstract" at level 2 is an abstract heading. */
  lemma AbstractKeywordHeading()
    ensures IsAbstractHeading(Heading(ABSTRACT_KEYWORD, 2, None))
  {
    ToLowerPointwise(ABSTRACT_KEYWORD);
    assert ToLower(ABSTRACT_KEYWORD) == ABSTRACT_KEYWORD;
    assert ABSTRACT_KEYWORD[0] == 'a' && ABSTRACT_KEYWORD[|ABSTRACT_KEYWORD| - 1] == 't';
    TrimNoEdgeSpace(ABSTRACT_KEYWORD);
  }

  /**
   * A flow with a paragraph before the title: as written, that paragraph's
   * values are taken for the abstract; corrected, those of the paragraph
   * after the abstract heading are.
   */
  lemma AsWrittenReadsParagraphBeforeTitle(intro: seq<Element>, title: Node, heading: Node, text: seq<Element>)
    requires IsLevelOneHeading(title) && !IsAbstractHeading(title)
    requires heading.Heading? && IsAbstractHeading(heading)
    ensures var ns := [HRule, Paragraph(intro), title, heading, Paragraph(text)];
      GetAbstractAsWritten(ns) == ElementValues(intro) && GetAbstract(ns) == ElementValues(text)
  {
    SectionAsWrittenReadsBeforeTitle(HRule, Paragraph(intro), title, heading, Paragraph(text), IsAbstractHeading);
  }

  /** When the title heading comes first, the flaw has no effect. */
  lemma AsWrittenAgreesWhenTitleFirst(ns: seq<Node>)
    requires |ns| > 0 && IsLevelOneHeading(ns[0])
    ensures GetAbstractAsWritten(ns) == GetAbstract(ns)
  {
    SectionAsWrittenAgreesWhenTitleFirst(ns, IsAbstractHeading);
  }
}
