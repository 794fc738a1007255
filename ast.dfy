/**
 * The document tree the parser produces: a root tagged "start" holding a flat
 * flow of component nodes. The theorem node of the environment-aware tree and
 * the slide node of the slides tree are part of the same type, so that every
 * transformer and generator works over one node type.
 */
module Ast {
  import opened Wrappers

  /** One `name[=value]` clause of an extension string or a directive. */
  datatype ExtClause = ExtClause(name: string, value: Option<string>)

  /** The elements a paragraph is made of. */
  datatype Element =
    | Text(text: string)
    | Bold(text: string)
    | Italic(text: string)
    | CodeInline(run: bool, src: string)
    | EqInline(eq: string)
    | InlineDirective(clauses: seq<ExtClause>)
      /** An element whose tag is none of the above; `value` is its `v` field. */
    | OtherElement(tag: string, value: string)

  /** The component nodes of a flow. */
  datatype Node =
    | Heading(text: string, level: int, ext: Option<seq<ExtClause>>)
    | Paragraph(elements: seq<Element>)
    | Codeblock(run: bool, src: string, ext: Option<seq<ExtClause>>)
    | EqBlock(eq: string)
    | Image(alt: string, path: string, title: Option<string>, ext: Option<seq<ExtClause>>)
    | HRule
    | RootDirective(clauses: seq<ExtClause>)
    | Theorem(name: string, statement: string, proof: Option<string>)
    | Slide(contents: seq<Node>)
      /** A node whose tag is none of the above. */
    | OtherNode(tag: string)

  /** A root node: its tag (always "start" when produced by the parser) and its flow. */
  datatype Root = Root(t: string, v: seq<Node>)

  const START := "start"

  /** The `t` tag of a node. */
  function Tag(n: Node): string
  {
    match n
    case Heading(_, _, _) => "heading"
    case Paragraph(_) => "paragraph"
    case Codeblock(_, _, _) => "codeblock"
    case EqBlock(_) => "eqblock"
    case Image(_, _, _, _) => "image"
    case HRule => "hrule"
    case RootDirective(_) => "rootdirect"
    case Theorem(_, _, _) => "theorem"
    case Slide(_) => "slide"
    case OtherNode(t) => t
  }

  /** The `t` tag of a paragraph element. */
  function ElementTag(e: Element): string
  {
    match e
    case Text(_) => "text"
    case Bold(_) => "bold"
    case Italic(_) => "italic"
    case CodeInline(_, _) => "codeinline"
    case EqInline(_) => "eqinline"
    case InlineDirective(_) => "inlinedirect"
    case OtherElement(t, _) => t
  }

  /**
   * The string an element's `v` field gives when it is joined into a string:
   * the text itself, or "[object Object]" for the elements whose `v` is an object.
   */
  function ElementValue(e: Element): string
  {
    match e
    case Text(s) => s
    case Bold(s) => s
    case Italic(s) => s
    case EqInline(s) => s
    case CodeInline(_, _) => "[object Object]"
    case InlineDirective(_) => "[object Object]"
    case OtherElement(_, v) => v
  }

  /** `elements.map(x => x.v)`. */
  function ElementValues(es: seq<Element>): (r: seq<string>)
    ensures |r| == |es|
    ensures forall i :: 0 <= i < |es| ==> r[i] == ElementValue(es[i])
  {
    if |es| == 0 then [] else [ElementValue(es[0])] + ElementValues(es[1..])
  }

  /** The keyword of the author heading. */
  const AUTHOR_KEYWORD := "author"
  /** The keyword of the abstract heading. */
  const ABSTRACT_KEYWORD := "abstract"
  /** The name of the directive that defines or expands an abbreviation. */
  const ABBREVIATION_DIRECTIVE := "abbr"
  /** The name of the directive that imports another document. */
  const IMPORT_DIRECTIVE := "import"

  /** `findIndex`: the first position whose node satisfies `p`, or `None` (-1). */
  function FindIndex(ns: seq<Node>, p: Node -> bool): (r: Option<nat>)
    ensures r.Some? ==> r.value < |ns| && p(ns[r.value])
    ensures r.Some? ==> forall j :: 0 <= j < r.value ==> !p(ns[j])
    ensures r.None? <==> forall j :: 0 <= j < |ns| ==> !p(ns[j])
  {
    if |ns| == 0 then None
    else if p(ns[0]) then Some(0)
    else
      var r := FindIndex(ns[1..], p);
      if r.Some? then Some(r.value + 1) else None
  }

  /** The index found by a scan that stopped at the first node satisfying `p`. */
  lemma FindIndexIsFirst(ns: seq<Node>, p: Node -> bool, i: nat)
    requires i < |ns| && p(ns[i])
    requires forall j :: 0 <= j < i ==> !p(ns[j])
    ensures FindIndex(ns, p) == Some(i)
  {
  }

  /** `slice(from).findIndex(p)` finds the first node from `from` on, counted from `from`. */
  lemma {:induction false} FindIndexFrom(ns: seq<Node>, from: nat, p: Node -> bool, i: nat)
    requires from <= i < |ns| && p(ns[i])
    requires forall j :: from <= j < i ==> !p(ns[j])
    ensures FindIndex(ns[from..], p) == Some(i - from)
  {
    FindIndexIsFirst(ns[from..], p, i - from);
  }

  /** `slice(from).findIndex(p)` is -1 when no node from `from` on satisfies `p`. */
  lemma {:induction false} FindIndexFromNone(ns: seq<Node>, from: nat, p: Node -> bool)
    requires from <= |ns|
    requires forall j :: from <= j < |ns| ==> !p(ns[j])
    ensures FindIndex(ns[from..], p).None?
  {
    assert forall j :: 0 <= j < |ns[from..]| ==> ns[from..][j] == ns[from + j];
  }

  predicate IsParagraph(n: Node) { n.Paragraph? }

  /** `slice(from).find(paragraph)`: the first paragraph at or after `from`. */
  function ParagraphFrom(ns: seq<Node>, from: nat): (r: Option<Node>)
    requires from <= |ns|
    ensures r.Some? ==> r.value.Paragraph?
  {
    var p := FindIndex(ns[from..], IsParagraph);
    if p.None? then None else Some(ns[from + p.value])
  }

  /**
   * The paragraph of a named section: the first paragraph after the first
   * heading satisfying `isSection` that comes at or after the title heading.
   */
  function SectionParagraph(ns: seq<Node>, isSection: Node -> bool): Option<Node>
  {
    var t := FindIndex(ns, IsLevelOneHeading);
    if t.None? then None
    else
      var h := FindIndex(ns[t.value..], isSection);
      if h.None? then None else ParagraphFrom(ns, t.value + h.value)
  }

  /**
   * The same search as the author and abstract helpers write it: the section
   * heading's index is found in the list that starts at the title, but then
   * used to slice the whole list.
   */
  function SectionParagraphAsWritten(ns: seq<Node>, isSection: Node -> bool): Option<Node>
  {
    var t := FindIndex(ns, IsLevelOneHeading);
    if t.None? then None
    else
      var h := FindIndex(ns[t.value..], isSection);
      if h.None? then None else ParagraphFrom(ns, h.value)
  }

  /** A flow without a title heading has no section paragraph. */
  lemma NoTitleNoSection(ns: seq<Node>, isSection: Node -> bool)
    requires forall j :: 0 <= j < |ns| ==> !IsLevelOneHeading(ns[j])
    ensures SectionParagraph(ns, isSection).None?
    ensures SectionParagraphAsWritten(ns, isSection).None?
  {
  }

  /** With the title at `t` and no section heading from there on, there is no section paragraph. */
  lemma {:induction false} NoSectionHeading(ns: seq<Node>, isSection: Node -> bool, t: nat)
    requires t < |ns| && IsLevelOneHeading(ns[t])
    requires forall j :: 0 <= j < t ==> !IsLevelOneHeading(ns[j])
    requires forall j :: t <= j < |ns| ==> !isSection(ns[j])
    ensures SectionParagraph(ns, isSection).None?
  {
    FindIndexIsFirst(ns, IsLevelOneHeading, t);
    FindIndexFromNone(ns, t, isSection);
  }

  /**
   * With the title at `t` and the first section heading from there on at
   * `h`, the search continues from `h`; as written, it continues from the
   * heading's offset from the title, `h - t`.
   */
  lemma {:induction false} SectionParagraphFrom(ns: seq<Node>, isSection: Node -> bool, t: nat, h: nat)
    requires t <= h < |ns|
    requires IsLevelOneHeading(ns[t]) && forall j :: 0 <= j < t ==> !IsLevelOneHeading(ns[j])
    requires isSection(ns[h]) && forall j :: t <= j < h ==> !isSection(ns[j])
    ensures SectionParagraph(ns, isSection) == ParagraphFrom(ns, h)
    ensures SectionParagraphAsWritten(ns, isSection) == ParagraphFrom(ns, h - t)
  {
    FindIndexIsFirst(ns, IsLevelOneHeading, t);
    FindIndexFrom(ns, t, isSection, h);
  }

  /** The first paragraph at or after `h` is the one at `q` when none lies between. */
  lemma {:induction false} ParagraphFromAt(ns: seq<Node>, h: nat, q: nat)
    requires h <= q < |ns|
    requires ns[q].Paragraph? && forall j :: h <= j < q ==> !ns[j].Paragraph?
    ensures ParagraphFrom(ns, h) == Some(ns[q])
  {
    FindIndexFrom(ns, h, IsParagraph, q);
  }

  /**
   * With the title at `t`, the first section heading from there on at `h` and
   * the first paragraph after it at `q`, the section paragraph is `ns[q]`.
   */
  lemma {:induction false} SectionParagraphAt(ns: seq<Node>, isSection: Node -> bool, t: nat, h: nat, q: nat)
    requires t <= h <= q < |ns|
    requires IsLevelOneHeading(ns[t]) && forall j :: 0 <= j < t ==> !IsLevelOneHeading(ns[j])
    requires isSection(ns[h]) && forall j :: t <= j < h ==> !isSection(ns[j])
    requires ns[q].Paragraph? && forall j :: h <= j < q ==> !ns[j].Paragraph?
    ensures SectionParagraph(ns, isSection) == Some(ns[q])
  {
    SectionParagraphFrom(ns, isSection, t, h);
    ParagraphFromAt(ns, h, q);
  }

  /**
   * As written, with the title at `t`, the first section heading from there
   * on at `h` and the first paragraph at or after `h - t` at `q`, the section
   * paragraph is `ns[q]`.
   */
  lemma {:induction false} SectionAsWrittenAt(ns: seq<Node>, isSection: Node -> bool, t: nat, h: nat, q: nat)
    requires t <= h < |ns| && h - t <= q < |ns|
    requires IsLevelOneHeading(ns[t]) && forall j :: 0 <= j < t ==> !IsLevelOneHeading(ns[j])
    requires isSection(ns[h]) && forall j :: t <= j < h ==> !isSection(ns[j])
    requires ns[q].Paragraph? && forall j :: h - t <= j < q ==> !ns[j].Paragraph?
    ensures SectionParagraphAsWritten(ns, isSection) == Some(ns[q])
  {
    SectionParagraphFrom(ns, isSection, t, h);
    ParagraphFromAt(ns, h - t, q);
  }

  /** With no paragraph after the section heading, there is no section paragraph. */
  lemma {:induction false} SectionWithoutParagraph(ns: seq<Node>, isSection: Node -> bool, t: nat, h: nat)
    requires t <= h < |ns|
    requires IsLevelOneHeading(ns[t]) && forall j :: 0 <= j < t ==> !IsLevelOneHeading(ns[j])
    requires isSection(ns[h]) && forall j :: t <= j < h ==> !isSection(ns[j])
    requires forall j :: h <= j < |ns| ==> !ns[j].Paragraph?
    ensures SectionParagraph(ns, isSection).None?
  {
    SectionParagraphFrom(ns, isSection, t, h);
    FindIndexFromNone(ns, h, IsParagraph);
  }

  /** When the title heading comes first, the search as written is right. */
  lemma {:induction false} SectionAsWrittenAgreesWhenTitleFirst(ns: seq<Node>, isSection: Node -> bool)
    requires |ns| > 0 && IsLevelOneHeading(ns[0])
    ensures SectionParagraphAsWritten(ns, isSection) == SectionParagraph(ns, isSection)
  {
    FindIndexIsFirst(ns, IsLevelOneHeading, 0);
  }

  /**
   * A paragraph before the title, one node past the flow's start, is what the
   * search as written finds when the section heading directly follows the
   * title at index 2; the corrected search finds the paragraph after the
   * section heading.
   */
  lemma {:induction false} SectionAsWrittenReadsBeforeTitle(before: Node, intro: Node, title: Node, heading: Node,
                                         par: Node, isSection: Node -> bool)
    requires !before.Paragraph? && !IsLevelOneHeading(before) && !IsLevelOneHeading(intro)
    requires intro.Paragraph? && par.Paragraph?
    requires IsLevelOneHeading(title) && !isSection(title)
    requires isSection(heading) && !heading.Paragraph?
    ensures SectionParagraphAsWritten([before, intro, title, heading, par], isSection) == Some(intro)
    ensures SectionParagraph([before, intro, title, heading, par], isSection) == Some(par)
  {
    var ns := [before, intro, title, heading, par];
    FindIndexIsFirst(ns, IsLevelOneHeading, 2);
    FindIndexFrom(ns, 2, isSection, 3);
    FindIndexFrom(ns, 1, IsParagraph, 1);
    FindIndexFrom(ns, 3, IsParagraph, 4);
  }

  predicate IsHeading(n: Node) { n.Heading? }

  /** A heading of level 1, the title heading of a document. */
  predicate IsLevelOneHeading(n: Node) { n.Heading? && n.level == 1 }

  /** The number of nodes of a flow that satisfy `p`. */
  function Count(ns: seq<Node>, p: Node -> bool): (r: nat)
    ensures r <= |ns|
  {
    if |ns| == 0 then 0 else (if p(ns[0]) then 1 else 0) + Count(ns[1..], p)
  }

  lemma {:induction false} CountAppend(a: seq<Node>, b: seq<Node>, p: Node -> bool)
    ensures Count(a + b, p) == Count(a, p) + Count(b, p)
  {
    if |a| == 0 {
      assert a + b == b;
    } else {
      assert (a + b)[1..] == a[1..] + b;
      CountAppend(a[1..], b, p);
    }
  }

  /** `filter(p)`: the nodes satisfying `p`, in order. */
  function Filter(ns: seq<Node>, p: Node -> bool): (r: seq<Node>)
    ensures |r| == Count(ns, p)
    ensures forall i :: 0 <= i < |r| ==> p(r[i])
    ensures forall n :: n in ns && p(n) ==> n in r
    ensures forall n :: n in r ==> n in ns
  {
    if |ns| == 0 then []
    else if p(ns[0]) then [ns[0]] + Filter(ns[1..], p)
    else
      assert forall n :: n in ns && n != ns[0] ==> n in ns[1..];
      Filter(ns[1..], p)
  }

  /** `xs` is `ys` with some elements left out, order kept. */
  predicate IsSubsequence(xs: seq<Node>, ys: seq<Node>)
    decreases |ys|
  {
    if |xs| == 0 then true
    else if |ys| == 0 then false
    else if xs[0] == ys[0] then IsSubsequence(xs[1..], ys[1..])
    else IsSubsequence(xs, ys[1..])
  }

  lemma {:induction false} SubsequenceExtend(xs: seq<Node>, ys: seq<Node>, n: Node)
    requires IsSubsequence(xs, ys)
    ensures IsSubsequence(xs + [n], ys + [n])
    ensures IsSubsequence(xs, ys + [n])
    decreases |ys|
  {
    if |xs| == 0 {
      assert xs + [n] == [n];
      SubsequenceLast(ys, n);
    } else {
      assert (xs + [n])[1..] == xs[1..] + [n];
      assert (ys + [n])[1..] == ys[1..] + [n];
      if xs[0] == ys[0] {
        SubsequenceExtend(xs[1..], ys[1..], n);
      } else {
        SubsequenceExtend(xs, ys[1..], n);
      }
    }
  }

  lemma {:induction false} SubsequenceLast(ys: seq<Node>, n: Node)
    ensures IsSubsequence([n], ys + [n])
    decreases |ys|
  {
    if |ys| == 0 {
      assert IsSubsequence([n][1..], []);
    } else {
      assert (ys + [n])[1..] == ys[1..] + [n];
      SubsequenceLast(ys[1..], n);
      if ys[0] == n {
        assert IsSubsequence([n][1..], (ys + [n])[1..]);
      }
    }
  }
}
