/**
 * Conditional content: a heading whose `if` extension names a definition
 * that has not been made yet is removed, together with everything below it
 * up to the next heading of the same or a higher rank. Root directives are
 * always kept, and `def` directives register definitions for what follows.
 */
module ConditionalTransformer {
  import opened Wrappers
  import opened Ast
  import Extensions

  /**
   * The definitions registered so far. A root directive with a single `def`
   * clause carrying a value defines that value; other directives define nothing.
   */
  function RegisterDefs(defs: set<string>, clauses: seq<ExtClause>): (r: set<string>)
    ensures defs <= r
    ensures |clauses| == 1 && clauses[0].name == "def" && clauses[0].value.Some? ==> clauses[0].value.value in r
  {
    if |clauses| == 1 && clauses[0].name == "def" && clauses[0].value.Some?
    then defs + {clauses[0].value.value}
    else defs
  }

  /** The definition a heading's `if` clause names, read through the extension parser. */
  function IfDef(ext: seq<ExtClause>): Option<string>
  {
    Extensions.ParseSpec(Extensions.Stringify(Some(ext))).result.ifDef
  }

  /** Whether the heading's guard fails: it names a definition not yet registered. */
  predicate GuardFails(ext: Option<seq<ExtClause>>, defs: set<string>)
  {
    ext.Some? && IfDef(ext.value).Some? && IfDef(ext.value).value !in defs
  }

  /** The loop state: the level of the hidden section (0 when none) and the definitions. */
  datatype State = State(level: int, defs: set<string>)

  /** What the loop body does with one node: the new state and whether the node is kept. */
  function Step(st: State, n: Node): (r: (State, bool))
    ensures n.RootDirective? ==> r.1 && r.0.level == st.level
    ensures !n.RootDirective? ==> r.0.defs == st.defs
    ensures !n.Heading? && !n.RootDirective? ==> r.0 == st && r.1 == (st.level <= 0)
    ensures n.Heading? && st.level > 0 && n.level > st.level ==> r == (st, false)
    ensures n.Heading? && (st.level <= 0 || n.level <= st.level) ==>
      if GuardFails(n.ext, st.defs) then r == (State(n.level, st.defs), false)
      else r.1 && r.0.defs == st.defs && (st.level > 0 ==> r.0.level == 0) && (st.level <= 0 ==> r.0 == st)
  {
    match n
    case RootDirective(clauses) => (State(st.level, RegisterDefs(st.defs, clauses)), true)
    case Heading(_, level, ext) =>
      if st.level > 0 && level > st.level then (st, false)
      else
        var reset := if st.level > 0 then 0 else st.level;
        if GuardFails(ext, st.defs) then (State(level, st.defs), false)
        else (State(reset, st.defs), true)
    case _ => (st, st.level <= 0)
  }

  /** The state and the kept nodes after the loop has gone through `ns`. */
  function Run(ns: seq<Node>): (State, seq<Node>)
  {
    if |ns| == 0 then (State(0, {}), [])
    else
      var prev := Run(ns[..|ns| - 1]);
      var step := Step(prev.0, ns[|ns| - 1]);
      (step.0, if step.1 then prev.1 + [ns[|ns| - 1]] else prev.1)
  }

  /** `ConditionalContentAstTransformer.transform`. */
  method Transform(ast: Root) returns (r: Root)
    ensures r == Root(START, Run(ast.v).1)
  {
    var newComponents: seq<Node> := [];
    var st := State(0, {});
    var i := 0;
    while i < |ast.v|
      invariant 0 <= i <= |ast.v|
      invariant (st, newComponents) == Run(ast.v[..i])
    {
      var node := ast.v[i];
      assert ast.v[..i + 1][..i] == ast.v[..i];
      var step := Step(st, node);
      st := step.0;
      if step.1 {
        newComponents := newComponents + [node];
      }
      i := i + 1;
    }
    assert ast.v[..|ast.v|] == ast.v;
    r := Root(START, newComponents);
  }

  /** Nodes are only dropped, never created or reordered. */
  lemma {:induction false} RunIsSubsequence(ns: seq<Node>)
    ensures IsSubsequence(Run(ns).1, ns)
  {
    if |ns| > 0 {
      var init := ns[..|ns| - 1];
      RunIsSubsequence(init);
      SubsequenceExtend(Run(init).1, init, ns[|ns| - 1]);
      assert init + [ns[|ns| - 1]] == ns;
    }
  }

  /** Every root directive of the input is in the output, hidden section or not. */
  lemma {:induction false} RootDirectivesKept(ns: seq<Node>)
    ensures Count(Run(ns).1, (n: Node) => n.RootDirective?) == Count(ns, (n: Node) => n.RootDirective?)
  {
    var p := (n: Node) => n.RootDirective?;
    if |ns| > 0 {
      var init := ns[..|ns| - 1];
      var last := ns[|ns| - 1];
      RootDirectivesKept(init);
      assert init + [last] == ns;
      CountAppend(init, [last], p);
      if Step(Run(init).0, last).1 {
        CountAppend(Run(init).1, [last], p);
      }
    }
  }

  /** The hidden level is never negative, and it is 0 or a heading's level. */
  lemma {:induction false} LevelIsZeroOrAHeadingLevel(ns: seq<Node>)
    ensures Run(ns).0.level == 0 || exists i :: 0 <= i < |ns| && ns[i].Heading? && ns[i].level == Run(ns).0.level
  {
    if |ns| > 0 {
      var init := ns[..|ns| - 1];
      LevelIsZeroOrAHeadingLevel(init);
      if Run(ns).0.level != 0 && Run(ns).0.level == Run(init).0.level {
        var i :| 0 <= i < |init| && init[i].Heading? && init[i].level == Run(init).0.level;
        assert ns[i] == init[i];
      }
    }
  }

  lemma EmptyInput()
    ensures Run([]).1 == []
  {
  }

  // The fixtures of the transformer's tests.

  function PlainHeading(text: string, level: int): Node
  {
    Heading(text, level, None)
  }

  function GuardedHeading(text: string, level: int, def: string): Node
  {
    Heading(text, level, Some([ExtClause("if", Some(def))]))
  }

  function TextParagraph(text: string): Node
  {
    Paragraph([Text(text)])
  }

  function Def(name: string): Node
  {
    RootDirective([ExtClause("def", Some(name))])
  }

  lemma IfDefOfGuard(def: string)
    requires Extensions.PlainText(def)
    ensures IfDef([ExtClause("if", Some(def))]) == Some(if def == "" then "true" else def)
  {
    var cs := [ExtClause("if", Some(def))];
    assert Extensions.PlainClauses(cs);
    Extensions.ParseStringifyRoundTrip(cs);
  }

  /** One more node: the loop state after `ns + [n]` is the step from the state after `ns`. */
  lemma Extend(ns: seq<Node>, n: Node, st: State, out: seq<Node>, st': State, keep: bool)
    requires Run(ns) == (st, out)
    requires Step(st, n) == (st', keep)
    ensures Run(ns + [n]) == (st', if keep then out + [n] else out)
  {
    assert (ns + [n])[..|ns|] == ns;
  }

  /** A section guarded by an undefined flag is hidden: 4 nodes give 2, whatever their texts. */
  lemma OneHiddenSection(flag: string, t1: string, t2: string, t3: string, t4: string)
    requires Extensions.PlainText(flag) && flag != ""
    ensures |Run([PlainHeading(t1, 2), TextParagraph(t2), GuardedHeading(t3, 2, flag), TextParagraph(t4)]).1| == 2
  {
    var a, b, c, d := PlainHeading(t1, 2), TextParagraph(t2), GuardedHeading(t3, 2, flag), TextParagraph(t4);
    IfDefOfGuard(flag);
    SectionHidden(a, b, c, d);
    assert [a, b, c, d] == [] + [a] + [b] + [c] + [d];
  }

  /** The chain of `OneHiddenSection`, on nodes whose guard facts are given. */
  lemma SectionHidden(a: Node, b: Node, c: Node, d: Node)
    requires a.Heading? && a.level == 2 && a.ext.None? && b.Paragraph?
    requires c.Heading? && c.level == 2 && GuardFails(c.ext, {}) && d.Paragraph?
    ensures Run([] + [a] + [b] + [c] + [d]) == (State(2, {}), [] + [a] + [b])
  {
    var shown, hidden := State(0, {}), State(2, {});
    Extend([], a, shown, [], shown, true);
    Extend([] + [a], b, shown, [] + [a], shown, true);
    Extend([] + [a] + [b], c, shown, [] + [a] + [b], hidden, false);
    Extend([] + [a] + [b] + [c], d, hidden, [] + [a] + [b], hidden, false);
  }

  /**
   * Once `def` has defined the flag, a section guarded by it is kept like an
   * unguarded one: every node of the flow is kept.
   */
  lemma GuardedSectionKept(z: Node, a: Node, b: Node, c: Node, d: Node, flag: string)
    requires z == RootDirective([ExtClause("def", Some(flag))])
    requires a.Heading? && a.level == 2 && a.ext.None? && b.Paragraph?
    requires c.Heading? && c.level == 2 && !GuardFails(c.ext, {flag}) && d.Paragraph?
    ensures Run([] + [z] + [a] + [b] + [c] + [d]).1 == [] + [z] + [a] + [b] + [c] + [d]
  {
    var shown := State(0, {flag});
    assert RegisterDefs({}, z.clauses) == {flag};
    Extend([], z, State(0, {}), [], shown, true);
    Extend([] + [z], a, shown, [] + [z], shown, true);
    Extend([] + [z] + [a], b, shown, [] + [z] + [a], shown, true);
    Extend([] + [z] + [a] + [b], c, shown, [] + [z] + [a] + [b], shown, true);
    Extend([] + [z] + [a] + [b] + [c], d, shown, [] + [z] + [a] + [b] + [c], shown, true);
  }

  /** A section guarded by a defined flag is shown: all 5 nodes are kept, whatever their texts. */
  lemma OneGuardedSectionShown(flag: string, t1: string, t2: string, t3: string, t4: string)
    requires Extensions.PlainText(flag) && flag != ""
    ensures |Run([Def(flag), PlainHeading(t1, 2), TextParagraph(t2), GuardedHeading(t3, 2, flag), TextParagraph(t4)]).1| == 5
  {
    var z, a, b, c, d := Def(flag), PlainHeading(t1, 2), TextParagraph(t2), GuardedHeading(t3, 2, flag), TextParagraph(t4);
    IfDefOfGuard(flag);
    GuardedSectionKept(z, a, b, c, d, flag);
    assert [z, a, b, c, d] == [] + [z] + [a] + [b] + [c] + [d];
  }

  /**
   * A section guarded by an undefined flag is hidden up to the next heading
   * of its level, which is shown again with what follows it.
   */
  lemma HiddenSectionEnds(a: Node, b: Node, c: Node, d: Node, e: Node, f: Node)
    requires a.Heading? && a.level == 2 && a.ext.None? && b.Paragraph?
    requires c.Heading? && c.level == 2 && GuardFails(c.ext, {}) && d.Paragraph?
    requires e.Heading? && e.level == 2 && e.ext.None? && f.Paragraph?
    ensures Run([] + [a] + [b] + [c] + [d] + [e] + [f]).1 == [] + [a] + [b] + [e] + [f]
  {
    var shown, hidden := State(0, {}), State(2, {});
    SectionHidden(a, b, c, d);
    Extend([] + [a] + [b] + [c] + [d], e, hidden, [] + [a] + [b], shown, true);
    Extend([] + [a] + [b] + [c] + [d] + [e], f, shown, [] + [a] + [b] + [e], shown, true);
  }

  /** An unguarded section at the same level ends the hidden one: 6 nodes give 4, whatever their texts. */
  lemma AlternatingHiddenSections(flag: string, t1: string, t2: string, t3: string, t4: string, t5: string, t6: string)
    requires Extensions.PlainText(flag) && flag != ""
    ensures |Run([PlainHeading(t1, 2), TextParagraph(t2), GuardedHeading(t3, 2, flag), TextParagraph(t4),
                  PlainHeading(t5, 2), TextParagraph(t6)]).1| == 4
  {
    var a, b, c, d := PlainHeading(t1, 2), TextParagraph(t2), GuardedHeading(t3, 2, flag), TextParagraph(t4);
    var e, f := PlainHeading(t5, 2), TextParagraph(t6);
    IfDefOfGuard(flag);
    HiddenSectionEnds(a, b, c, d, e, f);
    assert [a, b, c, d, e, f] == [] + [a] + [b] + [c] + [d] + [e] + [f];
  }
}
