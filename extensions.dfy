/**
 * Extension strings "name=value,name=value,..." attached to headings, code
 * blocks and images: the parser that turns them into the five known
 * attributes and the stringifier that turns clause lists back into such a string.
 */
module Extensions {
  import opened Wrappers
  import opened Text
  import opened Ast

  const SEPARATOR: char := ','
  const ASSIGNMENT: char := '='

  /** The attributes the parser reports; an absent key is `None`. */
  datatype Values = Values(
    fullwidth: Option<string>,
    theorem: Option<string>,
    hidden: Option<string>,
    ifDef: Option<string>,
    output: Option<string>)

  datatype Parsed = Parsed(result: Values, unknown: map<string, string>)

  /** JavaScript truthiness of an optional string: present and non-empty. */
  predicate Truthy(o: Option<string>)
  {
    o.Some? && o.value != ""
  }

  /**
   * The key and value one clause contributes: a clause without "=" maps its
   * trimmed text to "true"; otherwise the text before the first "=" maps to
   * the text between the first and the second "=".
   */
  function ClauseEntry(clause: string): (string, string)
  {
    var trimmed := Trim(clause);
    if ASSIGNMENT !in trimmed then (trimmed, "true")
    else
      var pair := Split(trimmed, ASSIGNMENT);
      (pair[0], pair[1])
  }

  /** The dictionary the clauses fill, later clauses overwriting earlier ones. */
  function ClauseTable(clauses: seq<string>): map<string, string>
  {
    if |clauses| == 0 then map[]
    else
      var e := ClauseEntry(clauses[|clauses| - 1]);
      ClauseTable(clauses[..|clauses| - 1])[e.0 := e.1]
  }

  function Lookup(table: map<string, string>, key: string): Option<string>
  {
    if key in table then Some(table[key]) else None
  }

  /** The value the last clause for `key` gives, if any clause has that key. */
  function LastEntryValue(clauses: seq<string>, key: string): Option<string>
  {
    if |clauses| == 0 then None
    else if ClauseEntry(clauses[|clauses| - 1]).0 == key then Some(ClauseEntry(clauses[|clauses| - 1]).1)
    else LastEntryValue(clauses[..|clauses| - 1], key)
  }

  /** The dictionary holds, for every key, exactly the value of the last clause with that key. */
  lemma {:induction false} ClauseTableLastWins(clauses: seq<string>, key: string)
    ensures Lookup(ClauseTable(clauses), key) == LastEntryValue(clauses, key)
  {
    if |clauses| > 0 {
      ClauseTableLastWins(clauses[..|clauses| - 1], key);
    }
  }

  /** Reads the five known attributes out of a clause dictionary. */
  function Report(table: map<string, string>): Values
  {
    Values(Lookup(table, "fullwidth"), Lookup(table, "theorem"), Lookup(table, "hidden"),
           Lookup(table, "if"), Lookup(table, "output"))
  }

  /** What `ExtensionsManager.parse` returns for an input string. */
  function ParseSpec(input: string): Parsed
  {
    Parsed(Report(ClauseTable(Split(input, SEPARATOR))), map[])
  }

  /** `ExtensionsManager.parse`: fills the clause dictionary one clause at a time. */
  method Parse(input: string) returns (r: Parsed)
    ensures r == ParseSpec(input)
    ensures r.unknown == map[]
  {
    var clauses := Split(input, SEPARATOR);
    var table: map<string, string> := map[];
    var i := 0;
    while i < |clauses|
      invariant 0 <= i <= |clauses|
      invariant table == ClauseTable(clauses[..i])
    {
      var e := ClauseEntry(clauses[i]);
      assert clauses[..i + 1][..i] == clauses[..i];
      table := table[e.0 := e.1];
      i := i + 1;
    }
    assert clauses[..|clauses|] == clauses;
    r := Parsed(Report(table), map[]);
  }

  /** Each reported attribute is the value of the last clause naming it. */
  lemma ParseReportsLastClause(input: string)
    ensures var clauses := Split(input, SEPARATOR);
      && ParseSpec(input).result.fullwidth == LastEntryValue(clauses, "fullwidth")
      && ParseSpec(input).result.theorem == LastEntryValue(clauses, "theorem")
      && ParseSpec(input).result.hidden == LastEntryValue(clauses, "hidden")
      && ParseSpec(input).result.ifDef == LastEntryValue(clauses, "if")
      && ParseSpec(input).result.output == LastEntryValue(clauses, "output")
  {
    var clauses := Split(input, SEPARATOR);
    ClauseTableLastWins(clauses, "fullwidth");
    ClauseTableLastWins(clauses, "theorem");
    ClauseTableLastWins(clauses, "hidden");
    ClauseTableLastWins(clauses, "if");
    ClauseTableLastWins(clauses, "output");
  }

  /** A clause without "=" is a flag: its trimmed text maps to "true". */
  lemma BareClauseIsTrue(clause: string)
    requires ASSIGNMENT !in Trim(clause)
    ensures ClauseEntry(clause) == (Trim(clause), "true")
  {
  }

  /**
   * A clause "name=value" with an "="-free name maps the name to the text up
   * to the next "=": whatever follows a second "=" is lost.
   */
  lemma AssignmentClause(name: string, value: string, rest: string)
    requires ASSIGNMENT !in name && ASSIGNMENT !in value
    requires |name| > 0 ==> !IsWhiteSpace(name[0])
    requires |rest| > 0 ==> !IsWhiteSpace(rest[|rest| - 1])
    requires |rest| == 0 ==> |value| > 0 ==> !IsWhiteSpace(value[|value| - 1])
    ensures rest == "" ==> ClauseEntry(name + [ASSIGNMENT] + value) == (name, value)
    ensures ClauseEntry(name + [ASSIGNMENT] + value + [ASSIGNMENT] + rest) == (name, value)
  {
    var c1 := name + [ASSIGNMENT] + value;
    if rest == "" {
      TrimNoEdgeSpace(c1);
      SplitPrefix(name, value, ASSIGNMENT);
    }
    var c2 := name + [ASSIGNMENT] + value + [ASSIGNMENT] + rest;
    assert c2 == name + [ASSIGNMENT] + (value + [ASSIGNMENT] + rest);
    TrimNoEdgeSpace(c2);
    SplitPrefix(name, value + [ASSIGNMENT] + rest, ASSIGNMENT);
    SplitPrefix(value, rest, ASSIGNMENT);
  }

  /** `value || "true"`. */
  function ValueOrTrue(value: Option<string>): string
  {
    if Truthy(value) then value.value else "true"
  }

  function ClauseString(c: ExtClause): string
  {
    c.name + [ASSIGNMENT] + ValueOrTrue(c.value)
  }

  function ClauseStrings(cs: seq<ExtClause>): (r: seq<string>)
    ensures |r| == |cs|
    ensures forall i :: 0 <= i < |cs| ==> r[i] == ClauseString(cs[i])
  {
    if |cs| == 0 then [] else [ClauseString(cs[0])] + ClauseStrings(cs[1..])
  }

  /** `stringifyExtensionCluasesArray`: "name=value" per clause, joined by ",". */
  function Stringify(clauses: Option<seq<ExtClause>>): (r: string)
    ensures r == "" <==> (clauses.None? || |clauses.value| == 0)
  {
    var cs := clauses.GetOr([]);
    var r := Join(ClauseStrings(cs), [SEPARATOR]);
    assert |cs| > 0 ==> ASSIGNMENT in ClauseString(cs[0]);
    assert |cs| > 0 ==> ASSIGNMENT in r by {
      if |cs| > 1 {
        assert r == ClauseString(cs[0]) + [SEPARATOR] + Join(ClauseStrings(cs)[1..], [SEPARATOR]);
      }
    }
    r
  }

  /** The value the last clause with `name` carries, as the stringifier prints it. */
  function LastClauseValue(cs: seq<ExtClause>, name: string): Option<string>
  {
    if |cs| == 0 then None
    else if cs[|cs| - 1].name == name then Some(ValueOrTrue(cs[|cs| - 1].value))
    else LastClauseValue(cs[..|cs| - 1], name)
  }

  /** Names and values that survive a round trip through the extension string. */
  predicate PlainText(s: string)
  {
    && SEPARATOR !in s && ASSIGNMENT !in s
    && (|s| > 0 ==> !IsWhiteSpace(s[0]) && !IsWhiteSpace(s[|s| - 1]))
  }

  predicate PlainClauses(cs: seq<ExtClause>)
  {
    forall i :: 0 <= i < |cs| ==>
      PlainText(cs[i].name) && (cs[i].value.Some? ==> PlainText(cs[i].value.value))
  }

  lemma ClauseStringEntry(c: ExtClause)
    requires PlainText(c.name) && (c.value.Some? ==> PlainText(c.value.value))
    ensures ClauseEntry(ClauseString(c)) == (c.name, ValueOrTrue(c.value))
  {
    var v := ValueOrTrue(c.value);
    assert PlainText(v);
    AssignmentClause(c.name, v, "");
  }

  lemma {:induction false} EntriesOfStringified(cs: seq<ExtClause>, key: string)
    requires PlainClauses(cs)
    ensures LastEntryValue(ClauseStrings(cs), key) == LastClauseValue(cs, key)
  {
    if |cs| > 0 {
      var c := cs[|cs| - 1];
      var strs := ClauseStrings(cs);
      assert strs[..|strs| - 1] == ClauseStrings(cs[..|cs| - 1]);
      assert strs[|strs| - 1] == ClauseString(c);
      ClauseStringEntry(c);
      assert PlainClauses(cs[..|cs| - 1]) by {
        forall i | 0 <= i < |cs| - 1
          ensures cs[..|cs| - 1][i] == cs[i]
        {
        }
      }
      EntriesOfStringified(cs[..|cs| - 1], key);
    }
  }

  /**
   * Round trip: parsing the stringified clauses reports, for each known
   * attribute, the value of the last clause naming it ("true" when that clause
   * has no value), provided names and values hold no "," or "=" and no white
   * space at either end.
   */
  lemma ParseStringifyRoundTrip(cs: seq<ExtClause>)
    requires PlainClauses(cs)
    ensures var v := ParseSpec(Stringify(Some(cs))).result;
      && v.fullwidth == LastClauseValue(cs, "fullwidth")
      && v.theorem == LastClauseValue(cs, "theorem")
      && v.hidden == LastClauseValue(cs, "hidden")
      && v.ifDef == LastClauseValue(cs, "if")
      && v.output == LastClauseValue(cs, "output")
  {
    var input := Stringify(Some(cs));
    ParseReportsLastClause(input);
    if |cs| == 0 {
      assert Split(input, SEPARATOR) == [""];
    } else {
      var strs := ClauseStrings(cs);
      forall i | 0 <= i < |strs|
        ensures SEPARATOR !in strs[i]
      {
        assert strs[i] == cs[i].name + [ASSIGNMENT] + ValueOrTrue(cs[i].value);
      }
      JoinSplit(strs, SEPARATOR);
      EntriesOfStringified(cs, "fullwidth");
      EntriesOfStringified(cs, "theorem");
      EntriesOfStringified(cs, "hidden");
      EntriesOfStringified(cs, "if");
      EntriesOfStringified(cs, "output");
    }
  }
}
