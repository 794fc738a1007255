/**
 * Root and inline directives: the abbreviation directive either defines an
 * abbreviation "name:value" (at the root) or expands a defined one (inline).
 */
module Directives {
  import opened Wrappers
  import opened Ast

  /** The characters JavaScript's regular-expression `.` does not match. */
  predicate IsLineTerminator(c: char)
  {
    c == '\n' || c == '\r' || c == '\U{2028}' || c == '\U{2029}'
  }

  /** The index of the first ':' at or after `from`, or `|s|` when there is none. */
  function FirstColonFrom(s: string, from: nat): (c: nat)
    requires from <= |s|
    ensures from <= c <= |s|
    ensures c < |s| ==> s[c] == ':'
    ensures forall k :: from <= k < c ==> s[k] != ':'
    decreases |s| - from
  {
    if from == |s| || s[from] == ':' then from else FirstColonFrom(s, from + 1)
  }

  /** The longest prefix without line terminators: what a greedy `(.+)` takes. */
  function LineRun(s: string): (r: string)
    ensures |r| <= |s| && r == s[..|r|]
    ensures forall k :: 0 <= k < |r| ==> !IsLineTerminator(r[k])
    ensures |r| < |s| ==> IsLineTerminator(s[|r|])
  {
    if |s| == 0 || IsLineTerminator(s[0]) then ""
    else
      var rest := LineRun(s[1..]);
      assert s[..1 + |rest|] == [s[0]] + s[1..][..|rest|];
      [s[0]] + rest
  }

  /**
   * The two groups of `/([^:]+):(.+)/` matched against `s`, trying the
   * colon-free runs from the one starting at `start` on; `None` is a null match.
   */
  function MatchFrom(s: string, start: nat): Option<(string, string)>
    requires start <= |s|
    decreases |s| - start
  {
    var c := FirstColonFrom(s, start);
    if c == |s| then None
    else if c > start && c + 1 < |s| && !IsLineTerminator(s[c + 1]) then Some((s[start..c], LineRun(s[c + 1..])))
    else MatchFrom(s, c + 1)
  }

  function MatchAbbreviation(s: string): Option<(string, string)>
  {
    MatchFrom(s, 0)
  }

  /** Both groups of a match are non-empty: the name has no ':', the value no line terminator. */
  lemma {:induction false} MatchGroupsNonEmpty(s: string, start: nat)
    requires start <= |s|
    ensures var m := MatchFrom(s, start);
      m.Some? ==> (|m.value.0| > 0 && ':' !in m.value.0 && |m.value.1| > 0
        && forall k :: 0 <= k < |m.value.1| ==> !IsLineTerminator(m.value.1[k]))
    decreases |s| - start
  {
    var c := FirstColonFrom(s, start);
    if c < |s| && !(c > start && c + 1 < |s| && !IsLineTerminator(s[c + 1])) {
      MatchGroupsNonEmpty(s, c + 1);
    }
  }

  /**
   * A definition "name:value" with a non-empty, colon-free name and a
   * non-empty value on one line splits at the colon after the name; the value
   * may itself hold colons.
   */
  lemma DefinitionRoundTrip(name: string, value: string)
    requires |name| > 0 && ':' !in name
    requires |value| > 0 && forall k :: 0 <= k < |value| ==> !IsLineTerminator(value[k])
    ensures MatchAbbreviation(name + ":" + value) == Some((name, value))
  {
    var s := name + ":" + value;
    var c := FirstColonFrom(s, 0);
    assert s[|name|] == ':';
    assert forall k :: 0 <= k < |name| ==> s[k] == name[k];
    assert c == |name|;
    assert s[c + 1..] == value;
    assert s[0..c] == name;
    var run := LineRun(value);
    assert run == value;
    assert !IsLineTerminator(s[c + 1]);
    assert MatchFrom(s, 0) == Some((s[0..c], LineRun(s[c + 1..])));
  }

  /** What processing a directive gives back: nothing, or the expanded string. */
  type DirectiveValue = Option<string>

  class DirectivesController {
    /** The abbreviations defined so far, by name. */
    var abbreviations: map<string, string>

    constructor()
      ensures abbreviations == map[]
    {
      abbreviations := map[];
    }

    /**
     * `processDirective`: a directive must have exactly one clause, named
     * after the abbreviation directive. Inline, it expands the abbreviation
     * its value names; at the root, it defines one.
     */
    method ProcessDirective(clauses: seq<ExtClause>, inline: bool) returns (r: Result<DirectiveValue>)
      modifies this
      ensures |clauses| != 1 ==> r == Err("Directive check failed") && abbreviations == old(abbreviations)
      ensures |clauses| == 1 && clauses[0].name != ABBREVIATION_DIRECTIVE ==>
        r == Err("Unknown directive '" + clauses[0].name + "'") && abbreviations == old(abbreviations)
      ensures |clauses| == 1 && clauses[0].name == ABBREVIATION_DIRECTIVE && inline ==>
        r == RetrieveSpec(old(abbreviations), clauses[0].value) && abbreviations == old(abbreviations)
      ensures |clauses| == 1 && clauses[0].name == ABBREVIATION_DIRECTIVE && !inline ==>
        match DefineSpec(clauses[0].value)
        case Err(e) => r == Err(e) && abbreviations == old(abbreviations)
        case Ok(d) => r == Ok(None) && abbreviations == old(abbreviations)[d.0 := d.1]
    {
      if |clauses| != 1 {
        return Err("Directive check failed");
      }
      var directiveName := clauses[0].name;
      if directiveName != ABBREVIATION_DIRECTIVE {
        return Err("Unknown directive '" + directiveName + "'");
      }
      if inline {
        r := RetrieveAbbreviationValue(clauses[0].value);
      } else {
        var d := HandleAbbreviationDefinition(clauses[0].value);
        r := if d.Err? then Err(d.error) else Ok(None);
      }
    }

    /** Expands an abbreviation reference; an unknown name gives no value. */
    method RetrieveAbbreviationValue(referenceName: Option<string>) returns (r: Result<DirectiveValue>)
      ensures r == RetrieveSpec(abbreviations, referenceName)
    {
      if referenceName.None? || |referenceName.value| == 0 {
        return Err("Abbreviation reference cannot be empty, null or undefined");
      }
      if referenceName.value in abbreviations {
        r := Ok(Some(abbreviations[referenceName.value]));
      } else {
        r := Ok(None);
      }
    }

    /** Defines the abbreviation a "name:value" text gives, overwriting only that name. */
    method HandleAbbreviationDefinition(abbreviation: Option<string>) returns (r: Result<()>)
      modifies this
      ensures DefineSpec(abbreviation).Err? ==>
        r == Err(DefineSpec(abbreviation).error) && abbreviations == old(abbreviations)
      ensures DefineSpec(abbreviation).Ok? ==>
        r == Ok(()) && abbreviations == old(abbreviations)[DefineSpec(abbreviation).value.0 := DefineSpec(abbreviation).value.1]
    {
      var d := DefineSpec(abbreviation);
      if d.Err? {
        return Err(d.error);
      }
      abbreviations := abbreviations[d.value.0 := d.value.1];
      r := Ok(());
    }
  }

  /** The lookup an inline abbreviation directive performs. */
  function RetrieveSpec(table: map<string, string>, referenceName: Option<string>): (r: Result<DirectiveValue>)
    ensures r.Err? <==> referenceName.None? || referenceName.value == ""
    ensures r.Ok? ==> (r.value.Some? <==> referenceName.value in table)
    ensures r.Ok? && r.value.Some? ==> r.value.value == table[referenceName.value]
  {
    if referenceName.None? || |referenceName.value| == 0 then
      Err("Abbreviation reference cannot be empty, null or undefined")
    else if referenceName.value in table then Ok(Some(table[referenceName.value]))
    else Ok(None)
  }

  /**
   * The name and value a definition text gives. An absent or empty text
   * throws, and so does a text the pattern does not match (the null match has
   * no `length`). The "malformed" check after a match never fires, since both
   * groups are non-empty.
   */
  function DefineSpec(abbreviation: Option<string>): (r: Result<(string, string)>)
    ensures abbreviation.None? || abbreviation.value == "" ==> r.Err?
    ensures r.Ok? ==> Some(r.value) == MatchAbbreviation(abbreviation.value)
    ensures r.Ok? ==> |r.value.0| > 0 && ':' !in r.value.0 && |r.value.1| > 0
  {
    if abbreviation.None? || |abbreviation.value| == 0 then
      Err("Abbreviation cannot be empty, null or undefined")
    else
      var m := MatchAbbreviation(abbreviation.value);
      MatchGroupsNonEmpty(abbreviation.value, 0);
      if m.None? then Err("Cannot read properties of null (reading 'length')")
      else Ok(m.value)
  }

  /** Defining "name:value" and then expanding "name" gives the value back. */
  lemma DefineThenRetrieve(table: map<string, string>, name: string, value: string)
    requires |name| > 0 && ':' !in name
    requires |value| > 0 && forall k :: 0 <= k < |value| ==> !IsLineTerminator(value[k])
    ensures DefineSpec(Some(name + ":" + value)) == Ok((name, value))
    ensures RetrieveSpec(table[name := value], Some(name)) == Ok(Some(value))
  {
    DefinitionRoundTrip(name, value);
  }
}
