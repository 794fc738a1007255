/**
 * The older extension-string parser, which reports the `fullwidth`
 * attribute only. Its clause splitting is the one of the newer parser.
 */
module ExtensionsOld {
  import opened Wrappers
  import opened Text
  import Extensions

  datatype Values = Values(fullwidth: Option<string>)

  datatype Parsed = Parsed(result: Values, unknown: map<string, string>)

  /** What the older `ExtensionsManager.parse` returns. */
  function ParseSpec(input: string): Parsed
  {
    var table := Extensions.ClauseTable(Split(input, Extensions.SEPARATOR));
    Parsed(Values(Extensions.Lookup(table, "fullwidth")), map[])
  }

  /** The older `ExtensionsManager.parse`: fills the clause dictionary one clause at a time. */
  method Parse(input: string) returns (r: Parsed)
    ensures r == ParseSpec(input)
    ensures r.unknown == map[]
  {
    var clauses := Split(input, Extensions.SEPARATOR);
    var table: map<string, string> := map[];
    for i := 0 to |clauses|
      invariant table == Extensions.ClauseTable(clauses[..i])
    {
      var e := Extensions.ClauseEntry(clauses[i]);
      assert clauses[..i + 1][..i] == clauses[..i];
      table := table[e.0 := e.1];
    }
    assert clauses[..|clauses|] == clauses;
    r := Parsed(Values(Extensions.Lookup(table, "fullwidth")), map[]);
  }

  /**
   * The older parser reports `fullwidth` as the last clause naming it, which
   * is what the newer parser reports for that attribute too.
   */
  lemma AgreesWithNewerParser(input: string)
    ensures ParseSpec(input).result.fullwidth
         == Extensions.LastEntryValue(Split(input, Extensions.SEPARATOR), "fullwidth")
    ensures ParseSpec(input).result.fullwidth == Extensions.ParseSpec(input).result.fullwidth
  {
    Extensions.ClauseTableLastWins(Split(input, Extensions.SEPARATOR), "fullwidth");
  }
}
