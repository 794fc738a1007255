/** The LaTeX renderer of mathematical environments: theorems with an optional proof. */
module MathEnvironTex {
  import opened Wrappers
  import opened Text
  import opened Rendering
  import Extensions

  function TheoremLines(title: string, statement: string): seq<string>
  {
    ["\\begin{theorem}[" + title + "]", statement, "\\end{theorem}"]
  }

  function ProofLines(proof: string): seq<string>
  {
    ["\\begin{proof}", proof, "\\end{proof}"]
  }

  /**
   * `writeTheorem`: the theorem block alone when the proof is falsy, with no
   * trailing line break; otherwise the theorem block, then the proof block,
   * then a line break.
   */
  function WriteTheorem(title: string, statement: string, proof: Option<string>): (r: string)
  {
    if !Extensions.Truthy(proof) then Join(TheoremLines(title, statement), EOL)
    else Join(TheoremLines(title, statement) + ProofLines(proof.value), EOL) + EOL
  }

  /** The title is the bracketed optional argument and the statement follows verbatim on its own line. */
  lemma TheoremBlock(title: string, statement: string)
    ensures WriteTheorem(title, statement, None)
      == "\\begin{theorem}[" + title + "]" + EOL + statement + EOL + "\\end{theorem}"
  {
    var t := TheoremLines(title, statement);
    assert t[1..] == [statement, "\\end{theorem}"];
    assert t[1..][1..] == ["\\end{theorem}"];
    assert Join(t[1..][1..], EOL) == "\\end{theorem}";
    assert Join(t[1..], EOL) == statement + EOL + "\\end{theorem}";
    assert Join(t, EOL) == t[0] + EOL + (statement + EOL + "\\end{theorem}");
  }

  /** An empty proof is no proof. */
  lemma EmptyProofIsNoProof(title: string, statement: string)
    ensures WriteTheorem(title, statement, Some("")) == WriteTheorem(title, statement, None)
  {
  }

  /** The proof block: its three lines, one per line break. */
  lemma ProofBlock(proof: string)
    ensures Join(ProofLines(proof), EOL) == "\\begin{proof}" + EOL + proof + EOL + "\\end{proof}"
  {
    var p := ProofLines(proof);
    assert p[1..] == [proof, "\\end{proof}"];
    assert p[1..][1..] == ["\\end{proof}"];
    assert Join(p[1..][1..], EOL) == "\\end{proof}";
    assert Join(p[1..], EOL) == proof + EOL + "\\end{proof}";
  }

  /**
   * With a proof, the output is the output without one, then the proof block
   * verbatim, then a line break.
   */
  lemma ProofFollowsTheorem(title: string, statement: string, proof: string)
    requires proof != ""
    ensures WriteTheorem(title, statement, Some(proof))
      == WriteTheorem(title, statement, None) + EOL
         + "\\begin{proof}" + EOL + proof + EOL + "\\end{proof}" + EOL
  {
    var t := TheoremLines(title, statement);
    var p := ProofLines(proof);
    JoinAppend(t, p, EOL);
    ProofBlock(proof);
  }
}
