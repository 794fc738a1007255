/**
 * The counter-based id generator: it yields the prefix followed by 0, 1, 2,
 * ... until the counter reaches the largest safe integer, then finishes with
 * the prefix followed by "-end"; after that it yields nothing.
 */
module IdGen {
  import opened Wrappers
  import opened Text

  /** `Number.MAX_SAFE_INTEGER`. */
  const MAX_SAFE_INTEGER: nat := 9007199254740991

  const DEFAULT_PREFIX := "id"

  /** The value the generator yields at step `k`, counting from 0. */
  function IdAt(prefix: string, k: nat): Option<string>
  {
    if k < MAX_SAFE_INTEGER then Some(prefix + NatToString(k))
    else if k == MAX_SAFE_INTEGER then Some(prefix + "-end")
    else None
  }

  class IdGenerator {
    const prefix: string
    /** How many times `next` has been called. */
    var calls: nat

    /** `idgen(prefix)`; `idgen()` is `idgen(DEFAULT_PREFIX)`. */
    constructor(prefix: string)
      ensures this.prefix == prefix && calls == 0
    {
      this.prefix := prefix;
      calls := 0;
    }

    /**
     * `next().value`: the k-th call returns `IdAt(prefix, k)`; `None` stands
     * for the `undefined` of a finished generator.
     */
    method Next() returns (value: Option<string>)
      modifies this
      ensures calls == old(calls) + 1
      ensures value == IdAt(prefix, old(calls))
    {
      value := IdAt(prefix, calls);
      calls := calls + 1;
    }
  }

  /** While the counter runs, the values are pairwise distinct. */
  lemma IdsAreDistinct(prefix: string, j: nat, k: nat)
    requires j < k <= MAX_SAFE_INTEGER
    ensures IdAt(prefix, j).Some? && IdAt(prefix, k).Some?
    ensures IdAt(prefix, j) != IdAt(prefix, k)
  {
    if k < MAX_SAFE_INTEGER {
      if IdAt(prefix, j) == IdAt(prefix, k) {
        assert prefix + NatToString(j) == prefix + NatToString(k);
        assert NatToString(j) == (prefix + NatToString(j))[|prefix|..];
        assert NatToString(k) == (prefix + NatToString(k))[|prefix|..];
        NatToStringInjective(j, k);
      }
    } else {
      var s := NatToString(j);
      assert (prefix + s)[|prefix|] == s[0];
      assert (prefix + "-end")[|prefix|] == '-';
    }
  }
}
