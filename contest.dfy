/** The contest's evaluation service (org.vu.contest.ContestEvaluation, whose
    code is not part of this model): an oracle that scores a genotype or answers
    null, typically once the evaluation budget is spent. */
module Contest {
  import opened Wrappers

  class ContestEvaluation {
    /** The answer to the call with this index (counting from 0) for this genotype. */
    const score: (nat, seq<real>) -> Option<real>
    /** Calls made so far. */
    var calls: nat

    constructor (score: (nat, seq<real>) -> Option<real>)
      ensures this.score == score && calls == 0
    {
      this.score := score;
      calls := 0;
    }

    /** Scores the genotype the array holds now; every call counts, also one answered with null. */
    method Evaluate(genotype: array<real>) returns (r: Option<real>)
      modifies this
      ensures calls == old(calls) + 1
      ensures r == score(old(calls), genotype[..])
    {
      r := score(calls, genotype[..]);
      calls := calls + 1;
    }
  }
}
