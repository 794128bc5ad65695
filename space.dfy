/** The search space (SolutionVectors and Space: both hold the same constants). */
module Space {
  /** Number of values of a genotype. */
  const DIMENSIONS: nat := 10
  /** Smallest initial value of a genotype component. */
  const LOWER_BOUND: real := -5.0
  /** Bound no initial genotype component reaches. */
  const UPPER_BOUND: real := 5.0
  /** Width of the search space. */
  const SIZE: real := UPPER_BOUND - LOWER_BOUND
}

/** Sums, means and orderings of sequences of reals, as the operators use them. */
module RealSeqs {

  /** The sum, accumulated from the front as the source's loops do. */
  function Sum(s: seq<real>): real
  {
    if |s| == 0 then 0.0 else Sum(s[..|s| - 1]) + s[|s| - 1]
  }

  /** The sum also splits off its first element. */
  lemma {:induction false} SumFront(s: seq<real>)
    requires |s| > 0
    ensures Sum(s) == s[0] + Sum(s[1..])
  {
    if |s| > 1 {
      SumFront(s[..|s| - 1]);
      assert s[..|s| - 1][1..] == s[1..][..|s[1..]| - 1];
    }
  }

  /** A lower bound on every element bounds the sum. */
  lemma {:induction false} SumAtLeast(s: seq<real>, lo: real)
    requires forall i :: 0 <= i < |s| ==> lo <= s[i]
    ensures Sum(s) >= |s| as real * lo
  {
    if |s| > 0 {
      SumAtLeast(s[..|s| - 1], lo);
    }
  }

  /** The arithmetic mean; an empty sequence has mean 0 (the source's accumulator stays 0). */
  function Mean(s: seq<real>): real
  {
    if |s| == 0 then 0.0 else Sum(s) / |s| as real
  }

  /** The mean of n copies of one value is that value. */
  lemma MeanOfConstant(s: seq<real>, c: real)
    requires |s| > 0
    requires forall i :: 0 <= i < |s| ==> s[i] == c
    ensures Mean(s) == c
  {
    SumOfConstant(s, c);
  }

  lemma {:induction false} SumOfConstant(s: seq<real>, c: real)
    requires forall i :: 0 <= i < |s| ==> s[i] == c
    ensures Sum(s) == |s| as real * c
  {
    if |s| > 0 {
      SumOfConstant(s[..|s| - 1], c);
    }
  }

  /** n copies of one value. */
  function Constant(n: nat, c: real): (r: seq<real>)
    ensures |r| == n && forall i :: 0 <= i < n ==> r[i] == c
  {
    seq(n, _ => c)
  }

  /** Ascending order. */
  ghost predicate Sorted(s: seq<real>)
  {
    forall i, j :: 0 <= i < j < |s| ==> s[i] <= s[j]
  }

  /** Two ascending sequences with the same elements are equal: sorting determines
      the order of the values completely, whatever order ties end up in. */
  lemma {:induction false} SortedPermutationsEqual(s: seq<real>, t: seq<real>)
    requires Sorted(s) && Sorted(t)
    requires multiset(s) == multiset(t)
    ensures s == t
  {
    assert |t| == |multiset(t)| == |multiset(s)| == |s|;
    if |s| > 0 {
      assert s[0] in t by { assert s[0] in multiset(t); }
      assert t[0] in s by { assert t[0] in multiset(s); }
      assert s[0] == t[0];
      var s', t' := s[1..], t[1..];
      assert s == [s[0]] + s' && t == [t[0]] + t';
      assert multiset(s) == multiset{s[0]} + multiset(s');
      assert multiset(t) == multiset{t[0]} + multiset(t');
      assert forall x :: multiset(s')[x] == multiset(t')[x] by {
        forall x ensures multiset(s')[x] == multiset(t')[x] {
          assert multiset(s)[x] == multiset{s[0]}[x] + multiset(s')[x];
          assert multiset(t)[x] == multiset{t[0]}[x] + multiset(t')[x];
        }
      }
      assert Sorted(s') && Sorted(t');
      SortedPermutationsEqual(s', t');
    }
  }
}
