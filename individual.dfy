/** Candidate solutions (model/Individual.java) and the in-place list operations
    the survivor selections apply to lists of them. */
module Individuals {
  import opened Space
  import opened RealSeqs
  import opened Wrappers

  /** One candidate solution. The genotype `x` and the per-dimension step sizes
      `sigmas` are arrays owned by the individual; nothing reassigns them after
      construction, so they are constant references whose contents change. */
  class Individual {
    /** Score; higher is better. */
    var fitness: real
    /** Genotype. */
    const x: array<real>
    /** Step size of the one-step-size mutation. */
    var sigma: real
    /** Step sizes of the n-step-sizes mutation. */
    const sigmas: array<real>

    /** Both arrays have one entry per dimension and are different arrays. */
    ghost predicate Valid()
    {
      x.Length == DIMENSIONS && sigmas.Length == DIMENSIONS && x != sigmas
    }

    /** A zero individual: fresh arrays of zeros, step size 0, fitness 0 (Java's
        default value of a field the constructor does not set). */
    constructor ()
      ensures Valid() && fresh(x) && fresh(sigmas)
      ensures x[..] == Constant(DIMENSIONS, 0.0) && sigmas[..] == Constant(DIMENSIONS, 0.0)
      ensures sigma == 0.0 && fitness == 0.0
    {
      fitness := 0.0;
      x := new real[DIMENSIONS](_ => 0.0);
      sigma := 0.0;
      sigmas := new real[DIMENSIONS](_ => 0.0);
    }

    /** The live genotype array itself, not a copy. */
    method GetGenotype() returns (genotype: array<real>)
      ensures genotype == x
    {
      genotype := x;
    }
  }

  /** A java.util.List of individuals, which survivor selection sorts and
      truncates in place and then hands back as the new population. */
  class IndividualList {
    var members: seq<Individual>

    constructor (members: seq<Individual>)
      ensures this.members == members
    {
      this.members := members;
    }
  }

  /** `c` holds exactly these values and has not been scored (fitness 0). */
  ghost predicate Born(c: Individual, x: seq<real>, sigmas: seq<real>, sigma: real)
    reads c, c.x, c.sigmas
  {
    c.Valid() && c.fitness == 0.0 && c.x[..] == x && c.sigmas[..] == sigmas && c.sigma == sigma
  }

  ghost predicate AllValid(s: seq<Individual>)
  {
    forall i :: 0 <= i < |s| ==> s[i].Valid()
  }

  /** No individual occurs twice. */
  ghost predicate Distinct(s: seq<Individual>)
  {
    forall i, j :: 0 <= i < j < |s| ==> s[i] != s[j]
  }

  /** The two individuals share no array. */
  ghost predicate Apart(a: Individual, b: Individual)
  {
    a.x != b.x && a.x != b.sigmas && a.sigmas != b.x && a.sigmas != b.sigmas
  }

  /** No two individuals share an array: writing into one individual's genotype
      or step sizes leaves every other individual's arrays alone. */
  ghost predicate OwnArrays(s: seq<Individual>)
  {
    forall i, j :: 0 <= i < |s| && 0 <= j < |s| && i != j ==> Apart(s[i], s[j])
  }

  /** Joining two lists that own their arrays, and share none with each other,
      gives a list that owns its arrays. */
  lemma OwnArraysConcat(s: seq<Individual>, t: seq<Individual>)
    requires OwnArrays(s) && OwnArrays(t)
    requires forall i, j :: 0 <= i < |s| && 0 <= j < |t| ==> Apart(s[i], t[j])
    ensures OwnArrays(s + t)
  {
    var u := s + t;
    forall i, j | 0 <= i < |u| && 0 <= j < |u| && i != j ensures Apart(u[i], u[j]) {
      if i < |s| && |s| <= j {
        assert Apart(s[i], t[j - |s|]);
      } else if j < |s| && |s| <= i {
        assert Apart(s[j], t[i - |s|]);
      }
    }
  }

  /** The fitness values, position by position. */
  ghost function Fitnesses(s: seq<Individual>): (fs: seq<real>)
    reads s
    ensures |fs| == |s| && forall i :: 0 <= i < |s| ==> fs[i] == s[i].fitness
  {
    if |s| == 0 then [] else Fitnesses(s[..|s| - 1]) + [s[|s| - 1].fitness]
  }

  /** The one-step sizes, position by position. */
  ghost function StepSizes(s: seq<Individual>): (ss: seq<real>)
    reads s
    ensures |ss| == |s| && forall i :: 0 <= i < |s| ==> ss[i] == s[i].sigma
  {
    if |s| == 0 then [] else StepSizes(s[..|s| - 1]) + [s[|s| - 1].sigma]
  }

  /** Ascending by fitness: the weakest first. */
  ghost predicate SortedByFitness(s: seq<Individual>)
    reads s
  {
    forall i, j :: 0 <= i < j < |s| ==> s[i].fitness <= s[j].fitness
  }

  /** `after` is what is left of `before` once the weakest were dropped: a
      sub-multiset, and every dropped occurrence is at most as fit as any kept one. */
  ghost predicate KeepsFittest(before: seq<Individual>, after: seq<Individual>)
    reads before, after
  {
    && multiset(after) <= multiset(before)
    && forall d, k :: d in multiset(before) - multiset(after) && k in after ==> d.fitness <= k.fitness
  }

  /** Dropping a prefix of an ascending sequence keeps the fittest. */
  lemma {:induction false} SortedSuffixKeepsFittest(s: seq<Individual>, k: nat)
    requires SortedByFitness(s) && k <= |s|
    ensures KeepsFittest(s, s[k..])
  {
    assert s == s[..k] + s[k..];
    assert multiset(s) == multiset(s[..k]) + multiset(s[k..]);
    assert multiset(s) - multiset(s[k..]) == multiset(s[..k]);
    forall d, e | d in multiset(s) - multiset(s[k..]) && e in s[k..]
      ensures d.fitness <= e.fitness
    {
      assert d in s[..k];
      var i :| 0 <= i < k && s[i] == d;
      var j :| 0 <= j < |s| - k && s[k..][j] == e;
      assert s[k + j] == e;
    }
  }

  /** Two arrangements of the same individuals have the same fitness values,
      counted with multiplicity. */
  lemma {:induction false} FitnessesOfPermutation(s: seq<Individual>, t: seq<Individual>)
    requires multiset(s) == multiset(t)
    ensures multiset(Fitnesses(s)) == multiset(Fitnesses(t))
  {
    if |s| == 0 {
      assert |t| == |multiset(t)| == 0;
    } else {
      var last := s[|s| - 1];
      assert s == s[..|s| - 1] + [last];
      assert last in multiset(t);
      var i :| 0 <= i < |t| && t[i] == last;
      var rest := t[..i] + t[i + 1..];
      assert t == t[..i] + [last] + t[i + 1..];
      assert multiset(s[..|s| - 1]) == multiset(rest) by {
        assert multiset(s) == multiset(s[..|s| - 1]) + multiset{last};
        assert multiset(t) == multiset(rest) + multiset{last} by {
          assert t == t[..i] + [last] + t[i + 1..];
        }
        MultisetCancel(multiset(s[..|s| - 1]), multiset(rest), last);
      }
      FitnessesOfPermutation(s[..|s| - 1], rest);
      var fa, fc := Fitnesses(t[..i]), Fitnesses(t[i + 1..]);
      FitnessesConcat(t[..i], t[i + 1..]);
      FitnessesConcat(t[..i] + [last], t[i + 1..]);
      FitnessesConcat(t[..i], [last]);
      FitnessesConcat(s[..|s| - 1], [last]);
      calc {
        multiset(Fitnesses(s));
        multiset(Fitnesses(s[..|s| - 1])) + multiset{last.fitness};
        multiset(Fitnesses(rest)) + multiset{last.fitness};
        multiset(fa) + multiset{last.fitness} + multiset(fc);
        multiset(Fitnesses(t));
      }
    }
  }

  /** The ascending order of a permutation fixes its fitness values: any two
      ascending arrangements of the same individuals agree on them position by
      position, however ties between equally fit individuals end up ordered. */
  lemma SortedArrangementsAgree(s: seq<Individual>, t: seq<Individual>)
    requires multiset(s) == multiset(t) && SortedByFitness(s) && SortedByFitness(t)
    ensures Fitnesses(s) == Fitnesses(t)
  {
    FitnessesOfPermutation(s, t);
    SortedPermutationsEqual(Fitnesses(s), Fitnesses(t));
  }

  lemma MultisetCancel<T>(a: multiset<T>, b: multiset<T>, x: T)
    requires a + multiset{x} == b + multiset{x}
    ensures a == b
  {
    forall y ensures a[y] == b[y] {
      assert (a + multiset{x})[y] == (b + multiset{x})[y];
    }
  }

  lemma FitnessesConcat(a: seq<Individual>, b: seq<Individual>)
    ensures Fitnesses(a + b) == Fitnesses(a) + Fitnesses(b)
  {
    var l, r := Fitnesses(a + b), Fitnesses(a) + Fitnesses(b);
    forall i | 0 <= i < |l| ensures l[i] == r[i] {
      if i >= |a| {
        assert (a + b)[i] == b[i - |a|];
      }
    }
  }

  /** Inserts `ind` after every member that is at most as fit (keeps equal ones in order). */
  method InsertByFitness(s: seq<Individual>, ind: Individual) returns (t: seq<Individual>)
    requires SortedByFitness(s)
    ensures SortedByFitness(t)
    ensures multiset(t) == multiset(s) + multiset{ind}
  {
    var p := 0;
    while p < |s| && s[p].fitness <= ind.fitness
      invariant 0 <= p <= |s|
      invariant forall q :: 0 <= q < p ==> s[q].fitness <= ind.fitness
    {
      p := p + 1;
    }
    InsertionKeepsOrder(s, p, ind);
    t := s[..p] + [ind] + s[p..];
    assert s == s[..p] + s[p..];
  }

  lemma InsertionKeepsOrder(s: seq<Individual>, p: nat, ind: Individual)
    requires SortedByFitness(s) && p <= |s|
    requires forall q :: 0 <= q < p ==> s[q].fitness <= ind.fitness
    requires p < |s| ==> ind.fitness < s[p].fitness
    ensures SortedByFitness(s[..p] + [ind] + s[p..])
  {
    var t := s[..p] + [ind] + s[p..];
    forall i, j | 0 <= i < j < |t| ensures t[i].fitness <= t[j].fitness {
      if j < p {
        assert t[i] == s[i] && t[j] == s[j];
      } else if j == p {
        assert t[i] == s[i];
      } else if i <= p {
        assert t[j] == s[j - 1];
        assert s[p].fitness <= s[j - 1].fitness;
      } else {
        assert t[i] == s[i - 1] && t[j] == s[j - 1];
      }
    }
  }

  /** Collections.sort by ascending fitness: the list becomes an ascending
      permutation of itself. The fitness values are not touched. */
  method SortByFitness(list: IndividualList)
    modifies list
    ensures multiset(list.members) == multiset(old(list.members))
    ensures |list.members| == old(|list.members|)
    ensures SortedByFitness(list.members)
  {
    var sorted: seq<Individual> := [];
    var i := 0;
    while i < |list.members|
      invariant 0 <= i <= |list.members|
      invariant list.members == old(list.members)
      invariant multiset(sorted) == multiset(list.members[..i])
      invariant SortedByFitness(sorted)
    {
      sorted := InsertByFitness(sorted, list.members[i]);
      assert list.members[..i + 1] == list.members[..i] + [list.members[i]];
      i := i + 1;
    }
    assert list.members[..i] == list.members;
    assert |sorted| == |multiset(sorted)| == |multiset(list.members)| == |list.members|;
    list.members := sorted;
  }

  /** Sorts the list by fitness, then removes its first k (weakest) members. The
      sort happens before the range of the removal is checked, so a list whose
      removal fails is still left sorted: k < 0 is an inverted range, k beyond
      the size is out of bounds. */
  method SortAndClearWeakest(list: IndividualList, k: int) returns (r: Result<IndividualList>)
    modifies list
    ensures r.Ok? <==> 0 <= k <= |old(list.members)|
    ensures r.Ok? ==> r.value == list && |list.members| == |old(list.members)| - k
    ensures r.Ok? ==> SortedByFitness(list.members)
    ensures r.Ok? ==> KeepsFittest(old(list.members), list.members)
    ensures k < 0 ==> r == Failure(InvertedRange)
    ensures k > |old(list.members)| ==> r == Failure(IndexOutOfBounds)
    ensures r.Failure? ==> multiset(list.members) == multiset(old(list.members)) && SortedByFitness(list.members)
  {
    SortByFitness(list);
    if 0 <= k <= |list.members| {
      ghost var sorted := list.members;
      SortedSuffixKeepsFittest(sorted, k);
      list.members := list.members[k..];
      r := Ok(list);
      assert multiset(sorted) == multiset(old(list.members));
      assert KeepsFittest(sorted, list.members);
    } else if k < 0 {
      r := Failure(InvertedRange);
    } else {
      r := Failure(IndexOutOfBounds);
    }
  }
}
