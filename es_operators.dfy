/** The operators that implementation/EvolutionairyStrategies.java and
    implementation/EvolutionaryStrategies.java both define, with the same code:
    initialisation without per-dimension step sizes, uniform parent selection
    by nextInt(mu), intermediate recombination (the mean of all parents) and,
    through the library, one-step self-adaptive mutation. */
module StrategyOperators {
  import opened Space
  import opened RealSeqs
  import opened Wrappers
  import opened Randomness
  import opened Individuals
  import EAUtils

  // ---------------------------------------------------------------- initialisation

  /** Component j of the genotype from the j-th next double; nothing else changes. */
  method SeedGenotype(random: Random, individual: Individual)
    requires individual.Valid()
    modifies random, individual.x
    ensures random.drawn == old(random.drawn) + DIMENSIONS
    ensures forall j :: 0 <= j < DIMENSIONS ==> individual.x[j] == EAUtils.UniformGene(random.nextDoubleAt(old(random.drawn) + j))
  {
    for j := 0 to DIMENSIONS
      invariant random.drawn == old(random.drawn) + j
      invariant forall k :: 0 <= k < j ==> individual.x[k] == EAUtils.UniformGene(random.nextDoubleAt(old(random.drawn) + k))
    {
      var u := random.NextDouble();
      individual.x[j] := LOWER_BOUND + u * SIZE;
    }
  }

  /** ind is a newly seeded individual: genotype from the draws start, start + 1, ...,
      step size sigma, per-dimension step sizes and fitness still 0. */
  ghost predicate Seeded(ind: Individual, random: Random, start: nat, sigma: real)
    reads ind, ind.x, ind.sigmas
  {
    && ind.Valid() && ind.fitness == 0.0 && ind.sigma == sigma && ind.sigmas[..] == Constant(DIMENSIONS, 0.0)
    && forall j :: 0 <= j < DIMENSIONS ==> ind.x[j] == EAUtils.UniformGene(random.nextDoubleAt(start + j))
  }

  /** mu fresh individuals with uniformly drawn genotypes (individual i from the
      draws i * DIMENSIONS on) and one step size sigma; the per-dimension step
      sizes keep the constructor's zeros. */
  method Initialisation(random: Random, mu: nat, sigma: real) returns (population: IndividualList)
    modifies random
    ensures fresh(population) && |population.members| == mu && Distinct(population.members)
    ensures random.drawn == old(random.drawn) + mu * DIMENSIONS
    ensures forall i :: 0 <= i < mu ==>
      var ind := population.members[i];
      && fresh(ind) && fresh(ind.x) && fresh(ind.sigmas)
      && Seeded(ind, random, old(random.drawn) + i * DIMENSIONS, sigma)
    ensures forall i, j :: 0 <= i < mu && 0 <= j < population.members[i].x.Length ==>
      LOWER_BOUND <= population.members[i].x[j] < UPPER_BOUND
  {
    population := new IndividualList([]);
    ghost var start := random.drawn;
    for i := 0 to mu
      invariant |population.members| == i && Distinct(population.members)
      invariant random.drawn == start + i * DIMENSIONS
      invariant forall k :: 0 <= k < i ==>
        var ind := population.members[k];
        && fresh(ind) && fresh(ind.x) && fresh(ind.sigmas)
        && Seeded(ind, random, start + k * DIMENSIONS, sigma)
    {
      var individual := new Individual();
      SeedGenotype(random, individual);
      individual.sigma := sigma;
      population.members := population.members + [individual];
    }
    forall i | 0 <= i < mu
      ensures forall j :: 0 <= j < population.members[i].x.Length ==>
        LOWER_BOUND <= population.members[i].x[j] < UPPER_BOUND
    {
      SeededInSpace(population.members[i], random, start + i * DIMENSIONS, sigma);
    }
  }

  /** Every seeded genotype lies in the search space [LOWER_BOUND, UPPER_BOUND). */
  lemma SeededInSpace(ind: Individual, random: Random, start: nat, sigma: real)
    requires Seeded(ind, random, start, sigma)
    ensures forall j :: 0 <= j < DIMENSIONS ==> LOWER_BOUND <= ind.x[j] < UPPER_BOUND
  {
    forall j | 0 <= j < DIMENSIONS ensures LOWER_BOUND <= ind.x[j] < UPPER_BOUND {
      var u := random.nextDoubleAt(start + j);
      assert ind.x[j] == EAUtils.UniformGene(u);
    }
  }

  // ---------------------------------------------------------------- parent selection

  /** lambda / perPool pools of matingPoolSize members, each slot the member at
      position nextInt(mu). The int division throws for perPool = 0, nextInt for
      mu = 0, and `get` for a drawn position at or past the population's size. */
  method ParentSelection(random: Random, population: IndividualList, mu: nat, lambda: nat, perPool: nat,
                         matingPoolSize: nat) returns (r: Result<seq<seq<Individual>>>)
    modifies random
    ensures perPool == 0 ==> r == Failure(DivisionByZero) && random.drawn == old(random.drawn)
    ensures 0 < perPool ==>
      (r.Ok? <==> lambda / perPool == 0 || matingPoolSize == 0 ||
                   (0 < mu && EAUtils.IntDrawsBelow(random, old(random.drawn), lambda / perPool * matingPoolSize, mu,
                                                    |population.members|)))
    ensures 0 < perPool && r.Failure? ==> r.error == (if mu == 0 then NonPositiveBound else IndexOutOfBounds)
    ensures r.Ok? ==> |r.value| == lambda / perPool
    ensures r.Ok? ==> random.drawn == old(random.drawn) + lambda / perPool * matingPoolSize
    ensures r.Ok? ==> EAUtils.PoolsDrawn(random, population.members, mu, old(random.drawn), matingPoolSize, r.value)
  {
    if perPool == 0 {
      return Failure(DivisionByZero);
    }
    var numMatingPools := lambda / perPool;
    r := EAUtils.DrawMatingPools(random, population.members, mu, numMatingPools, matingPoolSize);
  }

  /** With a population of at least mu members every drawn position is valid, so
      selection fails only for a zero divisor or a zero bound. */
  lemma ParentSelectionInRange(random: Random, start: nat, count: nat, mu: nat, size: nat)
    requires 0 < mu <= size
    ensures EAUtils.IntDrawsBelow(random, start, count, mu, size)
  {
    forall k | start <= k < start + count ensures random.nextIntAt(k, mu) < size {
      assert random.nextIntAt(k, mu) < mu;
    }
  }

  // ---------------------------------------------------------------- recombination

  /** One parent's share of the mean: value / n. */
  function Share(value: real, n: nat): real
    requires 0 < n
  {
    value / n as real
  }

  /** The shares of all values, added in order. */
  function SumOfShares(values: seq<real>, n: nat): real
    requires |values| == 0 || 0 < n
  {
    if |values| == 0 then 0.0 else SumOfShares(values[..|values| - 1], n) + Share(values[|values| - 1], n)
  }

  /** Adding up the shares gives the sum divided by n ... */
  lemma {:induction false} SumOfSharesIsQuotient(values: seq<real>, n: nat)
    requires 0 < n
    ensures SumOfShares(values, n) == Sum(values) / n as real
  {
    if |values| > 0 {
      var init, last := values[..|values| - 1], values[|values| - 1];
      SumOfSharesIsQuotient(init, n);
      assert Sum(init) / n as real + last / n as real == (Sum(init) + last) / n as real;
    }
  }

  /** ... so with one share per parent the child gets the parents' mean. */
  lemma SumOfSharesIsMean(values: seq<real>)
    requires 0 < |values|
    ensures SumOfShares(values, |values|) == Mean(values)
  {
    SumOfSharesIsQuotient(values, |values|);
  }

  /** Parents that agree on a value pass exactly that value on. */
  lemma SumOfSharesOfEqualValues(values: seq<real>, c: real)
    requires 0 < |values| && forall i :: 0 <= i < |values| ==> values[i] == c
    ensures SumOfShares(values, |values|) == c
  {
    SumOfSharesIsMean(values);
    MeanOfConstant(values, c);
  }

  /** The parents' genotypes, in pool order. */
  ghost function Genotypes(pool: seq<Individual>): (rows: seq<seq<real>>)
    requires AllValid(pool)
    reads pool, set p | p in pool :: p.x
    ensures |rows| == |pool| && forall i :: 0 <= i < |pool| ==> rows[i] == pool[i].x[..]
  {
    if |pool| == 0 then [] else Genotypes(pool[..|pool| - 1]) + [pool[|pool| - 1].x[..]]
  }

  /** Component k of every row. */
  function Column(rows: seq<seq<real>>, k: nat): (c: seq<real>)
    requires forall i :: 0 <= i < |rows| ==> k < |rows[i]|
    ensures |c| == |rows| && forall i :: 0 <= i < |rows| ==> c[i] == rows[i][k]
  {
    seq(|rows|, i requires 0 <= i < |rows| => rows[i][k])
  }

  /** totals with the share of every component of row added. */
  function AddShares(totals: seq<real>, row: seq<real>, n: nat): (r: seq<real>)
    requires |totals| <= |row| && 0 < n
    ensures |r| == |totals| && forall k :: 0 <= k < |totals| ==> r[k] == totals[k] + Share(row[k], n)
  {
    seq(|totals|, k requires 0 <= k < |totals| => totals[k] + Share(row[k], n))
  }

  /** The component-wise running totals after adding the shares of every row,
      starting from a zero genotype. */
  function Totals(rows: seq<seq<real>>, n: nat): (t: seq<real>)
    requires forall i :: 0 <= i < |rows| ==> DIMENSIONS <= |rows[i]|
    requires |rows| == 0 || 0 < n
    ensures |t| == DIMENSIONS
  {
    if |rows| == 0 then Constant(DIMENSIONS, 0.0) else AddShares(Totals(rows[..|rows| - 1], n), rows[|rows| - 1], n)
  }

  /** Component k of the running totals adds up the shares of column k. */
  lemma {:induction false} TotalsByColumn(rows: seq<seq<real>>, n: nat, k: nat)
    requires forall i :: 0 <= i < |rows| ==> DIMENSIONS <= |rows[i]|
    requires |rows| == 0 || 0 < n
    requires k < DIMENSIONS
    ensures Totals(rows, n)[k] == SumOfShares(Column(rows, k), n)
  {
    if |rows| > 0 {
      var init := rows[..|rows| - 1];
      TotalsByColumn(init, n, k);
      assert Column(rows, k)[..|rows| - 1] == Column(init, k);
    }
  }

  /** One pass over a parent's genotype: component k grows by its share of x[k]. */
  method AddShare(child: Individual, parent: Individual, n: nat)
    requires child.Valid() && parent.Valid() && child.x != parent.x && 0 < n
    modifies child.x
    ensures child.x[..] == AddShares(old(child.x[..]), parent.x[..], n)
  {
    for k := 0 to DIMENSIONS
      invariant forall i :: 0 <= i < k ==> child.x[i] == old(child.x[i]) + Share(parent.x[i], n)
      invariant forall i :: k <= i < DIMENSIONS ==> child.x[i] == old(child.x[i])
    {
      child.x[k] := child.x[k] + Share(parent.x[k], n);
    }
  }

  /** Adding the share of one more value extends the running total. */
  lemma SumOfSharesStep(values: seq<real>, j: nat, n: nat)
    requires j < |values| && 0 < n
    ensures SumOfShares(values[..j + 1], n) == SumOfShares(values[..j], n) + Share(values[j], n)
  {
    assert values[..j + 1][..j] == values[..j];
  }

  /** child is the intermediate child of pool: every genotype component and its
      step size add up one share per parent. */
  ghost predicate IsIntermediateChild(child: Individual, pool: seq<Individual>)
    requires child.Valid() && AllValid(pool)
    reads child, child.x, pool, set p | p in pool :: p.x
  {
    && (forall k :: 0 <= k < DIMENSIONS ==> child.x[k] == SumOfShares(Column(Genotypes(pool), k), |pool|))
    && child.sigma == SumOfShares(StepSizes(pool), |pool|)
  }

  /** The loop over the parents: the genotype and the step size of child grow
      by every parent's share, in pool order. */
  method AddParents(child: Individual, matingPool: seq<Individual>, ghost rows: seq<seq<real>>, ghost steps: seq<real>)
    requires child.Valid() && AllValid(matingPool)
    requires forall j :: 0 <= j < |matingPool| ==> matingPool[j].x != child.x
    requires |rows| == |matingPool| && forall j :: 0 <= j < |matingPool| ==> rows[j] == matingPool[j].x[..]
    requires steps == StepSizes(matingPool)
    requires child.x[..] == Constant(DIMENSIONS, 0.0) && child.sigma == 0.0
    modifies child, child.x
    ensures child.x[..] == Totals(rows, |matingPool|) && child.sigma == SumOfShares(steps, |matingPool|)
    ensures child.fitness == old(child.fitness)
  {
    var n := |matingPool|;
    for j := 0 to n
      invariant child.fitness == old(child.fitness)
      invariant child.x[..] == Totals(rows[..j], n)
      invariant child.sigma == SumOfShares(steps[..j], n)
    {
      var parent := matingPool[j];
      AddShare(child, parent, n);
      child.sigma := child.sigma + Share(parent.sigma, n);
      SumOfSharesStep(steps, j, n);
      assert rows[..j + 1][..j] == rows[..j];
    }
    assert rows[..n] == rows;
    assert steps[..n] == steps;
  }

  /** The intermediate child: a fresh individual whose every genotype component
      and whose step size add up each parent's share, so they are the parents'
      means; its per-dimension step sizes stay 0. */
  method IntermediateChild(matingPool: seq<Individual>) returns (child: Individual)
    requires AllValid(matingPool)
    ensures fresh(child) && fresh(child.x) && fresh(child.sigmas) && child.Valid() && child.fitness == 0.0
    ensures child.sigmas[..] == Constant(DIMENSIONS, 0.0)
    ensures IsIntermediateChild(child, matingPool)
  {
    child := new Individual();
    var n := |matingPool|;
    ghost var rows := Genotypes(matingPool);
    AddParents(child, matingPool, rows, StepSizes(matingPool));
    IntermediateFromTotals(child, matingPool, rows);
  }

  /** Running totals that add up every parent's genotype make an intermediate child. */
  lemma IntermediateFromTotals(child: Individual, pool: seq<Individual>, rows: seq<seq<real>>)
    requires child.Valid() && AllValid(pool) && rows == Genotypes(pool)
    requires child.x[..] == Totals(rows, |pool|) && child.sigma == SumOfShares(StepSizes(pool), |pool|)
    ensures IsIntermediateChild(child, pool)
  {
    forall k | 0 <= k < DIMENSIONS
      ensures child.x[k] == SumOfShares(Column(rows, k), |pool|)
    {
      TotalsByColumn(rows, |pool|, k);
    }
  }

  /** With a non-empty pool the intermediate child holds the parents' means;
      with an empty one it keeps the constructor's zeros. */
  lemma IntermediateChildIsMean(child: Individual, pool: seq<Individual>)
    requires child.Valid() && AllValid(pool) && IsIntermediateChild(child, pool)
    ensures 0 < |pool| ==>
      && (forall k :: 0 <= k < DIMENSIONS ==> child.x[k] == Mean(Column(Genotypes(pool), k)))
      && child.sigma == Mean(StepSizes(pool))
    ensures |pool| == 0 ==> child.sigma == 0.0 && forall k :: 0 <= k < DIMENSIONS ==> child.x[k] == 0.0
  {
    if 0 < |pool| {
      forall k | 0 <= k < DIMENSIONS ensures child.x[k] == Mean(Column(Genotypes(pool), k)) {
        SumOfSharesIsMean(Column(Genotypes(pool), k));
      }
      SumOfSharesIsMean(StepSizes(pool));
    }
  }

  /** All intermediate children of one pool are alike: same genotype, same step size. */
  lemma IntermediateChildrenAlike(first: Individual, second: Individual, pool: seq<Individual>)
    requires first.Valid() && second.Valid() && AllValid(pool)
    requires IsIntermediateChild(first, pool) && IsIntermediateChild(second, pool)
    ensures first.x[..] == second.x[..] && first.sigma == second.sigma
  {
    forall k | 0 <= k < DIMENSIONS ensures first.x[k] == second.x[k] {
      assert first.x[k] == SumOfShares(Column(Genotypes(pool), k), |pool|);
    }
  }

  /** Intermediate recombination: numChildren fresh children, each the mean of
      the whole mating pool (a pool of any size; an empty one gives all-zero children). */
  method Recombination(matingPool: seq<Individual>, numChildren: nat) returns (children: seq<Individual>)
    requires AllValid(matingPool)
    ensures |children| == numChildren && Distinct(children) && OwnArrays(children)
    ensures forall i :: 0 <= i < numChildren ==>
      var child := children[i];
      && fresh(child) && fresh(child.x) && fresh(child.sigmas) && child.Valid() && child.fitness == 0.0
      && child.sigmas[..] == Constant(DIMENSIONS, 0.0) && IsIntermediateChild(child, matingPool)
  {
    children := [];
    for i := 0 to numChildren
      invariant |children| == i && Distinct(children) && OwnArrays(children)
      invariant forall c :: 0 <= c < i ==>
        var child := children[c];
        && fresh(child) && fresh(child.x) && fresh(child.sigmas) && child.Valid() && child.fitness == 0.0
        && child.sigmas[..] == Constant(DIMENSIONS, 0.0) && IsIntermediateChild(child, matingPool)
    {
      var child := IntermediateChild(matingPool);
      OwnArraysConcat(children, [child]);
      children := children + [child];
    }
  }
}
