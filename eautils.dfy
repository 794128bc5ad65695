/** The operator library (model/EAUtils.java): initialisation, parent selection,
    recombination, self-adaptive mutation and survivor selection. */
module EAUtils {
  import opened Space
  import opened RealSeqs
  import opened Wrappers
  import opened Randomness
  import opened Individuals

  // ---------------------------------------------------------------- initialisation

  /** A genotype component drawn from `u = nextDouble()`: it lies in the search space. */
  function UniformGene(u: real): (v: real)
    requires 0.0 <= u < 1.0
    ensures LOWER_BOUND <= v < UPPER_BOUND
    ensures u == 0.0 ==> v == LOWER_BOUND
  {
    LOWER_BOUND + u * SIZE
  }

  /** Fills one fresh individual: component j from the j-th next double, every
      per-dimension step size set to `sigma`. */
  method FillUniformly(random: Random, individual: Individual, sigma: real)
    requires individual.Valid()
    modifies random, individual.x, individual.sigmas
    ensures random.drawn == old(random.drawn) + DIMENSIONS
    ensures forall j :: 0 <= j < DIMENSIONS ==> individual.x[j] == UniformGene(random.nextDoubleAt(old(random.drawn) + j))
    ensures individual.sigmas[..] == Constant(DIMENSIONS, sigma)
  {
    for j := 0 to DIMENSIONS
      invariant random.drawn == old(random.drawn) + j
      invariant forall k :: 0 <= k < j ==> individual.x[k] == UniformGene(random.nextDoubleAt(old(random.drawn) + k))
      invariant forall k :: 0 <= k < j ==> individual.sigmas[k] == sigma
    {
      var u := random.NextDouble();
      individual.x[j] := UniformGene(u);
      individual.sigmas[j] := sigma;
    }
  }

  /** mu fresh individuals, individual i built from the draws i*DIMENSIONS ..
      i*DIMENSIONS + DIMENSIONS - 1; every step size is `sigma`. */
  method InitialisationUniformRandom(random: Random, mu: nat, sigma: real) returns (population: IndividualList)
    modifies random
    ensures fresh(population) && |population.members| == mu && Distinct(population.members)
    ensures random.drawn == old(random.drawn) + mu * DIMENSIONS
    ensures forall i :: 0 <= i < mu ==>
      var ind := population.members[i];
      && fresh(ind) && fresh(ind.x) && fresh(ind.sigmas) && ind.Valid()
      && ind.fitness == 0.0 && ind.sigma == sigma && ind.sigmas[..] == Constant(DIMENSIONS, sigma)
      && forall j :: 0 <= j < DIMENSIONS ==>
           ind.x[j] == UniformGene(random.nextDoubleAt(old(random.drawn) + i * DIMENSIONS + j))
    ensures forall i, j :: 0 <= i < mu && 0 <= j < population.members[i].x.Length ==>
      LOWER_BOUND <= population.members[i].x[j] < UPPER_BOUND
  {
    population := new IndividualList([]);
    ghost var start := random.drawn;
    for i := 0 to mu
      invariant |population.members| == i && Distinct(population.members)
      invariant random.drawn == start + i * DIMENSIONS
      invariant forall k :: 0 <= k < i ==>
        var ind := population.members[k];
        && fresh(ind) && fresh(ind.x) && fresh(ind.sigmas) && ind.Valid()
        && ind.fitness == 0.0 && ind.sigma == sigma && ind.sigmas[..] == Constant(DIMENSIONS, sigma)
        && forall j :: 0 <= j < DIMENSIONS ==>
             ind.x[j] == UniformGene(random.nextDoubleAt(start + k * DIMENSIONS + j))
    {
      var individual := new Individual();
      FillUniformly(random, individual, sigma);
      individual.sigma := sigma;
      population.members := population.members + [individual];
    }
  }

  // ---------------------------------------------------------------- recombination

  /** alpha * father + (1 - alpha) * mother. */
  function BlendValue(alpha: real, father: real, mother: real): real
  {
    alpha * father + (1.0 - alpha) * mother
  }

  /** The componentwise blend of two equally long vectors. */
  function Blend(alpha: real, father: seq<real>, mother: seq<real>): (r: seq<real>)
    requires |father| == |mother|
    ensures |r| == |father|
  {
    seq(|father|, j requires 0 <= j < |father| => BlendValue(alpha, father[j], mother[j]))
  }

  /** For alpha in [0, 1] the blend lies between the two parents' values. */
  lemma BlendValueBetween(alpha: real, f: real, m: real)
    requires 0.0 <= alpha <= 1.0
    ensures f <= m ==> f <= BlendValue(alpha, f, m) <= m
    ensures m <= f ==> m <= BlendValue(alpha, f, m) <= f
  {
    if f <= m {
      ProductOfNonNegatives(alpha, m - f);
      ProductOfNonNegatives(1.0 - alpha, m - f);
      assert BlendValue(alpha, f, m) - f == (1.0 - alpha) * (m - f);
      assert m - BlendValue(alpha, f, m) == alpha * (m - f);
    }
    if m <= f {
      ProductOfNonNegatives(alpha, f - m);
      ProductOfNonNegatives(1.0 - alpha, f - m);
      assert BlendValue(alpha, f, m) - m == alpha * (f - m);
      assert f - BlendValue(alpha, f, m) == (1.0 - alpha) * (f - m);
    }
  }

  lemma ProductOfNonNegatives(a: real, b: real)
    requires a >= 0.0 && b >= 0.0
    ensures a * b >= 0.0
  {
  }

  /** Componentwise, for alpha in [0, 1] a baby lies inside the box its parents span. */
  lemma BlendBetween(alpha: real, father: seq<real>, mother: seq<real>)
    requires 0.0 <= alpha <= 1.0 && |father| == |mother|
    ensures forall j :: 0 <= j < |father| ==>
      (father[j] <= mother[j] ==> father[j] <= Blend(alpha, father, mother)[j] <= mother[j]) &&
      (mother[j] <= father[j] ==> mother[j] <= Blend(alpha, father, mother)[j] <= father[j])
  {
    forall j | 0 <= j < |father| {
      BlendValueBetween(alpha, father[j], mother[j]);
    }
  }

  /** Blending a parent with itself gives the parent back, for every alpha. */
  lemma BlendWithItself(alpha: real, parent: seq<real>)
    ensures Blend(alpha, parent, parent) == parent
  {
    forall j | 0 <= j < |parent| ensures Blend(alpha, parent, parent)[j] == parent[j] {
      assert BlendValue(alpha, parent[j], parent[j]) == (alpha + (1.0 - alpha)) * parent[j];
    }
  }

  /** With alpha = 0.5, [0, 0] and [2, 2] give [1, 1]. */
  lemma BlendExample()
    ensures Blend(0.5, [0.0, 0.0], [2.0, 2.0]) == [1.0, 1.0]
  {
    var r := Blend(0.5, [0.0, 0.0], [2.0, 2.0]);
    assert r[0] == 1.0 && r[1] == 1.0;
  }

  /** Cloning: exactly one parent, `breedings` fresh copies of it (arrays copied
      element by element into the clones' own arrays; fitness not copied). */
  method NoRecombination(matingPool: seq<Individual>, breedings: nat) returns (r: Result<seq<Individual>>)
    requires AllValid(matingPool)
    ensures r.Failure? <==> |matingPool| != 1
    ensures r.Failure? ==> r.error == InvalidNumberOfParents
    ensures r.Ok? ==> |r.value| == breedings && Distinct(r.value) && OwnArrays(r.value)
    ensures r.Ok? ==> forall i :: 0 <= i < breedings ==>
      var clone := r.value[i];
      && fresh(clone) && fresh(clone.x) && fresh(clone.sigmas)
      && Born(clone, matingPool[0].x[..], matingPool[0].sigmas[..], matingPool[0].sigma)
  {
    if |matingPool| != 1 {
      return Failure(InvalidNumberOfParents);
    }
    var original := matingPool[0];
    var clones: seq<Individual> := [];
    for i := 0 to breedings
      invariant |clones| == i && Distinct(clones) && OwnArrays(clones)
      invariant forall k :: 0 <= k < i ==>
        var clone := clones[k];
        && fresh(clone) && fresh(clone.x) && fresh(clone.sigmas)
        && Born(clone, original.x[..], original.sigmas[..], original.sigma)
    {
      var clone := CloneOf(original);
      OwnArraysConcat(clones, [clone]);
      clones := clones + [clone];
    }
    r := Ok(clones);
  }

  /** One clone: a fresh individual whose arrays hold copies of the original's. */
  method CloneOf(original: Individual) returns (clone: Individual)
    requires original.Valid()
    ensures fresh(clone) && fresh(clone.x) && fresh(clone.sigmas)
    ensures Born(clone, original.x[..], original.sigmas[..], original.sigma)
  {
    clone := new Individual();
    for j := 0 to DIMENSIONS
      invariant clone.fitness == 0.0
      invariant forall k :: 0 <= k < j ==> clone.x[k] == original.x[k] && clone.sigmas[k] == original.sigmas[k]
    {
      clone.x[j] := original.x[j];
      clone.sigmas[j] := original.sigmas[j];
    }
    clone.sigma := original.sigma;
  }

  /** Whole arithmetic recombination: exactly two parents; `breedings` fresh
      babies, all the same blend alpha * father + (1 - alpha) * mother of the
      genotypes, of the step size vectors and of the step sizes. */
  method WholeArithmeticRecombination(matingPool: seq<Individual>, breedings: nat, alpha: real)
    returns (r: Result<seq<Individual>>)
    requires AllValid(matingPool)
    ensures r.Failure? <==> |matingPool| != 2
    ensures r.Failure? ==> r.error == InvalidNumberOfParents
    ensures r.Ok? ==> |r.value| == breedings && Distinct(r.value) && OwnArrays(r.value)
    ensures r.Ok? ==> forall i :: 0 <= i < breedings ==>
      var baby, father, mother := r.value[i], matingPool[0], matingPool[1];
      && fresh(baby) && fresh(baby.x) && fresh(baby.sigmas)
      && Born(baby, Blend(alpha, father.x[..], mother.x[..]), Blend(alpha, father.sigmas[..], mother.sigmas[..]),
              BlendValue(alpha, father.sigma, mother.sigma))
  {
    if |matingPool| != 2 {
      return Failure(InvalidNumberOfParents);
    }
    var father, mother := matingPool[0], matingPool[1];
    var babies: seq<Individual> := [];
    for i := 0 to breedings
      invariant |babies| == i && Distinct(babies) && OwnArrays(babies)
      invariant forall k :: 0 <= k < i ==>
        var baby := babies[k];
        && fresh(baby) && fresh(baby.x) && fresh(baby.sigmas)
        && Born(baby, Blend(alpha, father.x[..], mother.x[..]), Blend(alpha, father.sigmas[..], mother.sigmas[..]),
                BlendValue(alpha, father.sigma, mother.sigma))
    {
      var baby := BlendOf(father, mother, alpha);
      OwnArraysConcat(babies, [baby]);
      babies := babies + [baby];
    }
    r := Ok(babies);
  }

  /** One baby of whole arithmetic recombination. */
  method BlendOf(father: Individual, mother: Individual, alpha: real) returns (baby: Individual)
    requires father.Valid() && mother.Valid()
    ensures fresh(baby) && fresh(baby.x) && fresh(baby.sigmas)
    ensures Born(baby, Blend(alpha, father.x[..], mother.x[..]), Blend(alpha, father.sigmas[..], mother.sigmas[..]),
                 BlendValue(alpha, father.sigma, mother.sigma))
  {
    baby := new Individual();
    for j := 0 to DIMENSIONS
      invariant baby.fitness == 0.0
      invariant forall k :: 0 <= k < j ==>
        baby.x[k] == BlendValue(alpha, father.x[k], mother.x[k]) &&
        baby.sigmas[k] == BlendValue(alpha, father.sigmas[k], mother.sigmas[k])
    {
      baby.x[j] := alpha * father.x[j] + (1.0 - alpha) * mother.x[j];
      baby.sigmas[j] := alpha * father.sigmas[j] + (1.0 - alpha) * mother.sigmas[j];
    }
    baby.sigma := alpha * father.sigma + (1.0 - alpha) * mother.sigma;
    assert baby.x[..] == Blend(alpha, father.x[..], mother.x[..]);
    assert baby.sigmas[..] == Blend(alpha, father.sigmas[..], mother.sigmas[..]);
  }

  /** The baby's step size as written: `1 / DIMENSIONS * sum`, where `1 / DIMENSIONS`
      is Java int division. */
  function GlobalStepSize(stepSizes: seq<real>): real
  {
    (1 / DIMENSIONS) as real * Sum(stepSizes)
  }

  /** As written the step size is 0 whatever the parents' step sizes are ... */
  lemma GlobalStepSizeIsZero(stepSizes: seq<real>)
    ensures GlobalStepSize(stepSizes) == 0.0
  {
  }

  /** ... so ten parents that all have step size 1 give a baby with step size 0,
      where their mean, the intended step size, is 1. */
  lemma GlobalStepSizeCounterexample()
    ensures GlobalStepSize(Constant(DIMENSIONS, 1.0)) == 0.0
    ensures IntendedGlobalStepSize(Constant(DIMENSIONS, 1.0)) == 1.0
  {
    MeanOfConstant(Constant(DIMENSIONS, 1.0), 1.0);
  }

  /** The intended step size: the mean of the DIMENSIONS parents' step sizes. */
  function IntendedGlobalStepSize(stepSizes: seq<real>): (r: real)
    ensures |stepSizes| == DIMENSIONS ==> r == Mean(stepSizes)
  {
    Sum(stepSizes) / DIMENSIONS as real
  }

  /** Parents that share one step size pass exactly that step size on. */
  lemma IntendedGlobalStepSizeOfEqualParents(stepSizes: seq<real>, c: real)
    requires |stepSizes| == DIMENSIONS
    requires forall i :: 0 <= i < |stepSizes| ==> stepSizes[i] == c
    ensures IntendedGlobalStepSize(stepSizes) == c
  {
    MeanOfConstant(stepSizes, c);
  }

  /** Global arithmetic recombination: exactly DIMENSIONS parents; one fresh baby
      whose component i (genotype and step size vector) is parent i's component i. */
  method GlobalArithmeticRecombination(matingPool: seq<Individual>) returns (r: Result<seq<Individual>>)
    requires AllValid(matingPool)
    ensures r.Failure? <==> |matingPool| != DIMENSIONS
    ensures r.Failure? ==> r.error == InvalidNumberOfParents
    ensures r.Ok? ==> |r.value| == 1
    ensures r.Ok? ==>
      var baby := r.value[0];
      && fresh(baby) && fresh(baby.x) && fresh(baby.sigmas) && baby.Valid() && baby.fitness == 0.0
      && (forall i :: 0 <= i < DIMENSIONS ==> baby.x[i] == matingPool[i].x[i] && baby.sigmas[i] == matingPool[i].sigmas[i])
      && baby.sigma == GlobalStepSize(StepSizes(matingPool)) == 0.0
  {
    if |matingPool| != DIMENSIONS {
      return Failure(InvalidNumberOfParents);
    }
    var baby := new Individual();
    for i := 0 to DIMENSIONS
      invariant baby.fitness == 0.0
      invariant forall k :: 0 <= k < i ==> baby.x[k] == matingPool[k].x[k] && baby.sigmas[k] == matingPool[k].sigmas[k]
    {
      baby.x[i] := matingPool[i].x[i];
      baby.sigmas[i] := matingPool[i].sigmas[i];
    }
    var sigmaSum := 0.0;
    for i := 0 to DIMENSIONS
      invariant baby.fitness == 0.0
      invariant sigmaSum == Sum(StepSizes(matingPool)[..i])
    {
      assert StepSizes(matingPool)[..i + 1][..i] == StepSizes(matingPool)[..i];
      sigmaSum := sigmaSum + matingPool[i].sigma;
    }
    assert StepSizes(matingPool)[..DIMENSIONS] == StepSizes(matingPool);
    baby.sigma := (1 / DIMENSIONS) as real * sigmaSum;
    r := Ok([baby]);
  }

  // ---------------------------------------------------------------- mutation

  /** The step size floor: a value below eps0 becomes eps0, any other is kept. */
  function ClampStepSize(s: real, eps0: real): (r: real)
    ensures r >= eps0
    ensures s >= eps0 ==> r == s
    ensures s < eps0 ==> r == eps0
  {
    if s < eps0 then eps0 else s
  }

  /** The self-adapted one step size: sigma * exp(tau * n) with the floor eps0. */
  function OneStepSize(sigma: real, tau: real, n: real, eps0: real, exp: real -> real): (r: real)
    ensures r >= eps0
  {
    ClampStepSize(sigma * exp(tau * n), eps0)
  }

  /** The self-adapted step size of one dimension: sigma_i * exp(tau1 * n + tau2 * ni),
      with the floor eps0; n is shared by all dimensions, ni is drawn for this one. */
  function NStepSize(sigma: real, tau1: real, n: real, tau2: real, ni: real, eps0: real, exp: real -> real): (r: real)
    ensures r >= eps0
  {
    ClampStepSize(sigma * exp(tau1 * n + tau2 * ni), eps0)
  }

  /** One step size: sigma' from the first Gaussian draw, then x[i] += sigma' * N_i
      with N_i the (1 + i)-th draw. `exp` stands for Math.exp. */
  method UncorrelatedMutationWithOneStepSize(random: Random, individual: Individual, tau: real, eps0: real,
                                             exp: real -> real)
    requires individual.Valid()
    modifies random, individual, individual.x
    ensures random.drawn == old(random.drawn) + 1 + DIMENSIONS
    ensures individual.sigma == OneStepSize(old(individual.sigma), tau, random.nextGaussianAt(old(random.drawn)), eps0, exp)
    ensures individual.sigma >= eps0
    ensures forall i :: 0 <= i < DIMENSIONS ==>
      individual.x[i] == Perturbed(old(individual.x[i]), individual.sigma, random.nextGaussianAt(old(random.drawn) + 1 + i))
    ensures individual.sigmas[..] == old(individual.sigmas[..]) && individual.fitness == old(individual.fitness)
  {
    var n := random.NextGaussian();
    individual.sigma := OneStepSize(individual.sigma, tau, n, eps0, exp);
    for i := 0 to DIMENSIONS
      invariant random.drawn == old(random.drawn) + 1 + i
      invariant individual.sigma == OneStepSize(old(individual.sigma), tau, n, eps0, exp)
      invariant individual.fitness == old(individual.fitness)
      invariant forall k :: 0 <= k < i ==>
        individual.x[k] == Perturbed(old(individual.x[k]), individual.sigma, random.nextGaussianAt(old(random.drawn) + 1 + k))
      invariant forall k :: i <= k < DIMENSIONS ==> individual.x[k] == old(individual.x[k])
    {
      var ni := random.NextGaussian();
      individual.x[i] := Perturbed(individual.x[i], individual.sigma, ni);
    }
  }

  /** n step sizes: one shared Gaussian N (draw 0); then for each dimension i the
      step size sigma_i' from N and draw 1 + 2i, and x_i += sigma_i' * M_i with a
      separate draw M_i (draw 2 + 2i). */
  method UncorrelatedMutationWithNStepSizes(random: Random, individual: Individual, tau1: real, tau2: real,
                                           eps0: real, exp: real -> real)
    requires individual.Valid()
    modifies random, individual.x, individual.sigmas
    ensures random.drawn == old(random.drawn) + 1 + 2 * DIMENSIONS
    ensures forall i :: 0 <= i < DIMENSIONS ==>
      DimensionMutated(individual.x[i], individual.sigmas[i], old(individual.x[i]), old(individual.sigmas[i]),
                       tau1, random.nextGaussianAt(old(random.drawn)), tau2,
                       random.nextGaussianAt(old(random.drawn) + 1 + 2 * i),
                       random.nextGaussianAt(old(random.drawn) + 2 + 2 * i), eps0, exp)
    ensures individual.sigma == old(individual.sigma) && individual.fitness == old(individual.fitness)
    ensures forall i :: 0 <= i < DIMENSIONS ==> individual.sigmas[i] >= eps0
  {
    ghost var start := random.drawn;
    var n := random.NextGaussian();
    ghost var x0, sigmas0 := individual.x[..], individual.sigmas[..];
    for i := 0 to DIMENSIONS
      invariant random.drawn == start + 1 + 2 * i
      invariant forall k :: 0 <= k < i ==>
        DimensionMutated(individual.x[k], individual.sigmas[k], x0[k], sigmas0[k], tau1, n, tau2,
                         random.nextGaussianAt(start + 1 + 2 * k), random.nextGaussianAt(start + 2 + 2 * k), eps0, exp)
      invariant forall k :: 0 <= k < i ==> individual.sigmas[k] >= eps0
      invariant forall k :: i <= k < DIMENSIONS ==> individual.x[k] == x0[k] && individual.sigmas[k] == sigmas0[k]
    {
      StepDimension(random, individual, i, n, tau1, tau2, eps0, exp);
    }
  }

  /** Dimension k after the n-step mutation: its step size from the shared draw n
      and its own draw ni, then the component moved by the new step size times mi. */
  ghost predicate DimensionMutated(x: real, sigma: real, x0: real, sigma0: real, tau1: real, n: real, tau2: real,
                                   ni: real, mi: real, eps0: real, exp: real -> real)
  {
    sigma == NStepSize(sigma0, tau1, n, tau2, ni, eps0, exp) && x == Perturbed(x0, sigma, mi)
  }

  /** A component moved by the step size times a Gaussian draw. */
  function Perturbed(x: real, sigma: real, m: real): real
  {
    x + sigma * m
  }

  /** The body of the n-step loop for dimension i: only component i changes. */
  method StepDimension(random: Random, individual: Individual, i: nat, n: real, tau1: real, tau2: real,
                       eps0: real, exp: real -> real)
    requires individual.Valid() && i < DIMENSIONS
    modifies random, individual.x, individual.sigmas
    ensures random.drawn == old(random.drawn) + 2
    ensures individual.sigmas[i] == NStepSize(old(individual.sigmas[i]), tau1, n, tau2,
                                              random.nextGaussianAt(old(random.drawn)), eps0, exp)
    ensures individual.x[i] == Perturbed(old(individual.x[i]), individual.sigmas[i], random.nextGaussianAt(old(random.drawn) + 1))
    ensures forall k :: 0 <= k < DIMENSIONS && k != i ==>
      individual.x[k] == old(individual.x[k]) && individual.sigmas[k] == old(individual.sigmas[k])
  {
    var ni := random.NextGaussian();
    individual.sigmas[i] := NStepSize(individual.sigmas[i], tau1, n, tau2, ni, eps0, exp);
    var mi := random.NextGaussian();
    individual.x[i] := Perturbed(individual.x[i], individual.sigmas[i], mi);
  }

  // ---------------------------------------------------------------- parent selection

  /** Every int draw from `start` on, `count` of them, with this bound, is a
      valid index into a list of `size` members. */
  ghost predicate IntDrawsBelow(random: Random, start: nat, count: nat, bound: nat, size: nat)
  {
    forall k :: start <= k < start + count ==> random.nextIntAt(k, bound) < size
  }

  /** Draws inside a window of valid draws are valid. */
  lemma IntDrawsBelowWindow(random: Random, start: nat, count: nat, from: nat, length: nat, bound: nat, size: nat)
    requires start <= from && from + length <= start + count
    requires IntDrawsBelow(random, start, count, bound, size)
    ensures IntDrawsBelow(random, from, length, bound, size)
  {
  }

  /** Two adjacent windows of valid draws make one. */
  lemma IntDrawsBelowJoin(random: Random, start: nat, count: nat, more: nat, bound: nat, size: nat)
    requires IntDrawsBelow(random, start, count, bound, size)
    requires IntDrawsBelow(random, start + count, more, bound, size)
    ensures IntDrawsBelow(random, start, count + more, bound, size)
  {
  }

  lemma ProductMonotone(a: nat, b: nat, c: nat)
    requires a <= b
    ensures a * c <= b * c
  {
  }

  /** Slot j of `pool` holds the member at position nextInt(bound) of draw start + j. */
  ghost predicate PoolDrawn(random: Random, population: seq<Individual>, bound: nat, start: nat, pool: seq<Individual>)
  {
    forall j :: 0 <= j < |pool| ==>
      random.nextIntAt(start + j, bound) < |population| && pool[j] == population[random.nextIntAt(start + j, bound)]
  }

  /** Every pool has matingPoolSize slots, and pool i was drawn from draw
      start + i * matingPoolSize on. */
  ghost predicate PoolsDrawn(random: Random, population: seq<Individual>, bound: nat, start: nat, matingPoolSize: nat,
                             pools: seq<seq<Individual>>)
  {
    forall i :: 0 <= i < |pools| ==>
      |pools[i]| == matingPoolSize && PoolDrawn(random, population, bound, start + i * matingPoolSize, pools[i])
  }

  /** Every drawn slot holds a member of the population. */
  lemma PoolsDrawnMembers(random: Random, population: seq<Individual>, bound: nat, start: nat, matingPoolSize: nat,
                          pools: seq<seq<Individual>>)
    requires PoolsDrawn(random, population, bound, start, matingPoolSize, pools)
    ensures forall i, j :: 0 <= i < |pools| && 0 <= j < |pools[i]| ==> pools[i][j] in population
  {
    forall i, j | 0 <= i < |pools| && 0 <= j < |pools[i]| ensures pools[i][j] in population {
      assert PoolDrawn(random, population, bound, start + i * matingPoolSize, pools[i]);
    }
  }

  lemma PoolsDrawnExtend(random: Random, population: seq<Individual>, bound: nat, start: nat, matingPoolSize: nat,
                         pools: seq<seq<Individual>>, pool: seq<Individual>)
    requires PoolsDrawn(random, population, bound, start, matingPoolSize, pools)
    requires |pool| == matingPoolSize && PoolDrawn(random, population, bound, start + |pools| * matingPoolSize, pool)
    ensures PoolsDrawn(random, population, bound, start, matingPoolSize, pools + [pool])
  {
    var extended := pools + [pool];
    forall i | 0 <= i < |extended|
      ensures |extended[i]| == matingPoolSize && PoolDrawn(random, population, bound, start + i * matingPoolSize, extended[i])
    {
      if i < |pools| {
        assert extended[i] == pools[i];
      }
    }
  }

  /** One pool of matingPoolSize members, slot j taken from the list at position
      nextInt(bound) of the j-th draw. nextInt(0) throws, and so does `get` of a
      position past the end; the pool is built exactly when neither can happen. */
  method DrawMatingPool(random: Random, population: seq<Individual>, bound: nat, matingPoolSize: nat)
    returns (r: Result<seq<Individual>>)
    modifies random
    ensures r.Ok? <==>
      matingPoolSize == 0 || (0 < bound && IntDrawsBelow(random, old(random.drawn), matingPoolSize, bound, |population|))
    ensures r.Failure? ==> r.error == (if bound == 0 then NonPositiveBound else IndexOutOfBounds)
    ensures r.Ok? ==> random.drawn == old(random.drawn) + matingPoolSize && |r.value| == matingPoolSize
    ensures r.Ok? ==> PoolDrawn(random, population, bound, old(random.drawn), r.value)
  {
    var pool: seq<Individual> := [];
    for j := 0 to matingPoolSize
      invariant |pool| == j && random.drawn == old(random.drawn) + j
      invariant j == 0 || 0 < bound
      invariant IntDrawsBelow(random, old(random.drawn), j, bound, |population|)
      invariant PoolDrawn(random, population, bound, old(random.drawn), pool)
    {
      if bound == 0 {
        return Failure(NonPositiveBound);
      }
      var index := random.NextInt(bound);
      if index >= |population| {
        return Failure(IndexOutOfBounds);
      }
      pool := pool + [population[index]];
    }
    r := Ok(pool);
  }

  /** numMatingPools pools of matingPoolSize members each, slot j of pool i taken
      from the list at position nextInt(bound) of draw i * matingPoolSize + j; the
      pools are built exactly when every one of those draws is a valid position. */
  method DrawMatingPools(random: Random, population: seq<Individual>, bound: nat,
                         numMatingPools: nat, matingPoolSize: nat) returns (r: Result<seq<seq<Individual>>>)
    modifies random
    ensures r.Ok? <==>
      numMatingPools == 0 || matingPoolSize == 0 ||
      (0 < bound && IntDrawsBelow(random, old(random.drawn), numMatingPools * matingPoolSize, bound, |population|))
    ensures r.Failure? ==> r.error == (if bound == 0 then NonPositiveBound else IndexOutOfBounds)
    ensures r.Ok? ==> random.drawn == old(random.drawn) + numMatingPools * matingPoolSize
    ensures r.Ok? ==> |r.value| == numMatingPools
    ensures r.Ok? ==> PoolsDrawn(random, population, bound, old(random.drawn), matingPoolSize, r.value)
  {
    ghost var start := random.drawn;
    var pools: seq<seq<Individual>> := [];
    for i := 0 to numMatingPools
      invariant |pools| == i && random.drawn == start + i * matingPoolSize
      invariant matingPoolSize == 0 || i == 0 || 0 < bound
      invariant IntDrawsBelow(random, start, i * matingPoolSize, bound, |population|)
      invariant PoolsDrawn(random, population, bound, start, matingPoolSize, pools)
    {
      var pool := DrawMatingPool(random, population, bound, matingPoolSize);
      assert (i + 1) * matingPoolSize == i * matingPoolSize + matingPoolSize;
      ProductMonotone(i + 1, numMatingPools, matingPoolSize);
      if pool.Failure? {
        if IntDrawsBelow(random, start, numMatingPools * matingPoolSize, bound, |population|) {
          IntDrawsBelowWindow(random, start, numMatingPools * matingPoolSize, start + i * matingPoolSize,
                              matingPoolSize, bound, |population|);
        }
        return Failure(pool.error);
      }
      IntDrawsBelowJoin(random, start, i * matingPoolSize, matingPoolSize, bound, |population|);
      PoolsDrawnExtend(random, population, bound, start, matingPoolSize, pools, pool.value);
      pools := pools + [pool.value];
    }
    r := Ok(pools);
  }

  /** Uniform parent selection: every slot is a uniformly drawn member, draw
      i * matingPoolSize + j for slot j of pool i. Only an empty population with at
      least one slot to fill fails (nextInt(0)). */
  method UniformParentSelection(random: Random, population: IndividualList, numMatingPools: nat, matingPoolSize: nat)
    returns (r: Result<seq<seq<Individual>>>)
    modifies random
    ensures r.Ok? <==> numMatingPools == 0 || matingPoolSize == 0 || 0 < |population.members|
    ensures r.Failure? ==> r.error == NonPositiveBound
    ensures r.Ok? ==> random.drawn == old(random.drawn) + numMatingPools * matingPoolSize
    ensures r.Ok? ==> |r.value| == numMatingPools && forall i :: 0 <= i < numMatingPools ==> |r.value[i]| == matingPoolSize
    ensures r.Ok? ==> forall i, j :: 0 <= i < numMatingPools && 0 <= j < matingPoolSize ==>
      r.value[i][j] == population.members[random.nextIntAt(old(random.drawn) + i * matingPoolSize + j, |population.members|)]
    ensures r.Ok? ==> forall i, j :: 0 <= i < numMatingPools && 0 <= j < matingPoolSize ==> r.value[i][j] in population.members
  {
    var size := |population.members|;
    assert 0 < size ==> IntDrawsBelow(random, random.drawn, numMatingPools * matingPoolSize, size, size);
    r := DrawMatingPools(random, population.members, size, numMatingPools, matingPoolSize);
  }

  /** The smallest fitness, or 0 when none is negative (the running minimum starts at 0). */
  function MinimumWithZero(fitnesses: seq<real>): (m: real)
    ensures m <= 0.0 && forall i :: 0 <= i < |fitnesses| ==> m <= fitnesses[i]
    ensures m == 0.0 || m in fitnesses
  {
    if |fitnesses| == 0 then 0.0
    else
      var m := MinimumWithZero(fitnesses[..|fitnesses| - 1]);
      if m > fitnesses[|fitnesses| - 1] then fitnesses[|fitnesses| - 1] else m
  }

  /** The roulette weights: every fitness shifted by -minimum + transpose. */
  function Weights(fitnesses: seq<real>, transpose: real): (w: seq<real>)
    ensures |w| == |fitnesses|
  {
    var minimum := MinimumWithZero(fitnesses);
    seq(|fitnesses|, i requires 0 <= i < |fitnesses| => fitnesses[i] + (-minimum + transpose))
  }

  /** No weight is below transpose: the shift makes every weight non-negative
      before transpose is added. */
  lemma WeightsAtLeastTranspose(fitnesses: seq<real>, transpose: real)
    ensures forall i :: 0 <= i < |fitnesses| ==> Weights(fitnesses, transpose)[i] >= transpose
  {
    var minimum := MinimumWithZero(fitnesses);
    forall i | 0 <= i < |fitnesses| ensures Weights(fitnesses, transpose)[i] >= transpose {
      assert minimum <= fitnesses[i];
    }
  }

  /** The shift keeps the order of the fitnesses: the fitter, the heavier. */
  lemma WeightsKeepOrder(fitnesses: seq<real>, transpose: real, i: nat, j: nat)
    requires i < |fitnesses| && j < |fitnesses|
    ensures fitnesses[i] <= fitnesses[j] <==> Weights(fitnesses, transpose)[i] <= Weights(fitnesses, transpose)[j]
  {
  }

  /** One spin: subtract the weights in turn from `value` and stop at the first
      position where it is no longer positive; None when it never gets there. */
  function Roulette(weights: seq<real>, value: real): (r: Option<nat>)
    ensures r.Some? ==> r.value < |weights|
  {
    if |weights| == 0 then None
    else if value - weights[0] <= 0.0 then Some(0)
    else Shift(Roulette(weights[1..], value - weights[0]), 1)
  }

  function Shift(r: Option<nat>, offset: nat): Option<nat>
  {
    match r
    case None => None
    case Some(k) => Some(k + offset)
  }

  /** The total of the first n weights. */
  function PrefixSum(weights: seq<real>, n: nat): real
    requires n <= |weights|
  {
    Sum(weights[..n])
  }

  /** The slot filled by a spin of the uniform draw u against this total: value
      u * total; the member at the chosen position, or null. */
  function Chosen(population: seq<Individual>, weights: seq<real>, u: real, total: real): Individual?
    requires |weights| == |population|
  {
    match Roulette(weights, Scale(u, total))
    case None => null
    case Some(k) => population[k]
  }

  /** The slot filled by a spin of the uniform draw u against the whole weight. */
  function RouletteChoice(population: seq<Individual>, weights: seq<real>, u: real): Individual?
    requires |weights| == |population|
  {
    Chosen(population, weights, u, Sum(weights))
  }

  /** nextDouble() * sum. */
  function Scale(u: real, total: real): real
  {
    u * total
  }

  /** A fraction in [0, 1) of a non-negative total does not exceed it. */
  lemma ScaledAtMost(u: real, total: real)
    requires 0.0 <= u < 1.0 && 0.0 <= total
    ensures Scale(u, total) <= total
  {
    ProductOfNonNegatives(1.0 - u, total);
    assert (1.0 - u) * total == total - u * total;
  }

  /** The spin picks position k exactly when the total of the first k + 1 weights
      is the first running total to reach the value; it picks nothing only when
      every running total, the whole total included, stays below the value. */
  lemma {:induction false} RouletteFirstReach(weights: seq<real>, value: real)
    ensures Roulette(weights, value).Some? ==>
      var k := Roulette(weights, value).value;
      value <= PrefixSum(weights, k + 1) && forall n :: 0 < n <= k ==> PrefixSum(weights, n) < value
    ensures Roulette(weights, value).None? ==> forall n :: 0 < n <= |weights| ==> PrefixSum(weights, n) < value
  {
    if |weights| == 0 {
      return;
    }
    assert PrefixSum(weights, 1) == weights[0] by {
      SumFront(weights[..1]);
      assert weights[..1][1..] == [];
    }
    if value - weights[0] > 0.0 {
      var rest := weights[1..];
      RouletteFirstReach(rest, value - weights[0]);
      forall n | 1 < n <= |weights| ensures PrefixSum(weights, n) == weights[0] + PrefixSum(rest, n - 1) {
        SumFront(weights[..n]);
        assert weights[..n][1..] == rest[..n - 1];
      }
    }
  }

  /** A spin whose value does not exceed the total weight always picks someone. */
  lemma RouletteSelects(weights: seq<real>, value: real)
    requires |weights| > 0 && value <= Sum(weights)
    ensures Roulette(weights, value).Some?
  {
    RouletteFirstReach(weights, value);
    assert weights[..|weights|] == weights;
    assert PrefixSum(weights, |weights|) == Sum(weights);
  }

  /** With a non-negative transpose every slot of a non-empty population is filled:
      the weights are non-negative, so u * total never exceeds the total. */
  lemma FitnessProportionalSelectionFillsSlots(population: seq<Individual>, fitnesses: seq<real>, transpose: real, u: real)
    requires 0 < |population| == |fitnesses| && 0.0 <= transpose && 0.0 <= u < 1.0
    ensures RouletteChoice(population, Weights(fitnesses, transpose), u) != null
  {
    var w := Weights(fitnesses, transpose);
    WeightsAtLeastTranspose(fitnesses, transpose);
    SumAtLeast(w, 0.0);
    ScaledAtMost(u, Sum(w));
    RouletteSelects(w, Scale(u, Sum(w)));
  }

  /** The roulette loop over the weight array, for the value u * sum. */
  method Spin(population: seq<Individual>, weights: array<real>, u: real, sum: real) returns (chosen: Individual?)
    requires weights.Length == |population|
    ensures chosen == Chosen(population, weights[..], u, sum)
  {
    var value := u * sum;
    chosen := null;
    for k := 0 to |population|
      invariant Roulette(weights[..], Scale(u, sum)) == Shift(Roulette(weights[k..], value), k)
    {
      assert weights[k..][1..] == weights[k + 1..];
      value := value - weights[k];
      if value <= 0.0 {
        chosen := population[k];
        return;
      }
    }
  }

  /** The first loop: the fitnesses copied into a fresh array, and their minimum
      (never above 0). */
  method CopyFitnesses(members: seq<Individual>) returns (fitnisses: array<real>, minimum: real)
    ensures fresh(fitnisses) && fitnisses[..] == Fitnesses(members) && minimum == MinimumWithZero(fitnisses[..])
  {
    ghost var fitnesses := Fitnesses(members);
    fitnisses := new real[|members|];
    minimum := 0.0;
    for i := 0 to |members|
      invariant forall k :: 0 <= k < i ==> fitnisses[k] == fitnesses[k]
      invariant minimum == MinimumWithZero(fitnesses[..i])
    {
      var fitness := members[i].fitness;
      fitnisses[i] := fitness;
      MinimumWithZeroStep(fitnesses, i);
      if minimum > fitness {
        minimum := fitness;
      }
    }
    assert fitnesses[..|members|] == fitnesses;
  }

  /** The running minimum over one more fitness. */
  lemma MinimumWithZeroStep(fitnesses: seq<real>, i: nat)
    requires i < |fitnesses|
    ensures MinimumWithZero(fitnesses[..i + 1]) ==
      if MinimumWithZero(fitnesses[..i]) > fitnesses[i] then fitnesses[i] else MinimumWithZero(fitnesses[..i])
  {
    assert fitnesses[..i + 1][..i] == fitnesses[..i];
  }

  /** The second loop: every entry shifted by -minimum + transpose, and the total. */
  method ShiftWeights(fitnisses: array<real>, minimum: real, transpose: real) returns (sum: real)
    requires minimum == MinimumWithZero(fitnisses[..])
    modifies fitnisses
    ensures fitnisses[..] == Weights(old(fitnisses[..]), transpose) && sum == Sum(fitnisses[..])
  {
    ghost var w := Weights(fitnisses[..], transpose);
    sum := 0.0;
    for i := 0 to fitnisses.Length
      invariant forall k :: 0 <= k < i ==> fitnisses[k] == w[k]
      invariant forall k :: i <= k < fitnisses.Length ==> fitnisses[k] == old(fitnisses[k])
      invariant sum == Sum(w[..i])
    {
      assert w[..i + 1][..i] == w[..i];
      fitnisses[i] := fitnisses[i] + (-minimum + transpose);
      sum := sum + fitnisses[i];
    }
    assert fitnisses[..] == w == w[..fitnisses.Length];
  }

  /** The first two loops: the fitnesses copied into a fresh array and shifted
      into roulette weights, and their total. */
  method ComputeWeights(members: seq<Individual>, transpose: real) returns (weights: array<real>, sum: real)
    ensures fresh(weights) && weights[..] == Weights(Fitnesses(members), transpose) && sum == Sum(weights[..])
  {
    var minimum;
    weights, minimum := CopyFitnesses(members);
    sum := ShiftWeights(weights, minimum, transpose);
  }

  /** Slot j of `pool` is the spin of the next double of draw start + j. */
  ghost predicate PoolSpun(random: Random, population: seq<Individual>, weights: seq<real>, start: nat,
                           pool: seq<Individual?>)
    requires |weights| == |population|
  {
    forall j :: 0 <= j < |pool| ==> pool[j] == RouletteChoice(population, weights, random.nextDoubleAt(start + j))
  }

  /** Every pool has matingPoolSize slots, and pool i was spun from draw
      start + i * matingPoolSize on. */
  ghost predicate PoolsSpun(random: Random, population: seq<Individual>, weights: seq<real>, start: nat,
                            matingPoolSize: nat, pools: seq<seq<Individual?>>)
    requires |weights| == |population|
  {
    forall i :: 0 <= i < |pools| ==>
      |pools[i]| == matingPoolSize && PoolSpun(random, population, weights, start + i * matingPoolSize, pools[i])
  }

  lemma PoolsSpunExtend(random: Random, population: seq<Individual>, weights: seq<real>, start: nat,
                        matingPoolSize: nat, pools: seq<seq<Individual?>>, pool: seq<Individual?>)
    requires |weights| == |population|
    requires PoolsSpun(random, population, weights, start, matingPoolSize, pools)
    requires |pool| == matingPoolSize && PoolSpun(random, population, weights, start + |pools| * matingPoolSize, pool)
    ensures PoolsSpun(random, population, weights, start, matingPoolSize, pools + [pool])
  {
    var extended := pools + [pool];
    forall i | 0 <= i < |extended|
      ensures |extended[i]| == matingPoolSize && PoolSpun(random, population, weights, start + i * matingPoolSize, extended[i])
    {
      if i < |pools| {
        assert extended[i] == pools[i];
      }
    }
  }

  /** One mating pool of fitness proportional selection: slot j spins with the
      j-th next double. */
  method SpinMatingPool(random: Random, members: seq<Individual>, weights: array<real>, sum: real, matingPoolSize: nat)
    returns (pool: seq<Individual?>)
    requires weights.Length == |members| && sum == Sum(weights[..])
    modifies random
    ensures random.drawn == old(random.drawn) + matingPoolSize && |pool| == matingPoolSize
    ensures PoolSpun(random, members, weights[..], old(random.drawn), pool)
  {
    pool := [];
    for j := 0 to matingPoolSize
      invariant |pool| == j && random.drawn == old(random.drawn) + j
      invariant PoolSpun(random, members, weights[..], old(random.drawn), pool)
    {
      var u := random.NextDouble();
      var chosen := Spin(members, weights, u, sum);
      pool := pool + [chosen];
    }
  }

  /** Fitness proportional (roulette wheel) selection. Slot j of pool i spins the
      wheel once with the next double of draw i * matingPoolSize + j, against the
      weights of the population's fitnesses; an unfilled slot stays null. */
  method FitnessProportionalSelection(random: Random, population: IndividualList, numMatingPools: nat,
                                      matingPoolSize: nat, transpose: real) returns (pools: seq<seq<Individual?>>)
    modifies random
    ensures random.drawn == old(random.drawn) + numMatingPools * matingPoolSize && |pools| == numMatingPools
    ensures PoolsSpun(random, population.members, Weights(Fitnesses(population.members), transpose),
                      old(random.drawn), matingPoolSize, pools)
  {
    var members := population.members;
    var fitnisses, sum := ComputeWeights(members, transpose);
    ghost var w := fitnisses[..];
    ghost var start := random.drawn;
    pools := [];
    for i := 0 to numMatingPools
      invariant |pools| == i && random.drawn == start + i * matingPoolSize
      invariant fitnisses[..] == w
      invariant PoolsSpun(random, members, w, start, matingPoolSize, pools)
    {
      ghost var here := random.drawn;
      assert here == start + |pools| * matingPoolSize;
      var pool := SpinMatingPool(random, members, fitnisses, sum, matingPoolSize);
      assert PoolSpun(random, members, w, here, pool);
      assert (i + 1) * matingPoolSize == i * matingPoolSize + matingPoolSize;
      PoolsSpunExtend(random, members, w, start, matingPoolSize, pools, pool);
      pools := pools + [pool];
    }
  }

  // ---------------------------------------------------------------- survivor selection

  /** (mu, lambda) selection: both generations must have their declared sizes; the
      new generation is then sorted and its lambda - mu weakest members removed, so
      exactly mu of the fittest children survive and all parents die. */
  method MuLambdaSelection(oldGeneration: IndividualList, newGeneration: IndividualList, mu: nat, lambda: nat)
    returns (r: Result<IndividualList>)
    modifies newGeneration
    ensures old(|oldGeneration.members|) != mu ==>
      r == Failure(OldGenerationSizeMismatch) && newGeneration.members == old(newGeneration.members)
    ensures old(|oldGeneration.members|) == mu && old(|newGeneration.members|) != lambda ==>
      r == Failure(NewGenerationSizeMismatch) && newGeneration.members == old(newGeneration.members)
    ensures old(|oldGeneration.members|) == mu && old(|newGeneration.members|) == lambda && lambda < mu ==>
      && r == Failure(InvertedRange)
      && multiset(newGeneration.members) == multiset(old(newGeneration.members)) && SortedByFitness(newGeneration.members)
    ensures r.Ok? <==> old(|oldGeneration.members|) == mu && old(|newGeneration.members|) == lambda && mu <= lambda
    ensures r.Ok? ==> r.value == newGeneration && |newGeneration.members| == mu
    ensures r.Ok? ==> SortedByFitness(newGeneration.members)
    ensures r.Ok? ==> KeepsFittest(old(newGeneration.members), newGeneration.members)
  {
    if |oldGeneration.members| != mu {
      return Failure(OldGenerationSizeMismatch);
    } else if |newGeneration.members| != lambda {
      return Failure(NewGenerationSizeMismatch);
    }
    var population := newGeneration;
    r := SortAndClearWeakest(population, lambda - mu);
  }
}
