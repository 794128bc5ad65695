/** The evolutionary algorithms the contest entry can run (package
    `implementation`): two self-contained evolution strategies and two solvers
    wired from the operator library, plus the choice between them. Every class
    keeps the parameters its Java constructor stores; the math library's
    exponential (and, for the choice, its square root) is a parameter. */
module Implementation {
  import opened Space
  import opened RealSeqs
  import opened Wrappers
  import opened Randomness
  import opened Individuals
  import EAUtils
  import Ops = StrategyOperators

  /** Evolution strategy with intermediate crossover, one-step mutation and
      (mu, lambda) survivor selection that keeps as many children as there
      were parents. */
  class EvolutionairyStrategies {
    const mu: nat              // population size
    const lambda: nat          // children per generation
    const sigma: real          // initial mutation step size
    const eps0: real           // lower bound of the step size
    const tau: real            // learning rate
    const matingPoolSize: nat  // parents per family
    const numChildren: nat     // children per family
    const exp: real -> real

    constructor (mu: nat, lambda: nat, sigma: real, eps0: real, tau: real, matingPoolSize: nat, numChildren: nat,
                 exp: real -> real)
      ensures this.mu == mu && this.lambda == lambda && this.sigma == sigma && this.eps0 == eps0 && this.tau == tau
      ensures this.matingPoolSize == matingPoolSize && this.numChildren == numChildren && this.exp == exp
    {
      this.mu, this.lambda, this.sigma, this.eps0, this.tau := mu, lambda, sigma, eps0, tau;
      this.matingPoolSize, this.numChildren, this.exp := matingPoolSize, numChildren, exp;
    }

    method Initialisation(random: Random) returns (population: IndividualList)
      modifies random
      ensures fresh(population) && |population.members| == mu && Distinct(population.members)
      ensures random.drawn == old(random.drawn) + mu * DIMENSIONS
      ensures forall i :: 0 <= i < mu ==>
        var ind := population.members[i];
        && fresh(ind) && fresh(ind.x) && fresh(ind.sigmas)
        && Ops.Seeded(ind, random, old(random.drawn) + i * DIMENSIONS, sigma)
      ensures forall i, j :: 0 <= i < mu && 0 <= j < population.members[i].x.Length ==>
        LOWER_BOUND <= population.members[i].x[j] < UPPER_BOUND
    {
      population := Ops.Initialisation(random, mu, sigma);
    }

    method ParentSelection(random: Random, population: IndividualList) returns (r: Result<seq<seq<Individual>>>)
      modifies random
      ensures numChildren == 0 ==> r == Failure(DivisionByZero) && random.drawn == old(random.drawn)
      ensures 0 < numChildren ==>
        (r.Ok? <==> lambda / numChildren == 0 || matingPoolSize == 0 ||
                     (0 < mu && EAUtils.IntDrawsBelow(random, old(random.drawn), lambda / numChildren * matingPoolSize,
                                                      mu, |population.members|)))
      ensures 0 < numChildren && r.Failure? ==> r.error == (if mu == 0 then NonPositiveBound else IndexOutOfBounds)
      ensures r.Ok? ==> |r.value| == lambda / numChildren
      ensures r.Ok? ==> random.drawn == old(random.drawn) + lambda / numChildren * matingPoolSize
      ensures r.Ok? ==> EAUtils.PoolsDrawn(random, population.members, mu, old(random.drawn), matingPoolSize, r.value)
      ensures 0 < numChildren && 0 < mu <= |population.members| ==> r.Ok?
      ensures r.Ok? ==> forall i, j :: 0 <= i < |r.value| && 0 <= j < |r.value[i]| ==> r.value[i][j] in population.members
    {
      r := Ops.ParentSelection(random, population, mu, lambda, numChildren, matingPoolSize);
      if 0 < numChildren && 0 < mu <= |population.members| {
        Ops.ParentSelectionInRange(random, old(random.drawn), lambda / numChildren * matingPoolSize, mu, |population.members|);
      }
      if r.Ok? {
        EAUtils.PoolsDrawnMembers(random, population.members, mu, old(random.drawn), matingPoolSize, r.value);
      }
    }

    method Recombination(matingPool: seq<Individual>) returns (children: seq<Individual>)
      requires AllValid(matingPool)
      ensures |children| == numChildren && Distinct(children) && OwnArrays(children)
      ensures forall i :: 0 <= i < numChildren ==>
        var child := children[i];
        && fresh(child) && fresh(child.x) && fresh(child.sigmas) && child.Valid() && child.fitness == 0.0
        && child.sigmas[..] == Constant(DIMENSIONS, 0.0) && Ops.IsIntermediateChild(child, matingPool)
    {
      children := Ops.Recombination(matingPool, numChildren);
    }

    method Mutation(random: Random, individual: Individual)
      requires individual.Valid()
      modifies random, individual, individual.x
      ensures random.drawn == old(random.drawn) + 1 + DIMENSIONS
      ensures individual.sigma == EAUtils.OneStepSize(old(individual.sigma), tau, random.nextGaussianAt(old(random.drawn)),
                                                      eps0, exp)
      ensures individual.sigma >= eps0
      ensures forall i :: 0 <= i < DIMENSIONS ==>
        individual.x[i] == EAUtils.Perturbed(old(individual.x[i]), individual.sigma, random.nextGaussianAt(old(random.drawn) + 1 + i))
      ensures individual.sigmas[..] == old(individual.sigmas[..]) && individual.fitness == old(individual.fitness)
    {
      EAUtils.UncorrelatedMutationWithOneStepSize(random, individual, tau, eps0, exp);
    }

    /** Sorts the children and drops the |children| - |parents| weakest: fails
        when there are fewer children than parents. */
    method SurvivorSelection(oldGeneration: IndividualList, newGeneration: IndividualList)
      returns (r: Result<IndividualList>)
      modifies newGeneration
      ensures r.Ok? <==> old(|oldGeneration.members|) <= old(|newGeneration.members|)
      ensures r.Failure? ==> r.error == InvertedRange
      ensures r.Ok? ==> r.value == newGeneration && |newGeneration.members| == old(|oldGeneration.members|)
      ensures r.Ok? ==> SortedByFitness(newGeneration.members)
      ensures r.Ok? ==> KeepsFittest(old(newGeneration.members), newGeneration.members)
      ensures r.Failure? ==> multiset(newGeneration.members) == multiset(old(newGeneration.members))
    {
      var population := newGeneration;
      r := SortAndClearWeakest(population, |population.members| - |oldGeneration.members|);
    }
  }

  /** The classic evolution strategy: the same operators except that survivor
      selection drops lambda - mu children whatever the sizes. */
  class EvolutionaryStrategies {
    const mu: nat
    const lambda: nat
    const sigma: real
    const eps0: real
    const tau: real
    const matingPoolSize: nat
    const offspring: nat       // children per mating pool
    const exp: real -> real

    constructor (mu: nat, lambda: nat, sigma: real, eps0: real, tau: real, matingPoolSize: nat, offspring: nat,
                 exp: real -> real)
      ensures this.mu == mu && this.lambda == lambda && this.sigma == sigma && this.eps0 == eps0 && this.tau == tau
      ensures this.matingPoolSize == matingPoolSize && this.offspring == offspring && this.exp == exp
    {
      this.mu, this.lambda, this.sigma, this.eps0, this.tau := mu, lambda, sigma, eps0, tau;
      this.matingPoolSize, this.offspring, this.exp := matingPoolSize, offspring, exp;
    }

    method Initialisation(random: Random) returns (population: IndividualList)
      modifies random
      ensures fresh(population) && |population.members| == mu && Distinct(population.members)
      ensures random.drawn == old(random.drawn) + mu * DIMENSIONS
      ensures forall i :: 0 <= i < mu ==>
        var ind := population.members[i];
        && fresh(ind) && fresh(ind.x) && fresh(ind.sigmas)
        && Ops.Seeded(ind, random, old(random.drawn) + i * DIMENSIONS, sigma)
      ensures forall i, j :: 0 <= i < mu && 0 <= j < population.members[i].x.Length ==>
        LOWER_BOUND <= population.members[i].x[j] < UPPER_BOUND
    {
      population := Ops.Initialisation(random, mu, sigma);
    }

    method Recombination(matingPool: seq<Individual>) returns (children: seq<Individual>)
      requires AllValid(matingPool)
      ensures |children| == offspring && Distinct(children) && OwnArrays(children)
      ensures forall i :: 0 <= i < offspring ==>
        var child := children[i];
        && fresh(child) && fresh(child.x) && fresh(child.sigmas) && child.Valid() && child.fitness == 0.0
        && child.sigmas[..] == Constant(DIMENSIONS, 0.0) && Ops.IsIntermediateChild(child, matingPool)
    {
      children := Ops.Recombination(matingPool, offspring);
    }

    method Mutation(random: Random, individual: Individual)
      requires individual.Valid()
      modifies random, individual, individual.x
      ensures random.drawn == old(random.drawn) + 1 + DIMENSIONS
      ensures individual.sigma == EAUtils.OneStepSize(old(individual.sigma), tau, random.nextGaussianAt(old(random.drawn)),
                                                      eps0, exp)
      ensures individual.sigma >= eps0
      ensures forall i :: 0 <= i < DIMENSIONS ==>
        individual.x[i] == EAUtils.Perturbed(old(individual.x[i]), individual.sigma, random.nextGaussianAt(old(random.drawn) + 1 + i))
      ensures individual.sigmas[..] == old(individual.sigmas[..]) && individual.fitness == old(individual.fitness)
    {
      EAUtils.UncorrelatedMutationWithOneStepSize(random, individual, tau, eps0, exp);
    }

    method ParentSelection(random: Random, population: IndividualList) returns (r: Result<seq<seq<Individual>>>)
      modifies random
      ensures offspring == 0 ==> r == Failure(DivisionByZero) && random.drawn == old(random.drawn)
      ensures 0 < offspring ==>
        (r.Ok? <==> lambda / offspring == 0 || matingPoolSize == 0 ||
                     (0 < mu && EAUtils.IntDrawsBelow(random, old(random.drawn), lambda / offspring * matingPoolSize,
                                                      mu, |population.members|)))
      ensures 0 < offspring && r.Failure? ==> r.error == (if mu == 0 then NonPositiveBound else IndexOutOfBounds)
      ensures r.Ok? ==> |r.value| == lambda / offspring
      ensures r.Ok? ==> random.drawn == old(random.drawn) + lambda / offspring * matingPoolSize
      ensures r.Ok? ==> EAUtils.PoolsDrawn(random, population.members, mu, old(random.drawn), matingPoolSize, r.value)
      ensures 0 < offspring && 0 < mu <= |population.members| ==> r.Ok?
      ensures r.Ok? ==> forall i, j :: 0 <= i < |r.value| && 0 <= j < |r.value[i]| ==> r.value[i][j] in population.members
    {
      r := Ops.ParentSelection(random, population, mu, lambda, offspring, matingPoolSize);
      if 0 < offspring && 0 < mu <= |population.members| {
        Ops.ParentSelectionInRange(random, old(random.drawn), lambda / offspring * matingPoolSize, mu, |population.members|);
      }
      if r.Ok? {
        EAUtils.PoolsDrawnMembers(random, population.members, mu, old(random.drawn), matingPoolSize, r.value);
      }
    }

    /** Sorts the children and drops the lambda - mu weakest. */
    method SurvivorSelection(oldGeneration: IndividualList, newGeneration: IndividualList)
      returns (r: Result<IndividualList>)
      modifies newGeneration
      ensures r.Ok? <==> mu <= lambda && lambda - mu <= old(|newGeneration.members|)
      ensures lambda < mu ==> r == Failure(InvertedRange)
      ensures mu <= lambda && lambda - mu > old(|newGeneration.members|) ==> r == Failure(IndexOutOfBounds)
      ensures r.Ok? ==> r.value == newGeneration && |newGeneration.members| == old(|newGeneration.members|) - (lambda - mu)
      ensures r.Ok? ==> SortedByFitness(newGeneration.members)
      ensures r.Ok? ==> KeepsFittest(old(newGeneration.members), newGeneration.members)
      ensures r.Failure? ==> multiset(newGeneration.members) == multiset(old(newGeneration.members))
    {
      var population := newGeneration;
      r := SortAndClearWeakest(population, lambda - mu);
    }
  }

  /** Solver for multimodal problems: uniform initialisation, whole arithmetic
      recombination of couples, mutation with n step sizes, uniform parent
      selection and (mu, lambda) selection, all from the operator library. */
  class MultimodalSolver {
    const mu: nat
    const lambda: nat
    const sigma: real
    const eps0: real
    const tau1: real
    const tau2: real
    const breedings: nat       // children per mating pool
    const alpha: real          // weight of the first parent
    const matingPoolSize: nat := 2  // parents per family: whole arithmetic recombination blends couples
    const exp: real -> real

    constructor (mu: nat, lambda: nat, sigma: real, eps0: real, tau1: real, tau2: real, breedings: nat, alpha: real,
                 exp: real -> real)
      ensures this.mu == mu && this.lambda == lambda && this.sigma == sigma && this.eps0 == eps0
      ensures this.tau1 == tau1 && this.tau2 == tau2 && this.breedings == breedings && this.alpha == alpha
      ensures this.exp == exp
    {
      this.mu, this.lambda, this.sigma, this.eps0, this.tau1, this.tau2 := mu, lambda, sigma, eps0, tau1, tau2;
      this.breedings, this.alpha, this.exp := breedings, alpha, exp;
    }

    method Initialisation(random: Random) returns (population: IndividualList)
      modifies random
      ensures fresh(population) && |population.members| == mu && Distinct(population.members)
      ensures random.drawn == old(random.drawn) + mu * DIMENSIONS
      ensures forall i :: 0 <= i < mu ==>
        var ind := population.members[i];
        && fresh(ind) && fresh(ind.x) && fresh(ind.sigmas) && ind.Valid()
        && ind.fitness == 0.0 && ind.sigma == sigma && ind.sigmas[..] == Constant(DIMENSIONS, sigma)
        && forall j :: 0 <= j < DIMENSIONS ==>
             ind.x[j] == EAUtils.UniformGene(random.nextDoubleAt(old(random.drawn) + i * DIMENSIONS + j))
    {
      population := EAUtils.InitialisationUniformRandom(random, mu, sigma);
    }

    method Recombination(matingPool: seq<Individual>) returns (r: Result<seq<Individual>>)
      requires AllValid(matingPool)
      ensures r.Failure? <==> |matingPool| != 2
      ensures r.Failure? ==> r.error == InvalidNumberOfParents
      ensures r.Ok? ==> |r.value| == breedings && Distinct(r.value) && OwnArrays(r.value)
      ensures r.Ok? ==> forall i :: 0 <= i < breedings ==>
        var baby, father, mother := r.value[i], matingPool[0], matingPool[1];
        && fresh(baby) && fresh(baby.x) && fresh(baby.sigmas)
        && Born(baby, EAUtils.Blend(alpha, father.x[..], mother.x[..]),
                EAUtils.Blend(alpha, father.sigmas[..], mother.sigmas[..]),
                EAUtils.BlendValue(alpha, father.sigma, mother.sigma))
    {
      r := EAUtils.WholeArithmeticRecombination(matingPool, breedings, alpha);
    }

    method Mutation(random: Random, individual: Individual)
      requires individual.Valid()
      modifies random, individual.x, individual.sigmas
      ensures random.drawn == old(random.drawn) + 1 + 2 * DIMENSIONS
      ensures forall i :: 0 <= i < DIMENSIONS ==>
        EAUtils.DimensionMutated(individual.x[i], individual.sigmas[i], old(individual.x[i]), old(individual.sigmas[i]),
                                 tau1, random.nextGaussianAt(old(random.drawn)), tau2,
                                 random.nextGaussianAt(old(random.drawn) + 1 + 2 * i),
                                 random.nextGaussianAt(old(random.drawn) + 2 + 2 * i), eps0, exp)
      ensures individual.sigma == old(individual.sigma) && individual.fitness == old(individual.fitness)
      ensures forall i :: 0 <= i < DIMENSIONS ==> individual.sigmas[i] >= eps0
    {
      EAUtils.UncorrelatedMutationWithNStepSizes(random, individual, tau1, tau2, eps0, exp);
    }

    /** lambda / breedings couples drawn uniformly from the whole population. */
    method ParentSelection(random: Random, population: IndividualList) returns (r: Result<seq<seq<Individual>>>)
      modifies random
      ensures breedings == 0 ==> r == Failure(DivisionByZero) && random.drawn == old(random.drawn)
      ensures 0 < breedings ==> (r.Ok? <==> lambda / breedings == 0 || 0 < |population.members|)
      ensures 0 < breedings && r.Failure? ==> r.error == NonPositiveBound
      ensures r.Ok? ==> random.drawn == old(random.drawn) + lambda / breedings * matingPoolSize
      ensures r.Ok? ==> |r.value| == lambda / breedings && forall i :: 0 <= i < |r.value| ==> |r.value[i]| == matingPoolSize
      ensures r.Ok? ==> forall i, j :: 0 <= i < |r.value| && 0 <= j < matingPoolSize ==>
        r.value[i][j] == population.members[random.nextIntAt(old(random.drawn) + i * matingPoolSize + j,
                                                              |population.members|)]
    {
      if breedings == 0 {
        return Failure(DivisionByZero);
      }
      var numMatingPools := lambda / breedings;
      r := EAUtils.UniformParentSelection(random, population, numMatingPools, matingPoolSize);
    }

    method SurvivorSelection(oldGeneration: IndividualList, newGeneration: IndividualList)
      returns (r: Result<IndividualList>)
      modifies newGeneration
      ensures r.Ok? <==> old(|oldGeneration.members|) == mu && old(|newGeneration.members|) == lambda && mu <= lambda
      ensures r.Failure? ==> r.error == (if old(|oldGeneration.members|) != mu then OldGenerationSizeMismatch
                                         else if old(|newGeneration.members|) != lambda then NewGenerationSizeMismatch
                                         else InvertedRange)
      ensures r.Ok? ==> r.value == newGeneration && |newGeneration.members| == mu
      ensures r.Ok? ==> SortedByFitness(newGeneration.members)
      ensures r.Ok? ==> KeepsFittest(old(newGeneration.members), newGeneration.members)
    {
      r := EAUtils.MuLambdaSelection(oldGeneration, newGeneration, mu, lambda);
    }
  }

  /** Solver for unimodal problems: as the multimodal one but with one-step mutation. */
  class UnimodalSolver {
    const mu: nat
    const lambda: nat
    const sigma: real
    const eps0: real
    const tau: real
    const alpha: real
    const breedings: nat
    const matingPoolSize: nat := 2
    const exp: real -> real

    constructor (mu: nat, lambda: nat, sigma: real, eps0: real, tau: real, breedings: nat, alpha: real,
                 exp: real -> real)
      ensures this.mu == mu && this.lambda == lambda && this.sigma == sigma && this.eps0 == eps0 && this.tau == tau
      ensures this.breedings == breedings && this.alpha == alpha && this.exp == exp
    {
      this.mu, this.lambda, this.sigma, this.eps0, this.tau := mu, lambda, sigma, eps0, tau;
      this.breedings, this.alpha, this.exp := breedings, alpha, exp;
    }

    method Initialisation(random: Random) returns (population: IndividualList)
      modifies random
      ensures fresh(population) && |population.members| == mu && Distinct(population.members)
      ensures random.drawn == old(random.drawn) + mu * DIMENSIONS
      ensures forall i :: 0 <= i < mu ==>
        var ind := population.members[i];
        && fresh(ind) && fresh(ind.x) && fresh(ind.sigmas) && ind.Valid()
        && ind.fitness == 0.0 && ind.sigma == sigma && ind.sigmas[..] == Constant(DIMENSIONS, sigma)
        && forall j :: 0 <= j < DIMENSIONS ==>
             ind.x[j] == EAUtils.UniformGene(random.nextDoubleAt(old(random.drawn) + i * DIMENSIONS + j))
    {
      population := EAUtils.InitialisationUniformRandom(random, mu, sigma);
    }

    method Recombination(matingPool: seq<Individual>) returns (r: Result<seq<Individual>>)
      requires AllValid(matingPool)
      ensures r.Failure? <==> |matingPool| != 2
      ensures r.Failure? ==> r.error == InvalidNumberOfParents
      ensures r.Ok? ==> |r.value| == breedings && Distinct(r.value) && OwnArrays(r.value)
      ensures r.Ok? ==> forall i :: 0 <= i < breedings ==>
        var baby, father, mother := r.value[i], matingPool[0], matingPool[1];
        && fresh(baby) && fresh(baby.x) && fresh(baby.sigmas)
        && Born(baby, EAUtils.Blend(alpha, father.x[..], mother.x[..]),
                EAUtils.Blend(alpha, father.sigmas[..], mother.sigmas[..]),
                EAUtils.BlendValue(alpha, father.sigma, mother.sigma))
    {
      r := EAUtils.WholeArithmeticRecombination(matingPool, breedings, alpha);
    }

    method Mutation(random: Random, individual: Individual)
      requires individual.Valid()
      modifies random, individual, individual.x
      ensures random.drawn == old(random.drawn) + 1 + DIMENSIONS
      ensures individual.sigma == EAUtils.OneStepSize(old(individual.sigma), tau, random.nextGaussianAt(old(random.drawn)),
                                                      eps0, exp)
      ensures individual.sigma >= eps0
      ensures forall i :: 0 <= i < DIMENSIONS ==>
        individual.x[i] == EAUtils.Perturbed(old(individual.x[i]), individual.sigma, random.nextGaussianAt(old(random.drawn) + 1 + i))
      ensures individual.sigmas[..] == old(individual.sigmas[..]) && individual.fitness == old(individual.fitness)
    {
      EAUtils.UncorrelatedMutationWithOneStepSize(random, individual, tau, eps0, exp);
    }

    method ParentSelection(random: Random, population: IndividualList) returns (r: Result<seq<seq<Individual>>>)
      modifies random
      ensures breedings == 0 ==> r == Failure(DivisionByZero) && random.drawn == old(random.drawn)
      ensures 0 < breedings ==> (r.Ok? <==> lambda / breedings == 0 || 0 < |population.members|)
      ensures 0 < breedings && r.Failure? ==> r.error == NonPositiveBound
      ensures r.Ok? ==> random.drawn == old(random.drawn) + lambda / breedings * matingPoolSize
      ensures r.Ok? ==> |r.value| == lambda / breedings && forall i :: 0 <= i < |r.value| ==> |r.value[i]| == matingPoolSize
      ensures r.Ok? ==> forall i, j :: 0 <= i < |r.value| && 0 <= j < matingPoolSize ==>
        r.value[i][j] == population.members[random.nextIntAt(old(random.drawn) + i * matingPoolSize + j,
                                                              |population.members|)]
    {
      if breedings == 0 {
        return Failure(DivisionByZero);
      }
      var numMatingPools := lambda / breedings;
      r := EAUtils.UniformParentSelection(random, population, numMatingPools, matingPoolSize);
    }

    method SurvivorSelection(oldGeneration: IndividualList, newGeneration: IndividualList)
      returns (r: Result<IndividualList>)
      modifies newGeneration
      ensures r.Ok? <==> old(|oldGeneration.members|) == mu && old(|newGeneration.members|) == lambda && mu <= lambda
      ensures r.Failure? ==> r.error == (if old(|oldGeneration.members|) != mu then OldGenerationSizeMismatch
                                         else if old(|newGeneration.members|) != lambda then NewGenerationSizeMismatch
                                         else InvertedRange)
      ensures r.Ok? ==> r.value == newGeneration && |newGeneration.members| == mu
      ensures r.Ok? ==> SortedByFitness(newGeneration.members)
      ensures r.Ok? ==> KeepsFittest(old(newGeneration.members), newGeneration.members)
    {
      r := EAUtils.MuLambdaSelection(oldGeneration, newGeneration, mu, lambda);
    }
  }
}
