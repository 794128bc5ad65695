/** The EvolutionaryAlgorithm interface (model/EvolutionaryAlgorithm.java): the
    contest entry calls its five operations without knowing which strategy it
    runs. Here the choice is a datatype over the four strategies, each operation
    dispatches on it, and the contracts state what every strategy guarantees.
    Also the fixed choice made by implementation/Bootstrap.java. */
module Algorithms {
  import opened Space
  import opened RealSeqs
  import opened Wrappers
  import opened Randomness
  import opened Individuals
  import EAUtils
  import Ops = StrategyOperators
  import opened Implementation

  /** The square root of the math library: positive on positive arguments. */
  type SquareRoot = f: real -> real | forall r: real :: 0.0 < r ==> 0.0 < f(r)
    witness (r: real) => 1.0

  datatype EvolutionaryAlgorithm =
    | Intermediate(es: EvolutionairyStrategies)
    | Classic(cs: EvolutionaryStrategies)
    | Multimodal(multimodal: MultimodalSolver)
    | Unimodal(unimodal: UnimodalSolver)
  {
    /** Population size. */
    function Mu(): nat
    {
      match this
      case Intermediate(a) => a.mu
      case Classic(a) => a.mu
      case Multimodal(a) => a.mu
      case Unimodal(a) => a.mu
    }

    /** Children per generation as configured. */
    function Lambda(): nat
    {
      match this
      case Intermediate(a) => a.lambda
      case Classic(a) => a.lambda
      case Multimodal(a) => a.lambda
      case Unimodal(a) => a.lambda
    }

    /** Children per mating pool (the divisor of lambda in parent selection). */
    function PerPool(): nat
    {
      match this
      case Intermediate(a) => a.numChildren
      case Classic(a) => a.offspring
      case Multimodal(a) => a.breedings
      case Unimodal(a) => a.breedings
    }

    /** Parents per mating pool. */
    function PoolSize(): nat
    {
      match this
      case Intermediate(a) => a.matingPoolSize
      case Classic(a) => a.matingPoolSize
      case Multimodal(a) => a.matingPoolSize
      case Unimodal(a) => a.matingPoolSize
    }

    /** Mating pools per generation: lambda / PerPool() (no pools when the division throws). */
    function PoolCount(): nat
    {
      if PerPool() == 0 then 0 else Lambda() / PerPool()
    }

    /** Children recombining this many pools produces. */
    function ChildrenOf(pools: nat): nat
    {
      pools * PerPool()
    }

    /** Lower bound epsilon0 of the step sizes. */
    function Eps0(): real
    {
      match this
      case Intermediate(a) => a.eps0
      case Classic(a) => a.eps0
      case Multimodal(a) => a.eps0
      case Unimodal(a) => a.eps0
    }

    /** Gaussian draws one mutation takes: the shared draw plus one per dimension
        for a single step size; with n step sizes, two per dimension. */
    function MutationDraws(): nat
    {
      if Multimodal? then 1 + 2 * DIMENSIONS else 1 + DIMENSIONS
    }

    /** Gaussian draws mutating this many children takes. */
    function MutationDrawsFor(children: nat): nat
    {
      children * MutationDraws()
    }

    /** The step sizes this strategy mutates are at least epsilon0: every entry of
        sigmas with n step sizes, the single sigma otherwise. */
    ghost predicate StepSizesAtLeastEps0(individual: Individual)
      reads individual, individual.sigmas
    {
      if Multimodal? then forall k :: 0 <= k < individual.sigmas.Length ==> individual.sigmas[k] >= Eps0()
      else individual.sigma >= Eps0()
    }

    /** Children one generation produces when nothing throws. */
    function GenerationSize(): nat
    {
      ChildrenOf(PoolCount())
    }

    /** Whether survivor selection succeeds for these list sizes. */
    predicate SurvivorSelectionSucceeds(parents: nat, children: nat)
    {
      match this
      case Intermediate(_) => parents <= children
      case Classic(a) => a.mu <= a.lambda && a.lambda - a.mu <= children
      case Multimodal(a) => parents == a.mu && children == a.lambda && a.mu <= a.lambda
      case Unimodal(a) => parents == a.mu && children == a.lambda && a.mu <= a.lambda
    }

    /** How many children survive when survivor selection succeeds. */
    function SurvivorCount(parents: nat, children: nat): int
    {
      match this
      case Intermediate(_) => parents
      case Classic(a) => children - (a.lambda - a.mu)
      case Multimodal(a) => a.mu
      case Unimodal(a) => a.mu
    }

    /** The pieces fit: no operation throws on populations of Mu() members,
        every generation produces children and Mu() of them survive. */
    predicate Steady()
    {
      && 0 < PerPool() && 0 < Mu() && 0 < GenerationSize()
      && SurvivorSelectionSucceeds(Mu(), GenerationSize()) && SurvivorCount(Mu(), GenerationSize()) == Mu()
    }

    method Initialisation(random: Random) returns (population: IndividualList)
      modifies random
      ensures fresh(population) && |population.members| == Mu() && Distinct(population.members)
      ensures forall i :: 0 <= i < |population.members| ==>
        var ind := population.members[i];
        fresh(ind) && fresh(ind.x) && fresh(ind.sigmas) && ind.Valid() && ind.fitness == 0.0
      ensures forall i, j :: 0 <= i < |population.members| && 0 <= j < population.members[i].x.Length ==>
        LOWER_BOUND <= population.members[i].x[j] < UPPER_BOUND
    {
      match this
      case Intermediate(a) =>
        population := a.Initialisation(random);
        SeededPopulationInSpace(population.members, random, old(random.drawn), a.sigma);
      case Classic(a) =>
        population := a.Initialisation(random);
        SeededPopulationInSpace(population.members, random, old(random.drawn), a.sigma);
      case Multimodal(a) =>
        population := a.Initialisation(random);
      case Unimodal(a) =>
        population := a.Initialisation(random);
    }

    method ParentSelection(random: Random, population: IndividualList) returns (r: Result<seq<seq<Individual>>>)
      modifies random
      ensures PerPool() == 0 ==> r == Failure(DivisionByZero)
      ensures 0 < PerPool() && 0 < Mu() <= |population.members| ==> r.Ok?
      ensures r.Failure? ==> r.error in {DivisionByZero, NonPositiveBound, IndexOutOfBounds}
      ensures r.Ok? ==> |r.value| == PoolCount() && forall i :: 0 <= i < |r.value| ==> |r.value[i]| == PoolSize()
      ensures r.Ok? ==> forall i, j :: 0 <= i < |r.value| && 0 <= j < |r.value[i]| ==> r.value[i][j] in population.members
    {
      match this
      case Intermediate(a) =>
        r := a.ParentSelection(random, population);
      case Classic(a) =>
        r := a.ParentSelection(random, population);
      case Multimodal(a) =>
        r := a.ParentSelection(random, population);
      case Unimodal(a) =>
        r := a.ParentSelection(random, population);
    }

    method Recombination(matingPool: seq<Individual>) returns (r: Result<seq<Individual>>)
      requires AllValid(matingPool)
      ensures |matingPool| == PoolSize() ==> r.Ok?
      ensures r.Ok? ==> |r.value| == PerPool() && Distinct(r.value) && OwnArrays(r.value)
      ensures r.Ok? ==> forall i :: 0 <= i < |r.value| ==>
        var child := r.value[i];
        fresh(child) && fresh(child.x) && fresh(child.sigmas) && child.Valid() && child.fitness == 0.0
    {
      match this
      case Intermediate(a) =>
        var children := a.Recombination(matingPool);
        r := Ok(children);
      case Classic(a) =>
        var children := a.Recombination(matingPool);
        r := Ok(children);
      case Multimodal(a) =>
        r := a.Recombination(matingPool);
      case Unimodal(a) =>
        r := a.Recombination(matingPool);
    }

    method Mutation(random: Random, individual: Individual)
      requires individual.Valid()
      modifies random, individual, individual.x, individual.sigmas
      ensures random.drawn == old(random.drawn) + MutationDraws()
      ensures individual.fitness == old(individual.fitness)
      ensures StepSizesAtLeastEps0(individual)
      ensures Multimodal? ==> individual.sigma == old(individual.sigma)
      ensures !Multimodal? ==> individual.sigmas[..] == old(individual.sigmas[..])
    {
      match this
      case Intermediate(a) => a.Mutation(random, individual);
      case Classic(a) => a.Mutation(random, individual);
      case Multimodal(a) => a.Mutation(random, individual);
      case Unimodal(a) => a.Mutation(random, individual);
    }

    method SurvivorSelection(oldGeneration: IndividualList, newGeneration: IndividualList)
      returns (r: Result<IndividualList>)
      modifies newGeneration
      ensures r.Ok? <==> SurvivorSelectionSucceeds(old(|oldGeneration.members|), old(|newGeneration.members|))
      ensures r.Failure? ==>
        r.error in {OldGenerationSizeMismatch, NewGenerationSizeMismatch, InvertedRange, IndexOutOfBounds}
      ensures r.Ok? ==> r.value == newGeneration
      ensures r.Ok? ==> |newGeneration.members| == SurvivorCount(old(|oldGeneration.members|), old(|newGeneration.members|))
      ensures r.Ok? ==> SortedByFitness(newGeneration.members)
      ensures r.Ok? ==> KeepsFittest(old(newGeneration.members), newGeneration.members)
    {
      match this
      case Intermediate(a) => r := a.SurvivorSelection(oldGeneration, newGeneration);
      case Classic(a) => r := a.SurvivorSelection(oldGeneration, newGeneration);
      case Multimodal(a) => r := a.SurvivorSelection(oldGeneration, newGeneration);
      case Unimodal(a) => r := a.SurvivorSelection(oldGeneration, newGeneration);
    }
  }

  /** Every member of a seeded population lies in the search space. */
  lemma SeededPopulationInSpace(members: seq<Individual>, random: Random, start: nat, sigma: real)
    requires forall i :: 0 <= i < |members| ==> Ops.Seeded(members[i], random, start + i * DIMENSIONS, sigma)
    ensures forall i, j :: 0 <= i < |members| && 0 <= j < members[i].x.Length ==> LOWER_BOUND <= members[i].x[j] < UPPER_BOUND
  {
    forall i | 0 <= i < |members|
      ensures forall j :: 0 <= j < members[i].x.Length ==> LOWER_BOUND <= members[i].x[j] < UPPER_BOUND
    {
      Ops.SeededInSpace(members[i], random, start + i * DIMENSIONS, sigma);
    }
  }

  /** A generation's children never exceed lambda, and they equal lambda exactly
      when the children per pool divide it. */
  lemma GenerationSizeAgainstLambda(algorithm: EvolutionaryAlgorithm)
    requires 0 < algorithm.PerPool()
    ensures algorithm.GenerationSize() <= algorithm.Lambda()
    ensures algorithm.GenerationSize() == algorithm.Lambda() <==> algorithm.Lambda() % algorithm.PerPool() == 0
  {
    var lambda, b := algorithm.Lambda(), algorithm.PerPool();
    assert lambda == lambda / b * b + lambda % b;
  }

  /** The choice of implementation/Bootstrap.java: whatever the problem's
      properties, the intermediate evolution strategy with mu = 100,
      lambda = 400, sigma = 1, eps0 = 0.00001, tau = 1 / sqrt(DIMENSIONS),
      couples and one child per couple. */
  method ChooseEvolutionaryAlgorithm(random: Random, isMultimodal: bool, hasStructure: bool, isSeparable: bool,
                                     evaluationLimit: int, sqrt: SquareRoot, exp: real -> real)
    returns (algorithm: EvolutionaryAlgorithm)
    ensures algorithm.Intermediate? && fresh(algorithm.es)
    ensures algorithm.Mu() == 100 && algorithm.Lambda() == 400 && algorithm.PoolSize() == 2 && algorithm.PerPool() == 1
    ensures algorithm.es.sigma == 1.0 && algorithm.es.eps0 == 0.00001 && algorithm.es.exp == exp
    ensures algorithm.es.tau == 1.0 / sqrt(DIMENSIONS as real) && 0.0 < algorithm.es.tau
  {
    var root := sqrt(DIMENSIONS as real);
    assert 0.0 < root;
    var es := new EvolutionairyStrategies(100, 400, 1.0, 0.00001, 1.0 / root, 2, 1, exp);
    algorithm := Intermediate(es);
  }

  /** The bootstrap configuration makes 400 children a generation and keeps 100. */
  lemma BootstrapGeneration(algorithm: EvolutionaryAlgorithm)
    requires algorithm.Intermediate? && algorithm.Mu() == 100 && algorithm.Lambda() == 400 && algorithm.PerPool() == 1
    ensures algorithm.PoolCount() == 400 && algorithm.GenerationSize() == 400
    ensures algorithm.SurvivorSelectionSucceeds(100, 400) && algorithm.SurvivorCount(100, 400) == 100
    ensures algorithm.Steady()
  {
  }
}
