/** The contest entry (player10.java): it picks an algorithm, evaluates the
    initial population and then runs generations until the evaluation budget
    is spent. */
module Player {
  import opened Wrappers
  import opened Randomness
  import opened Individuals
  import opened Contest
  import opened Algorithms

  /** How a run ends: normally, with an exception, or in a generation that
      evaluates nothing, after which the Java loop would repeat forever with an
      unchanged counter. Each carries the evaluations made. */
  datatype Outcome =
    | Finished(evaluations: nat)
    | Raised(error: Error, evaluations: nat)
    | Stalled(evaluations: nat)

  function Max(a: int, b: int): int
  {
    if a < b then b else a
  }

  /** The first n individuals were scored by the calls start, start + 1, ...,
      none of those answers was null, and each answer is the fitness. */
  ghost predicate Scored(evaluation: ContestEvaluation, start: nat, individuals: seq<Individual>, n: int)
    reads individuals, set c | c in individuals :: c.x
  {
    forall i :: 0 <= i < n && i < |individuals| ==>
      var answer := evaluation.score(start + i, individuals[i].x[..]);
      answer.Some? && individuals[i].fitness == answer.value
  }

  /** The n-th call, made for the n-th individual, answered null. */
  ghost predicate NullAt(evaluation: ContestEvaluation, start: nat, individuals: seq<Individual>, n: int)
    reads individuals, set c | c in individuals :: c.x
  {
    0 < n <= |individuals| && evaluation.score(start + n - 1, individuals[n - 1].x[..]).None?
  }

  /** Evaluates the individuals in order, storing each score as the fitness,
      and stops at the first null answer (that call is counted too). complete
      says that no answer was null. */
  method EvaluateInOrder(evaluation: ContestEvaluation, individuals: seq<Individual>)
    returns (evaluated: nat, complete: bool)
    requires Distinct(individuals)
    modifies evaluation, set i | i in individuals
    ensures evaluated <= |individuals| && evaluation.calls == old(evaluation.calls) + evaluated
    ensures complete ==> evaluated == |individuals|
    ensures !complete ==> NullAt(evaluation, old(evaluation.calls), individuals, evaluated)
    ensures Scored(evaluation, old(evaluation.calls), individuals, if complete then evaluated else evaluated - 1)
    ensures forall i :: 0 <= i < |individuals| && (if complete then evaluated else evaluated - 1) <= i ==>
      individuals[i].fitness == old(individuals[i].fitness)
    ensures forall i :: 0 <= i < |individuals| ==> individuals[i].sigma == old(individuals[i].sigma)
  {
    evaluated, complete := 0, true;
    while evaluated < |individuals|
      invariant evaluated <= |individuals| && evaluation.calls == old(evaluation.calls) + evaluated
      invariant forall i :: 0 <= i < evaluated ==>
        var s := evaluation.score(old(evaluation.calls) + i, individuals[i].x[..]);
        s.Some? && individuals[i].fitness == s.value
      invariant forall i :: evaluated <= i < |individuals| ==> individuals[i].fitness == old(individuals[i].fitness)
      invariant forall i :: 0 <= i < |individuals| ==> individuals[i].sigma == old(individuals[i].sigma)
    {
      var child := individuals[evaluated];
      var genotype := child.GetGenotype();
      var fitness := evaluation.Evaluate(genotype);
      evaluated := evaluated + 1;
      if fitness.None? {
        complete := false;
        return;
      }
      child.fitness := fitness.value;
    }
  }

  /** One generation's children: parent selection, recombination of every pool
      (concatenated in pool order) and mutation of every child. */
  method Breed(algorithm: EvolutionaryAlgorithm, random: Random, population: IndividualList)
    returns (r: Result<IndividualList>)
    requires AllValid(population.members)
    modifies random
    ensures algorithm.PerPool() == 0 ==> r == Failure(DivisionByZero)
    ensures 0 < algorithm.PerPool() && 0 < algorithm.Mu() <= |population.members| ==> r.Ok?
    ensures r.Failure? ==> r.error in {DivisionByZero, NonPositiveBound, IndexOutOfBounds}
    ensures r.Ok? ==> fresh(r.value) && |r.value.members| == algorithm.GenerationSize() && Distinct(r.value.members)
    ensures r.Ok? ==> forall i :: 0 <= i < |r.value.members| ==>
      var child := r.value.members[i];
      fresh(child) && child.Valid() && child.fitness == 0.0 && algorithm.StepSizesAtLeastEps0(child)
  {
    var selection := algorithm.ParentSelection(random, population);
    if selection.Failure? {
      return Failure(selection.error);
    }
    var pools := selection.value;
    forall p | 0 <= p < |pools| ensures AllValid(pools[p]) {
      forall j | 0 <= j < |pools[p]| ensures pools[p][j].Valid() {
        assert pools[p][j] in population.members;
      }
    }
    var children := RecombineAll(algorithm, pools);
    MutateAll(algorithm, random, children.members);
    r := Ok(children);
  }

  /** The recombination loop: the children of every pool, concatenated in pool order. */
  method RecombineAll(algorithm: EvolutionaryAlgorithm, pools: seq<seq<Individual>>) returns (children: IndividualList)
    requires forall p :: 0 <= p < |pools| ==> |pools[p]| == algorithm.PoolSize() && AllValid(pools[p])
    ensures fresh(children) && |children.members| == algorithm.ChildrenOf(|pools|) && Distinct(children.members)
    ensures OwnArrays(children.members)
    ensures forall i :: 0 <= i < |children.members| ==>
      var child := children.members[i];
      fresh(child) && fresh(child.x) && fresh(child.sigmas) && child.Valid() && child.fitness == 0.0
  {
    children := new IndividualList([]);
    for p := 0 to |pools|
      invariant |children.members| == algorithm.ChildrenOf(p) && Distinct(children.members)
      invariant OwnArrays(children.members)
      invariant forall i :: 0 <= i < |children.members| ==>
        var child := children.members[i];
        fresh(child) && fresh(child.x) && fresh(child.sigmas) && child.Valid() && child.fitness == 0.0
    {
      var recombined := algorithm.Recombination(pools[p]);
      assert recombined.Ok?;
      OwnArraysConcat(children.members, recombined.value);
      children.members := children.members + recombined.value;
    }
  }

  /** The mutation loop: every child mutated in list order, each taking the
      strategy's number of Gaussian draws; afterwards every child's step sizes
      are at least epsilon0, and the fitness values stay. */
  method MutateAll(algorithm: EvolutionaryAlgorithm, random: Random, offspring: seq<Individual>)
    requires AllValid(offspring) && OwnArrays(offspring)
    modifies random, set c | c in offspring, set c | c in offspring :: c.x, set c | c in offspring :: c.sigmas
    ensures random.drawn == old(random.drawn) + algorithm.MutationDrawsFor(|offspring|)
    ensures forall i :: 0 <= i < |offspring| ==> offspring[i].fitness == old(offspring[i].fitness)
    ensures forall i :: 0 <= i < |offspring| ==> algorithm.StepSizesAtLeastEps0(offspring[i])
  {
    for c := 0 to |offspring|
      invariant random.drawn == old(random.drawn) + algorithm.MutationDrawsFor(c)
      invariant forall i :: 0 <= i < |offspring| ==> offspring[i].fitness == old(offspring[i].fitness)
      invariant forall i :: 0 <= i < c ==> algorithm.StepSizesAtLeastEps0(offspring[i])
    {
      algorithm.Mutation(random, offspring[c]);
      assert algorithm.MutationDrawsFor(c + 1) == algorithm.MutationDrawsFor(c) + algorithm.MutationDraws();
    }
  }

  /** One generation after the initial evaluation: breed the children, evaluate
      them in order until a null answer, then let survivor selection pick the
      next population from the children. generation is the list of children bred. */
  method NextGeneration(algorithm: EvolutionaryAlgorithm, random: Random, evaluation: ContestEvaluation,
                        population: IndividualList)
    returns (r: Result<IndividualList>, evaluated: nat, ghost generation: seq<Individual>, ghost complete: bool)
    requires AllValid(population.members)
    modifies random, evaluation
    ensures evaluation.calls == old(evaluation.calls) + evaluated && evaluated <= algorithm.GenerationSize()
    ensures complete ==> evaluated == |generation|
    ensures !complete ==> NullAt(evaluation, old(evaluation.calls), generation, evaluated)
    ensures Scored(evaluation, old(evaluation.calls), generation, if complete then evaluated else evaluated - 1)
    ensures forall i :: (if complete then evaluated else evaluated - 1) <= i < |generation| ==> generation[i].fitness == 0.0
    ensures r.Failure? ==> r.error !in {InvalidNumberOfParents, NullFitness}
    ensures r.Ok? && evaluated == 0 ==> algorithm.GenerationSize() == 0
    ensures r.Ok? ==> fresh(r.value) && AllValid(r.value.members) && forall m :: m in r.value.members ==> fresh(m)
    ensures r.Ok? ==> |r.value.members| == algorithm.SurvivorCount(|population.members|, algorithm.GenerationSize())
    ensures r.Ok? ==> SortedByFitness(r.value.members)
    ensures r.Ok? ==> |generation| == algorithm.GenerationSize() && forall c :: c in generation ==> fresh(c)
    ensures r.Ok? ==> KeepsFittest(generation, r.value.members)
    ensures algorithm.Steady() && |population.members| == algorithm.Mu() ==> r.Ok?
  {
    var bred := Breed(algorithm, random, population);
    if bred.Failure? {
      return Failure(bred.error), 0, [], true;
    }
    var children := bred.value;
    generation := children.members;
    r, evaluated, complete := EvaluateAndSelect(algorithm, evaluation, population, children);
  }

  /** The second half of a generation: evaluate the children in order until a
      null answer, then let survivor selection pick the next population from them. */
  method EvaluateAndSelect(algorithm: EvolutionaryAlgorithm, evaluation: ContestEvaluation, population: IndividualList,
                           children: IndividualList)
    returns (r: Result<IndividualList>, evaluated: nat, ghost complete: bool)
    requires population != children && Distinct(children.members) && AllValid(children.members)
    modifies evaluation, children, set c | c in children.members
    ensures evaluation.calls == old(evaluation.calls) + evaluated && evaluated <= old(|children.members|)
    ensures complete ==> evaluated == old(|children.members|)
    ensures !complete ==> NullAt(evaluation, old(evaluation.calls), old(children.members), evaluated)
    ensures Scored(evaluation, old(evaluation.calls), old(children.members), if complete then evaluated else evaluated - 1)
    ensures forall i :: (if complete then evaluated else evaluated - 1) <= i < old(|children.members|) ==>
      old(children.members)[i].fitness == old(children.members[i].fitness)
    ensures r.Failure? ==> r.error !in {InvalidNumberOfParents, NullFitness}
    ensures r.Ok? && evaluated == 0 ==> old(|children.members|) == 0
    ensures r.Ok? <==> algorithm.SurvivorSelectionSucceeds(|population.members|, old(|children.members|))
    ensures r.Ok? ==> r.value == children && AllValid(children.members)
    ensures r.Ok? ==> forall m :: m in children.members ==> m in old(children.members)
    ensures r.Ok? ==> |children.members| == algorithm.SurvivorCount(|population.members|, old(|children.members|))
    ensures r.Ok? ==> SortedByFitness(children.members)
    ensures r.Ok? ==> KeepsFittest(old(children.members), children.members)
  {
    ghost var offspring := children.members;
    var done;
    evaluated, done := EvaluateInOrder(evaluation, children.members);
    complete := done;
    r := algorithm.SurvivorSelection(population, children);
    if r.Ok? {
      SurvivorsWereMembers(offspring, children.members);
    }
  }

  /** The list is what survivor selection kept of a generation's children:
      ascending by fitness, and none of the dropped children is fitter than a
      kept one. */
  ghost predicate SelectedFrom(list: IndividualList, generation: seq<Individual>)
    reads list, list.members, generation
  {
    SortedByFitness(list.members) && KeepsFittest(generation, list.members)
  }

  /** Whatever survives a selection was in the list before. */
  lemma SurvivorsWereMembers(before: seq<Individual>, after: seq<Individual>)
    requires KeepsFittest(before, after)
    ensures forall m :: m in after ==> m in before
  {
    forall m | m in after ensures m in before {
      assert m in multiset(after);
    }
  }

  class Player10 {
    var random: Random?
    var evaluation: ContestEvaluation?
    var evaluationLimit: int
    var isMultimodal: bool
    var hasStructure: bool
    var isSeparable: bool
    var population: IndividualList?
    var evolutionaryAlgorithm: Option<EvolutionaryAlgorithm>
    /** The math library. */
    const sqrt: SquareRoot
    const exp: real -> real

    constructor (sqrt: SquareRoot, exp: real -> real)
      ensures this.sqrt == sqrt && this.exp == exp
      ensures random == null && evaluation == null && population == null && evolutionaryAlgorithm == None
      ensures evaluationLimit == 0 && !isMultimodal && !hasStructure && !isSeparable
    {
      this.sqrt, this.exp := sqrt, exp;
      random, evaluation, population, evolutionaryAlgorithm := null, null, null, None;
      evaluationLimit, isMultimodal, hasStructure, isSeparable := 0, false, false, false;
    }

    /** The random stream (its construction from a seed is not modelled). */
    method SetSeed(random: Random)
      modifies this
      ensures this.random == random
      ensures evaluation == old(evaluation) && evaluationLimit == old(evaluationLimit)
      ensures population == old(population) && evolutionaryAlgorithm == old(evolutionaryAlgorithm)
      ensures isMultimodal == old(isMultimodal) && hasStructure == old(hasStructure) && isSeparable == old(isSeparable)
    {
      this.random := random;
    }

    /** The evaluation service and the properties it publishes, already parsed. */
    method SetEvaluation(evaluation: ContestEvaluation, evaluationLimit: int, isMultimodal: bool, hasStructure: bool,
                         isSeparable: bool)
      modifies this
      ensures this.evaluation == evaluation && this.evaluationLimit == evaluationLimit
      ensures this.isMultimodal == isMultimodal && this.hasStructure == hasStructure && this.isSeparable == isSeparable
      ensures random == old(random) && population == old(population)
      ensures evolutionaryAlgorithm == old(evolutionaryAlgorithm)
    {
      this.evaluation, this.evaluationLimit := evaluation, evaluationLimit;
      this.isMultimodal, this.hasStructure, this.isSeparable := isMultimodal, hasStructure, isSeparable;
    }

    /** The run with the algorithm the bootstrap chooses: it never stalls and only
        a null score for one of the 100 initial individuals makes it throw;
        otherwise it spends the budget and overshoots it by less than one
        generation of 400 children. */
    method Run() returns (outcome: Outcome, ghost initial: seq<Individual>, ghost last: seq<Individual>)
      requires random != null && evaluation != null
      modifies this, random, evaluation
      ensures random == old(random) && evaluation == old(evaluation) && evaluationLimit == old(evaluationLimit)
      ensures |initial| == 100
      ensures outcome.Raised? && outcome.error == NullFitness ==>
        && NullAt(evaluation, old(evaluation.calls), initial, outcome.evaluations)
        && Scored(evaluation, old(evaluation.calls), initial, outcome.evaluations - 1)
      ensures !(outcome.Raised? && outcome.error == NullFitness) ==>
        Scored(evaluation, old(evaluation.calls), initial, |initial|)
      ensures evaluation.calls == old(evaluation.calls) + outcome.evaluations
      ensures outcome.Finished? || (outcome.Raised? && outcome.error == NullFitness && outcome.evaluations <= 100)
      ensures outcome.Finished? ==> evaluationLimit <= outcome.evaluations <= Max(100, evaluationLimit + 399)
      ensures evolutionaryAlgorithm.Some? && evolutionaryAlgorithm.value.Intermediate?
      ensures outcome.Finished? && outcome.evaluations == 100 ==> population != null && population.members == initial
      ensures outcome.Finished? && 100 < outcome.evaluations ==>
        && population != null && fresh(population) && |population.members| == 100 && SelectedFrom(population, last)
        && |last| == 400 && forall c :: c in last ==> fresh(c)
    {
      var algorithm := ChooseEvolutionaryAlgorithm(random, isMultimodal, hasStructure, isSeparable, evaluationLimit,
                                                   sqrt, exp);
      evolutionaryAlgorithm := Some(algorithm);
      BootstrapGeneration(algorithm);
      outcome, initial, last := Evolve(algorithm);
    }

    /** Initial evaluation and the generational loop for a given algorithm. The
        loop runs while fewer evaluations than the limit were made, so a run
        that finishes has spent the budget, with less than one generation in
        excess; a null score ends the initial evaluation with an exception (and
        only a null score does) but only cuts a generation's evaluation short;
        the population is replaced by each survivor selection. initial is the
        initial population, last the children of the last generation bred. */
    method Evolve(algorithm: EvolutionaryAlgorithm)
      returns (outcome: Outcome, ghost initial: seq<Individual>, ghost last: seq<Individual>)
      requires random != null && evaluation != null
      modifies this, random, evaluation
      ensures random == old(random) && evaluation == old(evaluation) && evaluationLimit == old(evaluationLimit)
      ensures |initial| == algorithm.Mu()
      ensures outcome.Raised? && outcome.error == NullFitness ==>
        && NullAt(evaluation, old(evaluation.calls), initial, outcome.evaluations)
        && Scored(evaluation, old(evaluation.calls), initial, outcome.evaluations - 1)
      ensures !(outcome.Raised? && outcome.error == NullFitness) ==>
        Scored(evaluation, old(evaluation.calls), initial, |initial|)
      ensures outcome.Finished? && outcome.evaluations == algorithm.Mu() ==>
        population != null && population.members == initial
      ensures outcome.Stalled? || (outcome.Finished? && algorithm.Mu() < outcome.evaluations) ==>
        && population != null && fresh(population) && SelectedFrom(population, last)
        && |last| == algorithm.GenerationSize() && forall c :: c in last ==> fresh(c)
      ensures evolutionaryAlgorithm == old(evolutionaryAlgorithm)
      ensures evaluation.calls == old(evaluation.calls) + outcome.evaluations
      ensures outcome.Finished? ==>
        evaluationLimit <= outcome.evaluations <= Max(algorithm.Mu(), evaluationLimit - 1 + algorithm.GenerationSize())
      ensures outcome.Stalled? ==> algorithm.GenerationSize() == 0 && outcome.evaluations < evaluationLimit
      ensures outcome.Raised? ==> outcome.error != InvalidNumberOfParents
      ensures outcome.Raised? && outcome.error == NullFitness ==> outcome.evaluations <= algorithm.Mu()
      ensures algorithm.Steady() ==>
        outcome.Finished? || (outcome.Raised? && outcome.error == NullFitness)
      ensures algorithm.Steady() && outcome.Finished? ==>
        population != null && |population.members| == algorithm.Mu()
    {
      var random, evaluation := this.random, this.evaluation;
      var current := algorithm.Initialisation(random);
      population := current;
      initial := current.members;
      var evaluationCount: nat;
      var complete;
      evaluationCount, complete := EvaluateInOrder(evaluation, current.members);
      if !complete {
        return Raised(NullFitness, evaluationCount), initial, [];
      }
      outcome, last := Generations(algorithm, current, evaluationCount);
    }

    /** One generation of the loop: NextGeneration on the current population,
        whose survivor list, when there is one, becomes the population. */
    method AdvanceGeneration(algorithm: EvolutionaryAlgorithm, current: IndividualList)
      returns (next: Result<IndividualList>, evaluated: nat, ghost generation: seq<Individual>)
      requires random != null && evaluation != null && AllValid(current.members)
      modifies this, random, evaluation
      ensures random == old(random) && evaluation == old(evaluation) && evaluationLimit == old(evaluationLimit)
      ensures evolutionaryAlgorithm == old(evolutionaryAlgorithm)
      ensures evaluation.calls == old(evaluation.calls) + evaluated && evaluated <= algorithm.GenerationSize()
      ensures next.Failure? ==> next.error !in {InvalidNumberOfParents, NullFitness}
      ensures next.Ok? && evaluated == 0 ==> algorithm.GenerationSize() == 0
      ensures next.Ok? ==>
        && population == next.value && fresh(next.value) && AllValid(next.value.members)
        && SelectedFrom(next.value, generation)
        && |generation| == algorithm.GenerationSize() && forall c :: c in generation ==> fresh(c)
      ensures next.Ok? ==> |next.value.members| == algorithm.SurvivorCount(|current.members|, algorithm.GenerationSize())
      ensures algorithm.Steady() && |current.members| == algorithm.Mu() ==> next.Ok?
    {
      ghost var complete;
      next, evaluated, generation, complete := NextGeneration(algorithm, random, evaluation, current);
      if next.Ok? {
        population := next.value;
      }
    }

    /** The generational loop after a complete initial evaluation that made
        `spent` calls: generations run while fewer evaluations than the
        limit were made; a failing generation throws, one that evaluates nothing
        stalls, and the population is replaced by each survivor selection. last
        is the list of children of the last generation bred. */
    method Generations(algorithm: EvolutionaryAlgorithm, firstPopulation: IndividualList, spent: nat)
      returns (outcome: Outcome, ghost last: seq<Individual>)
      requires random != null && evaluation != null && population == firstPopulation
      requires AllValid(firstPopulation.members)
      requires spent <= Max(algorithm.Mu(), evaluationLimit - 1 + algorithm.GenerationSize())
      requires algorithm.Steady() ==> |firstPopulation.members| == algorithm.Mu()
      modifies this, random, evaluation
      ensures random == old(random) && evaluation == old(evaluation) && evaluationLimit == old(evaluationLimit)
      ensures evolutionaryAlgorithm == old(evolutionaryAlgorithm)
      ensures spent <= outcome.evaluations
      ensures evaluation.calls == old(evaluation.calls) + (outcome.evaluations - spent)
      ensures outcome.Finished? ==>
        evaluationLimit <= outcome.evaluations <= Max(algorithm.Mu(), evaluationLimit - 1 + algorithm.GenerationSize())
      ensures outcome.Stalled? ==> algorithm.GenerationSize() == 0 && outcome.evaluations < evaluationLimit
      ensures outcome.Raised? ==> outcome.error !in {InvalidNumberOfParents, NullFitness}
      ensures algorithm.Steady() ==> outcome.Finished?
      ensures algorithm.Steady() && outcome.Finished? ==>
        population != null && |population.members| == algorithm.Mu()
      ensures outcome.Finished? && outcome.evaluations == spent ==> population == firstPopulation
      ensures outcome.Stalled? || (outcome.Finished? && spent < outcome.evaluations) ==>
        && population != null && fresh(population) && SelectedFrom(population, last)
        && |last| == algorithm.GenerationSize() && forall c :: c in last ==> fresh(c)
    {
      var random, evaluation := this.random, this.evaluation;
      var current, evaluationCount := firstPopulation, spent;
      last := [];
      while evaluationCount < evaluationLimit
        invariant this.random == random && this.evaluation == evaluation && population == current
        invariant spent <= evaluationCount
        invariant evaluation.calls == old(evaluation.calls) + (evaluationCount - spent)
        invariant evaluationLimit == old(evaluationLimit) && evolutionaryAlgorithm == old(evolutionaryAlgorithm)
        invariant evaluationCount <= Max(algorithm.Mu(), evaluationLimit - 1 + algorithm.GenerationSize())
        invariant AllValid(current.members)
        invariant algorithm.Steady() ==> |current.members| == algorithm.Mu()
        invariant evaluationCount == spent ==> current == firstPopulation
        invariant spent < evaluationCount ==>
          && fresh(current) && SelectedFrom(current, last)
          && |last| == algorithm.GenerationSize() && forall c :: c in last ==> fresh(c)
        decreases evaluationLimit - evaluationCount
      {
        var next, evaluated;
        ghost var generation;
        next, evaluated, generation := AdvanceGeneration(algorithm, current);
        evaluationCount := evaluationCount + evaluated;
        if next.Failure? {
          return Raised(next.error, evaluationCount), last;
        }
        current := next.value;
        last := generation;
        if evaluated == 0 {
          return Stalled(evaluationCount), last;
        }
      }
      outcome := Finished(evaluationCount);
    }
  }
}
