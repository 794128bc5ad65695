# BlackBoxOptimisation engine in Dafny

This project models the evolutionary-algorithm engine of the BlackBoxOptimisation
contest entry and proves properties of it:

- the operator library `model/EAUtils.java`:
  - uniform initialisation;
  - uniform and fitness-proportional parent selection;
  - clone, whole-arithmetic and global recombination;
  - self-adaptive mutation with one and with n step sizes;
  - (μ, λ) survivor selection;
- the two self-contained evolution strategies `implementation/EvolutionairyStrategies.java` and
  `implementation/EvolutionaryStrategies.java`;
- the two solvers `MultimodalSolver` and `UnimodalSolver`, which wire library operators together;
- the `Individual` record;
- the contest entry `player10.run`: the initial evaluation, then generations until the
  evaluation budget is spent.

The model is imperative where the Java is:

- `Individual` is a class. Its genotype `x` and its step sizes `sigmas` are arrays, and
  the operators update them in place.
- A Java list that survivor selection sorts and truncates in place is an `IndividualList`,
  a class with a `seq` field.
- Every mutation, recombination and selection is a method with loops and invariants. Each
  is proved against specification functions: `UniformGene`, `Blend`, `OneStepSize`,
  `NStepSize`, `Weights`, `Roulette`, `SumOfShares`, `Column` and others.
- `java.util.Random` is a class with one draw counter and three fixed draw functions:
  - `nextDouble` returns a value in [0, 1);
  - `nextGaussian` returns any real;
  - `nextInt(n)` returns a value in [0, n).

  The k-th draw of the run returns the k-th value. The contracts therefore say exactly
  which draw feeds which gene, and how many draws each operator consumes.
- Exceptions are `Failure` values of a `Result`:
  - the arity checks;
  - the size checks of (μ, λ) selection;
  - `Random.nextInt(0)`;
  - int division by zero;
  - `subList` out of range or inverted;
  - unboxing a null score.
- The Java interface `EvolutionaryAlgorithm` is a datatype over the four strategy classes.
  Its operations dispatch on the datatype and state what every strategy guarantees.
- `Math.exp` and `Math.sqrt` are parameters. The evaluation service is an oracle class. It
  answers each call, by index and genotype, with a score or with null.

Modules and files:

| file | module | models |
|---|---|---|
| wrappers.dfy | Wrappers | the exceptions, `Option`, `Result` |
| space.dfy | Space, RealSeqs | the search-space constants (10, −5, 5, 10); sums, means, sortedness |
| random.dfy | Randomness | `java.util.Random` |
| individual.dfy | Individuals | `Individual`, lists of individuals, and the sort-and-clear-prefix of survivor selection |
| eautils.dfy | EAUtils | `model/EAUtils.java` |
| es_operators.dfy | StrategyOperators | the code the two evolution strategies share |
| implementation.dfy | Implementation | the four strategy classes |
| algorithm.dfy | Algorithms | the `EvolutionaryAlgorithm` interface, and the choice made by `Bootstrap` |
| contest.dfy | Contest | the evaluation service |
| player10.dfy | Player | `player10` |

Points where the model follows what the code does, where its own comments or its
naming suggest otherwise:

- The mutation with n step sizes perturbs x[i] with a third Gaussian draw of its own. The
  comments above it (`model/EAUtils.java:171-179`) write the same Ni for the σs[i]
  update and for the x[i] step, but the code calls `nextGaussian` again for the step.
- The roulette of fitness-proportional selection leaves a slot null when no running sum
  reaches the drawn value; nothing falls back to the last candidate.
  `FitnessProportionalSelectionFillsSlots` proves that this cannot happen in exact
  arithmetic when transpose ≥ 0 and the population is non-empty.
- Nothing checks that λ is divisible by the children per pool. Parent selection uses int
  division, and `GenerationSizeAgainstLambda` proves what that gives.
- Children whose evaluation was cut short by a null score reach survivor selection with
  fitness 0, as the contract of `NextGeneration` states.
- `EvolutionairyStrategies` refers to `Individual.NUM_VALUES`, `MIN_VALUE` and
  `VALUE_SIZE`, which `model/Individual.java` does not define. They are read as
  `DIMENSIONS`, `LOWER_BOUND` and `SIZE`.

## Model

| member | source | states |
|---|---|---|
| Individuals.Individual.constructor | src/model/Individual.java:12-17 | fresh, distinct genotype and step-size arrays of length DIMENSIONS, all zero; σ = 0 and fitness 0 |
| Individuals.Individual.GetGenotype | src/model/Individual.java:19-22 | returns the live genotype array itself, not a copy |
| Individuals.SortByFitness | src/model/EAUtils.java:307-315 | the list becomes an ascending-by-fitness permutation of itself |
| Individuals.SortAndClearWeakest | src/model/EAUtils.java:307-318 | sorts, then clears the first k: succeeds iff 0 ≤ k ≤ size; the kept list is sorted, k shorter, a sub-multiset, and no dropped member is fitter than a kept one; k < 0 gives InvertedRange and k > size IndexOutOfBounds, with the list left a sorted permutation |
| Individuals.SortedSuffixKeepsFittest | src/model/EAUtils.java:317-318 | dropping a prefix of an ascending list keeps the fittest |
| Individuals.FitnessesOfPermutation | src/model/EAUtils.java:307-315 | two arrangements of the same individuals have the same multiset of fitness values |
| Individuals.SortedArrangementsAgree | src/model/EAUtils.java:307-315 | two ascending arrangements of the same individuals have the same fitness values position by position, however ties are ordered |
| EAUtils.UniformGene | src/model/EAUtils.java:105 | LOWER_BOUND + u·SIZE lies in [LOWER_BOUND, UPPER_BOUND) for u in [0, 1) |
| EAUtils.FillUniformly | src/model/EAUtils.java:102-107 | x[j] comes from the j-th next double, σs[j] = σ, DIMENSIONS draws |
| EAUtils.InitialisationUniformRandom | src/model/EAUtils.java:94-116 | μ fresh, distinct individuals; individual i gene j from draw i·DIMENSIONS + j, inside the search space; σ and every σs[j] equal the given σ; fitness 0; μ·DIMENSIONS draws |
| EAUtils.Blend | src/model/EAUtils.java:277-278 | componentwise α·father + (1−α)·mother, of the parents' length |
| EAUtils.BlendValueBetween | src/model/EAUtils.java:277 | for α in [0, 1] the blend lies between the two parents' values |
| EAUtils.BlendBetween | src/model/EAUtils.java:274-279 | every component of a blend with α in [0, 1] lies between the parents' components |
| EAUtils.BlendWithItself | src/model/EAUtils.java:274-279 | blending a vector with itself gives it back, for every α |
| EAUtils.BlendExample | src/model/EAUtils.java:277 | α = 0.5 blends [0, 0] and [2, 2] into [1, 1] |
| EAUtils.NoRecombination | src/model/EAUtils.java:127-148 | fails with InvalidNumberOfParents iff the pool does not hold exactly one parent; otherwise `breedings` distinct fresh clones with fresh arrays, no two sharing one, equal to the parent in x, σs and σ, fitness 0 |
| EAUtils.CloneOf | src/model/EAUtils.java:137-145 | one fresh clone with fresh arrays holding the original's values, fitness not copied |
| EAUtils.WholeArithmeticRecombination | src/model/EAUtils.java:261-284 | fails with InvalidNumberOfParents iff the pool does not hold exactly two parents; otherwise `breedings` distinct fresh babies, no two sharing an array, whose x, σs and σ are the α-blend of father and mother |
| EAUtils.BlendOf | src/model/EAUtils.java:272-281 | one fresh baby holding the α-blend of the parents, fitness 0 |
| EAUtils.GlobalStepSizeIsZero | src/model/EAUtils.java:351 | the step size as written, `1 / DIMENSIONS · sum` with int division, is 0 for every pool |
| EAUtils.GlobalStepSizeCounterexample | src/model/EAUtils.java:345-351 | ten parents with σ = 1 give σ = 0 as written, where the mean is 1 |
| EAUtils.IntendedGlobalStepSize | src/model/EAUtils.java:345-351 | the corrected step size is the mean of the DIMENSIONS parents' σ |
| EAUtils.IntendedGlobalStepSizeOfEqualParents | src/model/EAUtils.java:345-351 | parents sharing one σ pass exactly that σ on under the corrected rule |
| EAUtils.GlobalArithmeticRecombination | src/model/EAUtils.java:332-354 | fails with InvalidNumberOfParents iff the pool does not hold DIMENSIONS parents; otherwise one fresh baby with x[i] = pool[i].x[i] and σs[i] = pool[i].σs[i], and σ = 0 |
| EAUtils.ClampStepSize | src/model/EAUtils.java:202-203 | the result is at least ε0, equals the step size when that is at least ε0, and is ε0 otherwise |
| EAUtils.OneStepSize | src/model/EAUtils.java:199-203 | the updated step size σ·exp(τ·N) after the floor is at least ε0 |
| EAUtils.NStepSize | src/model/EAUtils.java:172-176 | the updated step size σs[i]·exp(τ1·N + τ2·Ni) after the floor is at least ε0 |
| EAUtils.UncorrelatedMutationWithOneStepSize | src/model/EAUtils.java:196-210 | 1 + DIMENSIONS draws; σ is updated from the first draw and is at least ε0; x[i] moves by the new σ times draw 1 + i; σs and fitness unchanged |
| EAUtils.UncorrelatedMutationWithNStepSizes | src/model/EAUtils.java:165-181 | 1 + 2·DIMENSIONS draws; σs[i] is updated from the shared draw and draw 1 + 2i and is at least ε0; x[i] moves by the new σs[i] times its own draw 2 + 2i; σ and fitness unchanged |
| EAUtils.StepDimension | src/model/EAUtils.java:172-179 | one dimension's step size and gene updated from two draws, every other dimension unchanged |
| EAUtils.DrawMatingPool | src/model/EAUtils.java:233-239 | one pool of matingPoolSize slots, slot j the member at draw j; fails on nextInt(0) or an index past the list |
| EAUtils.DrawMatingPools | src/model/EAUtils.java:230-243 | numMatingPools pools drawn one after the other from consecutive draws, with the failure cases of nextInt and get |
| EAUtils.UniformParentSelection | src/model/EAUtils.java:225-246 | succeeds iff no draw is needed or the population is non-empty (NonPositiveBound otherwise); numMatingPools pools of matingPoolSize; slot j of pool i is the member at nextInt draw i·matingPoolSize + j, so an element of the population; numMatingPools·matingPoolSize draws |
| EAUtils.PoolsDrawnMembers | src/model/EAUtils.java:238 | every slot of a drawn pool holds a member of the population |
| EAUtils.MinimumWithZero | src/model/EAUtils.java:29-42 | the running minimum starting from 0 is at most 0 and at most every fitness, and is 0 or one of them |
| EAUtils.WeightsAtLeastTranspose | src/model/EAUtils.java:44-49 | every shifted weight f − min(0, min f) + transpose is at least transpose |
| EAUtils.WeightsKeepOrder | src/model/EAUtils.java:44-49 | shifting keeps the order of fitness values, both ways |
| EAUtils.Roulette | src/model/EAUtils.java:63-73 | the chosen index, if any, is a valid position |
| EAUtils.RouletteFirstReach | src/model/EAUtils.java:62-73 | the choice is the first k whose running weight sum reaches the drawn value; none is chosen only when the total stays below it |
| EAUtils.RouletteSelects | src/model/EAUtils.java:62-73 | a value at most the total weight always selects an index |
| EAUtils.ScaledAtMost | src/model/EAUtils.java:62 | nextDouble·sum never exceeds sum when sum ≥ 0 |
| EAUtils.FitnessProportionalSelectionFillsSlots | src/model/EAUtils.java:59-73 | in exact arithmetic, with transpose ≥ 0 and a non-empty population, every slot receives an individual |
| EAUtils.Spin | src/model/EAUtils.java:62-73 | the loop that subtracts each weight in turn from nextDouble·sum picks the roulette's choice |
| EAUtils.CopyFitnesses | src/model/EAUtils.java:31-42 | a fresh array of the fitness values and their minimum with 0 |
| EAUtils.MinimumWithZeroStep | src/model/EAUtils.java:38-41 | one more fitness lowers the running minimum exactly when it is smaller |
| EAUtils.ShiftWeights | src/model/EAUtils.java:45-49 | the array is shifted in place to the weights and the sum of the weights is returned |
| EAUtils.ComputeWeights | src/model/EAUtils.java:29-49 | the fresh weight array equals the shifted weights of the fitness values, with their sum |
| EAUtils.SpinMatingPool | src/model/EAUtils.java:57-74 | matingPoolSize slots, slot j the roulette choice for draw j |
| EAUtils.FitnessProportionalSelection | src/model/EAUtils.java:27-81 | numMatingPools pools of matingPoolSize, each slot the roulette choice for its own nextDouble draw; numMatingPools·matingPoolSize draws |
| EAUtils.MuLambdaSelection | src/model/EAUtils.java:295-322 | fails with OldGenerationSizeMismatch unless the parents are μ, then with NewGenerationSizeMismatch unless the children are λ, both leaving the children untouched, then with InvertedRange if λ < μ, after the children were already sorted in place; otherwise returns the children's list itself holding μ of them, sorted ascending, with no dropped child fitter than a kept one |
| StrategyOperators.SeedGenotype | src/implementation/EvolutionairyStrategies.java:44-48 | gene j from the j-th next double, DIMENSIONS draws |
| StrategyOperators.Initialisation | src/implementation/EvolutionairyStrategies.java:33-56 | μ fresh distinct individuals with genes from consecutive draws inside the search space; σ set; σs left 0; fitness 0 |
| StrategyOperators.SeededInSpace | src/implementation/EvolutionaryStrategies.java:45-49 | every seeded gene lies in [LOWER_BOUND, UPPER_BOUND) |
| StrategyOperators.ParentSelection | src/implementation/EvolutionairyStrategies.java:58-83 | DivisionByZero for zero children per pool; otherwise λ / perPool pools of matingPoolSize, slots drawn by nextInt(μ); fails on nextInt(0) or a drawn index past the population |
| StrategyOperators.ParentSelectionInRange | src/implementation/EvolutionaryStrategies.java:116-118 | with a population of at least μ, every nextInt(μ) index is valid |
| StrategyOperators.SumOfSharesIsQuotient | src/implementation/EvolutionairyStrategies.java:95-106 | adding value/n per parent gives the sum divided by n |
| StrategyOperators.SumOfSharesIsMean | src/implementation/EvolutionairyStrategies.java:95-106 | with one share per parent the accumulated value is the parents' mean |
| StrategyOperators.SumOfSharesOfEqualValues | src/implementation/EvolutionairyStrategies.java:95-106 | parents that agree on a value pass exactly that value on |
| StrategyOperators.TotalsByColumn | src/implementation/EvolutionairyStrategies.java:95-102 | component k of the accumulated genotype adds up the shares of every parent's component k |
| StrategyOperators.AddShare | src/implementation/EvolutionairyStrategies.java:99-102 | every component grows by the parent's share |
| StrategyOperators.AddParents | src/implementation/EvolutionairyStrategies.java:95-106 | starting from zeros, the genotype ends as the column-wise running totals of every parent's shares and σ as the sum of their σ shares |
| StrategyOperators.IntermediateFromTotals | src/implementation/EvolutionairyStrategies.java:94-106 | running totals that add up every parent's genotype make the child intermediate |
| StrategyOperators.IntermediateChild | src/implementation/EvolutionairyStrategies.java:92-106 | a fresh child whose every gene and whose σ add up one share per parent; σs stays 0 |
| StrategyOperators.IntermediateChildIsMean | src/implementation/EvolutionairyStrategies.java:94-106 | with a non-empty pool each gene and σ of the child is the parents' mean; with an empty pool they stay 0 |
| StrategyOperators.IntermediateChildrenAlike | src/implementation/EvolutionairyStrategies.java:89-108 | all children of one pool are identical in x and σ |
| StrategyOperators.Recombination | src/implementation/EvolutionaryStrategies.java:59-81 | never fails, for any arity: the requested number of distinct fresh intermediate children |
| Implementation.EvolutionairyStrategies.constructor | src/implementation/EvolutionairyStrategies.java:22-31 | stores all seven parameters unchanged |
| Implementation.EvolutionairyStrategies.Initialisation | src/implementation/EvolutionairyStrategies.java:33-56 | μ individuals with x in [MIN, MIN + SIZE), σ set, σs left 0 |
| Implementation.EvolutionairyStrategies.ParentSelection | src/implementation/EvolutionairyStrategies.java:58-83 | λ / numChildren pools of matingPoolSize, indices drawn from [0, μ); never fails when 0 < μ ≤ the population size, and every drawn parent is a population member |
| Implementation.EvolutionairyStrategies.Recombination | src/implementation/EvolutionairyStrategies.java:85-109 | numChildren fresh children, each the mean of the whole pool, for any arity |
| Implementation.EvolutionairyStrategies.Mutation | src/implementation/EvolutionairyStrategies.java:111-127 | σ ≥ ε0 afterwards, and each x[i] moves by the updated σ times its own draw |
| Implementation.EvolutionairyStrategies.SurvivorSelection | src/implementation/EvolutionairyStrategies.java:129-152 | no size checks: sorts the children in place and clears the first |new| − |old|; succeeds iff |old| ≤ |new| (InvertedRange otherwise); the result is the children's list itself, of size |old|, sorted, keeping the fittest |
| Implementation.EvolutionaryStrategies.constructor | src/implementation/EvolutionaryStrategies.java:23-32 | stores all seven parameters unchanged |
| Implementation.EvolutionaryStrategies.Initialisation | src/implementation/EvolutionaryStrategies.java:34-57 | μ individuals with x in [LOWER_BOUND, UPPER_BOUND) and σ set |
| Implementation.EvolutionaryStrategies.Recombination | src/implementation/EvolutionaryStrategies.java:59-81 | `offspring` fresh children, each the per-component mean of all parents' x and σ |
| Implementation.EvolutionaryStrategies.Mutation | src/implementation/EvolutionaryStrategies.java:83-99 | σ ≥ ε0 before the genotype moves by σ times one draw per component |
| Implementation.EvolutionaryStrategies.ParentSelection | src/implementation/EvolutionaryStrategies.java:101-129 | λ / offspring pools of matingPoolSize, indices drawn from [0, μ); never fails when 0 < μ ≤ the population size, and every drawn parent is a population member |
| Implementation.EvolutionaryStrategies.SurvivorSelection | src/implementation/EvolutionaryStrategies.java:131-154 | sorts in place and clears exactly λ − μ whatever the sizes: succeeds iff 0 ≤ λ − μ ≤ |new|; result size |new| − (λ − μ), sorted, keeping the fittest; InvertedRange for λ < μ, IndexOutOfBounds beyond the list |
| Implementation.MultimodalSolver.constructor | src/implementation/MultimodalSolver.java:30-60 | stores all eight parameters unchanged; matingPoolSize is fixed at 2 |
| Implementation.MultimodalSolver.Initialisation | src/implementation/MultimodalSolver.java:62-65 | uniform initialisation: σ and every σs[j] equal the stored σ |
| Implementation.MultimodalSolver.Recombination | src/implementation/MultimodalSolver.java:67-70 | whole arithmetic recombination with the stored breedings and α |
| Implementation.MultimodalSolver.Mutation | src/implementation/MultimodalSolver.java:72-75 | n-step mutation: every σs[i] ≥ ε0 afterwards |
| Implementation.MultimodalSolver.ParentSelection | src/implementation/MultimodalSolver.java:77-81 | λ / breedings uniform couples, DivisionByZero for zero breedings |
| Implementation.MultimodalSolver.SurvivorSelection | src/implementation/MultimodalSolver.java:83-86 | (μ, λ) selection with the stored μ and λ: fails unless the parents are μ and the children λ |
| Implementation.UnimodalSolver.constructor | src/implementation/UnimodalSolver.java:29-56 | stores μ, λ, σ, ε0, τ, breedings and α unchanged; matingPoolSize is fixed at 2 |
| Implementation.UnimodalSolver.Initialisation | src/implementation/UnimodalSolver.java:58-61 | μ individuals with σ and every σs[j] equal to the stored σ |
| Implementation.UnimodalSolver.Recombination | src/implementation/UnimodalSolver.java:63-66 | whole arithmetic recombination with the stored breedings and α |
| Implementation.UnimodalSolver.Mutation | src/implementation/UnimodalSolver.java:68-71 | one-step mutation: σ ≥ ε0 afterwards, σs untouched |
| Implementation.UnimodalSolver.ParentSelection | src/implementation/UnimodalSolver.java:73-77 | λ / breedings uniform couples, DivisionByZero for zero breedings |
| Implementation.UnimodalSolver.SurvivorSelection | src/implementation/UnimodalSolver.java:79-82 | fails unless the parents are μ and the children λ |
| Algorithms.EvolutionaryAlgorithm.Initialisation | src/model/EvolutionaryAlgorithm.java:16 | every strategy returns Mu() fresh valid individuals inside the search space |
| Algorithms.EvolutionaryAlgorithm.ParentSelection | src/model/EvolutionaryAlgorithm.java:48 | every strategy returns PoolCount() pools of PoolSize() members of the population; fails only by division by zero, nextInt(0) or a bad index, and not at all on a population of at least Mu() |
| Algorithms.EvolutionaryAlgorithm.Recombination | src/model/EvolutionaryAlgorithm.java:27 | a pool of PoolSize() parents always recombines (the solvers' pool size 2 is the arity whole arithmetic recombination demands) into PerPool() fresh children with fitness 0 |
| Algorithms.EvolutionaryAlgorithm.Mutation | src/model/EvolutionaryAlgorithm.java:37 | every strategy's mutation takes MutationDraws() Gaussian draws (1 + 2·10 with n step sizes, 1 + 10 otherwise), leaves the mutated step sizes at least ε0, leaves the other kind of step size and the fitness unchanged |
| Algorithms.EvolutionaryAlgorithm.SurvivorSelection | src/model/EvolutionaryAlgorithm.java:61 | succeeds exactly when the strategy's size rule holds, and then returns the children's list itself, sorted, keeping the fittest, of the strategy's survivor count |
| Algorithms.GenerationSizeAgainstLambda | src/implementation/MultimodalSolver.java:77-81 | (λ / b)·b children per generation: never more than λ, and equal to λ iff b divides λ |
| Algorithms.SeededPopulationInSpace | src/implementation/EvolutionaryStrategies.java:40-55 | every gene of a seeded population lies in the search space |
| Algorithms.ChooseEvolutionaryAlgorithm | src/implementation/Bootstrap.java:10-22 | whatever the problem's properties: the intermediate evolution strategy with μ = 100, λ = 400, σ = 1, ε0 = 0.00001, τ = 1/√DIMENSIONS, couples, one child per couple |
| Algorithms.BootstrapGeneration | src/implementation/Bootstrap.java:17 | that configuration makes 400 children a generation, keeps 100, and fits |
| Contest.ContestEvaluation.Evaluate | src/player10.java:55 | every call counts, and its answer depends on the call index and the genotype the array holds |
| Player.EvaluateInOrder | src/player10.java:79-92 | scores in order, storing each score as the fitness; stops at the first null answer, which is also counted; the individuals after it keep their fitness |
| Player.Breed | src/player10.java:62-76 | parent selection, recombination of every pool and mutation of every child: GenerationSize() distinct fresh valid children with fitness 0 whose step sizes are at least ε0; never fails for a wrong arity |
| Player.RecombineAll | src/player10.java:66-70 | pools of PoolSize() parents give PerPool() fresh children each, concatenated: ChildrenOf(|pools|) distinct fresh valid children with fitness 0, no two of which share an array |
| Player.MutateAll | src/player10.java:73-76 | every child is mutated in turn: the stream advances by MutationDrawsFor(n) = n · MutationDraws() draws for n children, every child's step sizes end at least ε0, and every child keeps its fitness |
| Player.NextGeneration | src/player10.java:62-94 | one generation: at most GenerationSize() evaluations, at least one when there are children; the bred children are scored in order, each score being its fitness, until the first null answer, which is counted, and the children after it keep fitness 0; the next population is the sorted survivor list of the strategy's size and keeps the fittest of the generation's GenerationSize() fresh children; never fails for arity or a null score |
| Player.EvaluateAndSelect | src/player10.java:79-94 | the children are scored in order, each score stored as its fitness, until the first null answer, which is counted; the children after it keep their fitness; survivor selection succeeds exactly when the strategy's size rule holds for the parents and the children, and then keeps a sorted list of the strategy's survivor count drawn from the children, and no dropped child is fitter than a kept one |
| Player.SurvivorsWereMembers | src/player10.java:94 | the survivors are children of this generation |
| Player.Player10.constructor | src/player10.java:15-21 | a fresh entry has no random stream, evaluation service, population or algorithm yet, a limit of 0 and all properties false |
| Player.Player10.SetSeed | src/player10.java:26-30 | stores the random stream, nothing else changes |
| Player.Player10.SetEvaluation | src/player10.java:32-43 | stores the evaluation service and its parsed properties |
| Player.Player10.Evolve | src/player10.java:49-95 | evaluation calls equal the evaluations made; a finished run has spent the budget and exceeds it by less than a generation, at most max(μ, limit − 1 + children per generation); a run stalls only with no children; it raises NullFitness exactly when one of the initial individuals got a null answer: then the last call counted was the first null answer and every earlier individual was scored, and otherwise every initial individual was scored with its answer as fitness; a null score in a later generation only cuts that generation short; a run that finished after the initial evaluation alone keeps the initial population, and one that bred (or stalled) ends with the fresh sorted survivor list of the last generation, the fittest of its fresh children; a strategy that fits always finishes or aborts there, keeping μ individuals |
| Player.Player10.Run | src/player10.java:45-96 | with the bootstrap's strategy the run finishes after limit to max(100, limit + 399) evaluations, or aborts, and it aborts exactly when one of the 100 initial individuals got a null answer, the first null being the last call counted; a run past the first 100 evaluations ends with 100 survivors, sorted, the fittest of the last generation's 400 fresh children |
| Player.Player10.Generations | src/player10.java:60-95 | the loop after a complete initial evaluation: it never raises NullFitness, a finished loop has reached the limit and exceeds it by less than a generation, it stalls only with no children, and a strategy that fits always finishes with μ individuals; with no generation run the population is the one it started with, otherwise it is the fresh sorted survivor list of the last generation, the fittest of its GenerationSize() fresh children |
| Player.Player10.AdvanceGeneration | src/player10.java:62-94 | one generation on the current population: when survivor selection succeeds its fresh sorted list, the fittest of the generation's fresh children, becomes the population; the failure and evaluation-count facts of NextGeneration |

## Left out

- The double arithmetic of Java is modelled as exact reals. This leaves out rounding, NaN
  comparisons in the sort comparators and floating-point drift in the roulette loop.
- `java.util.Random` is a fixed sequence of draws with only the ranges of its values.
  Its distributions and its construction from a seed in `setSeed` are not modelled.
- `Math.exp` and `Math.sqrt` are parameters. Only the square root of a positive number is
  assumed positive.
- The evaluation service (`org.vu.contest.ContestEvaluation`) is not part of this model.
  Its calls are an oracle over the call index and the genotype. `getProperties` and the
  parsing in `setEvaluation` are replaced by already-parsed arguments. The model does not
  capture an evaluator that writes into the live genotype array it receives.
- `main` is empty. The `synchronized` modifier of `run` has no content to model.
- Counts are natural numbers. Negative μ, λ, breedings, pool sizes and `new Individual[n]`
  with n < 0 are not modelled. The evaluation limit is an unbounded integer, and the
  counter does not wrap around.
- Collections.sort is specified as a sorted permutation and implemented as an insertion
  sort, which is also stable. The merge-sort internals are not modelled.
- The Java list returned by `initialisation` and the list of children are `IndividualList`
  objects. Mating pools (`Individual[]` that nothing writes after filling) and the list of
  pools are sequence values.
- Recombination and survivor selection do not take the unused `Random` argument of the
  interface.
- Player.Player10.Run: requires the random stream and the evaluation service to be set. Calling
  `run` before `setSeed` or `setEvaluation`, where Java throws on the null field, is
  not modelled: the contest harness calls both setters before `run`.
- Player.Player10.Evolve: requires the random stream and the evaluation service to be set,
  for the same reason as Run.
- Player.Player10.Evolve: a generation that evaluates nothing ends the run as `Stalled`.
  In that case the Java loop would repeat forever with an unchanged counter. The model
  proves that this happens only when a generation has no children. It does not prove that
  every later generation would also have none.
- EAUtils.GlobalArithmeticRecombination: it models the code as written, with σ = 0. The
  corrected step size is stated and proved separately (see Findings). No operation uses
  global recombination.

## Findings

| source | as written | input that shows it | evidently intended | confidence | as-written member | corrected member |
|---|---|---|---|---|---|---|
| src/model/EAUtils.java:351 | `baby.σ = 1 / (DIMENSIONS) * σSum` uses int division, so the factor is 0 and the baby's σ is always 0 | ten parents, each with σ = 1: σ becomes 0 | the mean of the parents' σ, that is σSum / DIMENSIONS (1 for this input) | not executed | EAUtils.GlobalStepSizeCounterexample | EAUtils.IntendedGlobalStepSize |
