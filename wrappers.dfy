/** Error values for the exceptions the engine throws, and a Result type that carries them. */
module Wrappers {

  /** The exceptions of the engine: the operators' own RuntimeExceptions and the
      library exceptions their arguments can provoke. */
  datatype Error =
    | InvalidNumberOfParents        // a recombination got a mating pool of the wrong size
    | OldGenerationSizeMismatch     // (mu, lambda) selection: the parents are not mu
    | NewGenerationSizeMismatch     // (mu, lambda) selection: the children are not lambda
    | DivisionByZero                // ArithmeticException of an int division
    | NonPositiveBound              // IllegalArgumentException of Random.nextInt(0)
    | IndexOutOfBounds              // List.get or List.subList outside the list
    | InvertedRange                 // IllegalArgumentException of List.subList(from, to) with from > to
    | NullFitness                   // unboxing a null score

  datatype Option<+T> = None | Some(value: T)

  datatype Result<+T> = Ok(value: T) | Failure(error: Error)
}
