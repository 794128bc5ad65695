/** The engine's single source of randomness (java.util.Random). */
module Randomness {

  /** A value java.util.Random.nextDouble can return. */
  type Unit = r: real | 0.0 <= r < 1.0

  /** Values java.util.Random.nextInt(n) can return, by draw index and bound. */
  type IntDraws = f: (nat, nat) -> nat | forall k: nat, n: nat :: 0 < n ==> f(k, n) < n
    witness (k: nat, n: nat) => 0

  /** One random stream shared by every operator. The k-th call of any kind
      (counting from 0) returns the k-th value of the matching draw function;
      `drawn` counts the calls made so far, so which value an operator sees
      depends only on how many draws came before it. Only the ranges of the
      draws are modelled, not their distributions. */
  class Random {
    const nextDoubleAt: nat -> Unit
    const nextGaussianAt: nat -> real
    const nextIntAt: IntDraws
    var drawn: nat

    constructor (doubles: nat -> Unit, gaussians: nat -> real, ints: IntDraws)
      ensures nextDoubleAt == doubles && nextGaussianAt == gaussians && nextIntAt == ints
      ensures drawn == 0
    {
      nextDoubleAt, nextGaussianAt, nextIntAt := doubles, gaussians, ints;
      drawn := 0;
    }

    /** A uniform value in [0, 1). */
    method NextDouble() returns (r: real)
      modifies this
      ensures drawn == old(drawn) + 1
      ensures r == nextDoubleAt(old(drawn))
      ensures 0.0 <= r < 1.0
    {
      r := nextDoubleAt(drawn);
      drawn := drawn + 1;
    }

    /** A standard normal value. */
    method NextGaussian() returns (g: real)
      modifies this
      ensures drawn == old(drawn) + 1
      ensures g == nextGaussianAt(old(drawn))
    {
      g := nextGaussianAt(drawn);
      drawn := drawn + 1;
    }

    /** A value in [0, bound). */
    method NextInt(bound: nat) returns (k: nat)
      requires 0 < bound
      modifies this
      ensures drawn == old(drawn) + 1
      ensures k == nextIntAt(old(drawn), bound)
      ensures k < bound
    {
      k := nextIntAt(drawn, bound);
      drawn := drawn + 1;
    }
  }
}
