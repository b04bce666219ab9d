/** The failures the fair-division engine raises, and the result type that carries them. */
module Outcomes {

  /** Each constructor is one way a call of the engine fails; none of them is recoverable. */
  datatype Error =
    | UndefinedValuation      // a Monotone agent asked for a bundle absent from its table
    | UnknownGood             // an Additive agent asked about a good it has no weight for
    | NegativeCount           // combinations of a negative number of goods
    | EmptyMax                // the maximum or minimum of an empty collection of candidates
    | DivisionByZero          // the binary maximin share with c == 0
    | UnsupportedOperation    // a query the variant does not support (no desired goods, k > 2 and s > 1)
    | IllegalWeightArguments  // balance asked for fewer than two families in its recursive case
    | NotTwoFamilies          // a two-family protocol given another number of families
    | NoFamilies              // a round-robin over goods with nobody to take them

  datatype Result<T> = Ok(value: T) | Err(error: Error)
}
