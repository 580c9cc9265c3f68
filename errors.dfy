/** Error kinds and the Option/Result/Outcome wrappers used for the argument
    checks of the neural-net engine. A C# `null` argument is `None`; a thrown
    ArgumentNullException or ArgumentException is a `Failure` carrying the
    parameter name and, for length mismatches, the counts the message reports. */
module Errors {

  datatype Option<+T> = None | Some(value: T)

  datatype Result<+T> = Success(value: T) | Failure(error: Error)

  /** The result of a check that either passes or throws. */
  datatype Outcome = Pass | Fail(error: Error)

  datatype Error =
    | ArgumentNull(paramName: string)
    | Argument(paramName: string, reason: Reason)

  /** Why an ArgumentException was thrown; one constructor per distinct message. */
  datatype Reason =
    | NoLayers                                    // layer list null or empty
    | NonPositiveLayer                            // some layer size below 1
    | NonPositiveNeurons                          // Layer(n) with n below 1
    | InputCountMismatch                          // Think: inputs null or of the wrong length
    | NoInputs                                    // ThinkFast: inputs null or empty
    | NoLayerSizes                                // ThinkFast: layer sizes null or empty
    | NonPositiveSize                             // ThinkFast: some layer size below 1
    | RequiredCount(expected: int)                // weightsAndBiases of the wrong length
    | CountMismatch(expected: int, actual: int)   // biases or weights of the wrong length
}
