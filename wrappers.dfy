/** Wrappers shared by the model: `Option` for Python's
    `None`-or-value results and `Result` for a value or a raised exception. */
module Wrappers {

  datatype Option<+T> = None | Some(value: T)

  datatype Result<+R, +E> = Success(value: R) | Failure(error: E)
}

/** The exceptions the Hardy-Weinberg core raises, each with the reason that
    fixes its message. */
module Errors {

  /** The Python type of the left operand of a failed comparison. */
  datatype NumberType = IntType | FloatType

  datatype Reason =
    | FrequencySum                  // `Gene`: the squared sum of the two allele frequencies is not 1
    | SizeMismatch                  // `chi_squared_test`: the two data sets differ in length
    | NoneComparison(left: NumberType) // `reject_null_hypothesis`: a number compared with `None` by `>`

  datatype Error =
    | ValueError(reason: Reason)
    | TypeError(reason: Reason)

  /** The message text each reason carries. */
  function Message(reason: Reason): string
  {
    match reason
    case FrequencySum => "[ERROR] The sum of all genotype frequencies must equal 1."
    case SizeMismatch => "[ERROR] The observed and expected data sets are not of the same size."
    case NoneComparison(IntType) => "'>' not supported between instances of 'int' and 'NoneType'"
    case NoneComparison(FloatType) => "'>' not supported between instances of 'float' and 'NoneType'"
  }
}
