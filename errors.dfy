/** The failures of the response cleaner and the two ways they reach a caller. */
module Errors {

  /** The .NET exception that a step raises, reduced to its kind. */
  datatype Cause =
    | Unparsable        // the response text is not JSON (JsonReaderException)
    | NotConvertible    // a value does not have the shape a conversion asks for (JsonSerializationException, ArgumentException)
    | NullReference     // a null was dereferenced (NullReferenceException)
    | MissingKey(key: string)  // a dictionary lookup of an absent key (KeyNotFoundException)
    | NoResults         // the payload has no `results` key (InvalidDataException)

  /**
   * How an entry point reports a failure: `Thrown` lets the original exception
   * propagate; `IncorrectJson` wraps it, keeping its message.
   */
  datatype Error = Thrown(cause: Cause) | IncorrectJson(cause: Cause)
}
