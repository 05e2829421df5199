/** Results and the Python exception kinds that the parser and the coder can raise. */
module Base {

  datatype Option<+T> = None | Some(value: T)

  /** The exceptions the modelled code raises, by Python class. */
  datatype Error =
    | ImpossibleError   // `Exception("Impossible error.")` of parse_line
    | AttributeError    // `.append` on a value that is a str, not a list
    | TypeError         // a list handed to the date parser
    | KeyError          // a missing dictionary key
    | DateParseError    // the date parser rejected its input (dateutil's ValueError)
    | InvalidParams     // a record constructor kept no attribute

  /** Either a value or the exception that stopped the computation. */
  datatype Result<+T> = Ok(value: T) | Err(error: Error) {
    predicate IsFailure() { Err? }

    function PropagateFailure<U>(): Result<U>
      requires Err?
    {
      Err(error)
    }

    function Extract(): T
      requires Ok?
    {
      value
    }
  }

  /** What a loop that may raise part-way leaves behind: what it produced before the
      exception, and the exception if there was one. */
  datatype Outcome<+T> = Outcome(done: seq<T>, failure: Option<Error>)
}
