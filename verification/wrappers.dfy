/** Failure-carrying datatypes shared by the lexer, parser and interpreter models. */
module Wrappers {

  /** An optional value: the model's stand-in for JavaScript's `null` where a field may be absent. */
  datatype Option<+T> = None | Some(value: T)

  /** The outcome of a parsing step: a value, or the message of the `Error` the parser throws. */
  datatype Result<+T> = Ok(value: T) | Err(message: string)
}
