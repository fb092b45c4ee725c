/** Option and Result values for the parser's and the network's failure paths. */
module Wrappers {

  datatype Option<+T> = None | Some(value: T)

  /** The outcome of an asynchronous call: a value, or a rejection carrying `err.message`. */
  datatype Result<+R> = Success(value: R) | Failure(message: string)
}
