/** Option and Result values: a missing table cell, and a run that stops on an exception. */
module Wrappers {

  /** A table cell that may be missing (pandas' NaN). */
  datatype Option<+T> = None | Some(value: T)

  /** The outcome of a computation that may raise. */
  datatype Result<+T, +E> = Success(value: T) | Failure(error: E)
}
