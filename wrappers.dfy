/** Failure-carrying results shared by the reader, the checkpoint loader and the exchange loops. */
module Wrappers {

  datatype Option<T> = None | Some(value: T)

  /** Why an operation stopped early.
      ParseError: `std::stod` found no number and threw `std::invalid_argument` (uncaught in the
      program, so the process ends). */
  datatype Error = ParseError

  datatype Result<T> = Success(value: T) | Failure(error: Error)
}
