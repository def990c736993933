/** Failure-carrying return values, standing in for the exceptions the
    k-mer index and the taxon extractor raise. */
module Outcomes {

  datatype Option<+T> = None | Some(value: T)

  datatype Result<+T, +E> = Success(value: T) | Failure(error: E)

  datatype Outcome<+E> = Pass | Fail(error: E)
}
