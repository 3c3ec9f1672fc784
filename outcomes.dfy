/** Optional values and results with an error, shared by the preprocessing and
    fairness modules. */
module Outcomes {

  /** A value that may be absent: a missing dictionary entry, a NaN cell or an
      undefined ratio. */
  datatype Option<+T> = None | Some(value: T)

  /** The outcome of an operation that raises an exception on some inputs. */
  datatype Result<+R, +E> = Success(value: R) | Failure(error: E)
}
