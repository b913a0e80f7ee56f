/** Optional values and results with an error, as the model's other modules use them. */
module Wrappers {

  /** A value that may be missing; `None` stands for pandas' NaN where a mean has no data. */
  datatype Option<+T> = None | Some(value: T)

  /** The outcome of a step that can halt the dashboard with an error. */
  datatype Result<+R, +E> = Success(value: R) | Failure(error: E)
}
