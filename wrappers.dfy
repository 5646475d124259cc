/** Optional values and fetch outcomes shared by the modules of this model. */
module Wrappers {

  /** Swift's `Optional`: `None` is `nil`. */
  datatype Option<+T> = None | Some(value: T)

  /** The outcome of a throwing call: the value it returned, or the
      description of the error it threw. */
  datatype Result<+R> = Success(value: R) | Failure(error: string)
}
