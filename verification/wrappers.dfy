/** Failure-compatible result types shared by the whole model. A Python
    exception that the caller can observe is modelled as `Failure`, a
    missing value (`None`, an absent dictionary key) as `None`. */
module Wrappers {

  datatype Option<+T> = None | Some(value: T)

  datatype Result<+R> = Success(value: R) | Failure(error: string)
}
