/** Option and Result: the tagged values that stand in for Python's `None`
    and for raised exceptions throughout the model. */
module Wrappers {

  datatype Option<+T> = None | Some(value: T)

  /** `Ok` is a normal return, `Err` an exception carrying its cause. */
  datatype Result<+T, +E> = Ok(value: T) | Err(error: E)
}
