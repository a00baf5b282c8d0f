/** Option and Result: the absent lookup result (`undefined`) and the thrown
    error of the original code, as values. */
module Wrappers {

  datatype Option<+T> = None | Some(value: T)

  datatype Result<+T, +E> = Ok(value: T) | Err(error: E)
}
