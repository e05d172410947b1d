/** Option and Result: the model's stand-ins for Kotlin's nullable values and for
    the exceptions that `requireThat`, `single()` and `first()` throw. */
module Wrappers {

  datatype Option<+T> = None | Some(value: T)

  datatype Result<+T, +E> = Ok(value: T) | Err(error: E)
}
