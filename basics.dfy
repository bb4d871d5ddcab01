/** Option and Result, used for the values Python represents with None and for
    the exceptions that the modelled code raises to its caller. */
module Basics {

  datatype Option<+T> = None | Some(value: T)

  datatype Result<+T, +E> = Ok(value: T) | Err(error: E)
}
