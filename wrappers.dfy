/** Option and Result: the model's way of returning what the source signals with a null
    pointer, an empty std::optional or a thrown exception. */
module Wrappers {

  datatype Option<+T> = None | Some(value: T)

  datatype Result<+T, +E> = Ok(value: T) | Err(error: E)
}
