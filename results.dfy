/** Option and Result: the model's stand-ins for `null` and for a thrown `Error`. */
module Results {

  datatype Option<+T> = None | Some(value: T)

  datatype Result<+T, +E> = Ok(value: T) | Err(error: E)
}
