/** Option and Result values used in place of JavaScript's `undefined` and thrown errors. */
module Results {

  datatype Option<T> = None | Some(value: T)

  datatype Result<T, E> = Ok(value: T) | Err(error: E)
}
