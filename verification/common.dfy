/** Small failure-carrying datatypes shared by the cart, checkout and search modules. */
module Common {

  /** A value that may be absent: a nullable form field or model field. */
  datatype Option<+T> = None | Some(value: T)

  /** The outcome of a lookup that raises when nothing matches. */
  datatype Result<+T, +E> = Ok(value: T) | Err(error: E)
}
