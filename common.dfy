/** Small wrapper datatypes shared by the other modules. */
module Common {

  /** A value that may be missing (a null cell, a key that is not there). */
  datatype Option<+T> = None | Some(value: T)

  /** The outcome of an operation that raises in the source: `Err` stands for the exception. */
  datatype Result<+T, +E> = Ok(value: T) | Err(error: E)
}
