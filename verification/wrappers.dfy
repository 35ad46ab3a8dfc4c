/** Helper datatypes shared by the rest of the model: `Option` stands for a
    Java or JavaScript value that may be `null`, `Result` for a computation
    that either returns a value or throws an error. */
module Wrappers {

  /** A value that may be absent (`null` in the modelled code). */
  datatype Option<+T> = None | Some(value: T)

  /** Either a returned value or a thrown error. */
  datatype Result<+T, +E> = Ok(value: T) | Err(error: E)
}
