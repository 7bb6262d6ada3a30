/** Two small datatypes shared by every module of the model: `Option` stands
    for a value that JavaScript may leave `null` or `undefined`, and `Result`
    for an outcome that either succeeds or carries error details. */
module Values {

  datatype Option<+T> = None | Some(value: T)

  datatype Result<+T, +E> = Ok(value: T) | Err(error: E)
}
