/** Outcome datatypes shared by the model: an optional value, and a value or the error the
    Java code would have thrown instead. */
module Results {

  datatype Option<+T> = None | Some(value: T)

  datatype Result<+T, +E> = Ok(value: T) | Err(error: E)
}
