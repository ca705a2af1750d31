/** Option and Result, the two failure-carrying values the model returns
    where the Rust code returns `Option` or panics. */
module Results {

  datatype Option<+T> = None | Some(value: T)

  datatype Result<+T, +E> = Ok(value: T) | Err(error: E)
}
