/** Optional values, outcomes that carry an error, and row identifiers. */
module Common {
  datatype Option<+T> = None | Some(value: T)

  datatype Result<+T, +E> = Ok(value: T) | Err(error: E)

  /** Identifies a row of an OVN database. */
  type Uuid = nat
}
