/** Go's `(value, error)` convention and nil-able values, as datatypes. */
module Results {

  /** A value that may be absent: a nil error, a nil pointer, a missing map entry. */
  datatype Option<+T> = None | Some(value: T)

  /** The result of a Go call returning `(T, error)`: either the value with a nil
      error, or a non-nil error whose text is `error`. */
  datatype Result<+T> = Ok(value: T) | Err(error: string)

  /** The text of database/sql's `ErrNoRows`, which a `:one` query returns when no row matches. */
  const ErrNoRows: string := "sql: no rows in result set"
}
