/** Optional values, error returns and panics shared by every module of the model. */
module Wrappers {
  datatype Option<T> = None | Some(value: T)

  /** A Go `(value, error)` pair: exactly one of the two is meaningful. */
  datatype Result<T> = Ok(value: T) | Err(error: string)

  /** A Go call that either returns a value or panics with a message. */
  datatype Outcome<T> = Returns(value: T) | Panics(message: string)

  /** The message of Go's panic on a nil pointer dereference or a call of a nil function. */
  const ErrNilDereference: string := "runtime error: invalid memory address or nil pointer dereference"
}
