// Option and Result: the model's stand-ins for std::optional, null handles
// and thrown exceptions.
module Wrappers {
  datatype Option<T> = None | Some(value: T)

  /** An operation that either produces a value or throws; `msg` is the
      exception text where the source gives one. */
  datatype Result<T> = Ok(value: T) | Err(msg: string)
  {
    predicate IsOk() { Ok? }
  }
}
