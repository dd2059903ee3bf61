/** Optional values and the two ways an operation of the converter can fail: the version
    check can reject the profile (the Python code returns `None`), or the Python runtime
    raises an exception that nothing catches. */
module Outcomes {

  datatype Option<T> = None | Some(value: T)

  datatype Error =
    | VersionMismatch
    | Exception(reason: string)

  datatype Result<T> = Ok(value: T) | Err(error: Error) {
    predicate IsFailure() { Err? }

    function PropagateFailure<U>(): Result<U>
      requires Err?
    {
      Err(error)
    }

    function Extract(): T
      requires Ok?
    {
      value
    }
  }

  /** What Python raises when `struct.pack` gets a value out of range or `struct.unpack`
      gets too few bytes. */
  const StructError: Error := Exception("struct.error")

  /** What Python raises when an index is out of range. */
  const IndexError: Error := Exception("IndexError")
}
