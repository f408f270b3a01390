/** Python exceptions, as the modelled code raises them or lets them through,
    turned into returned values. */
module Exceptions {

  /** The exception classes that matter to the model. Every one of them
      derives from Python's `Exception`. */
  datatype ExceptionKind =
    | ArrowInvalid     // pyarrow: the bytes do not parse as a Parquet file
    | IndexError       // pyarrow: a column index outside the row group
    | AttributeError   // an attribute looked up on an object that lacks it
    | OtherException   // anything else, such as an object-store I/O failure

  /** A raised exception; `message` is what `str(e)` gives. */
  datatype PyException = PyException(kind: ExceptionKind, message: string)

  /** The outcome of a computation that may raise. */
  datatype Result<+T> = Ok(value: T) | Err(error: PyException)
}
