/** Value types shared by the model: optional arguments (the source's nullable
    references), the errors the feature raises, and results of fallible steps. */
module Wrappers {

  /** A possibly absent argument; `None` stands for a `null` reference. */
  datatype Option<+T> = None | Some(value: T)

  /** The exceptions a feature lets escape to its caller. */
  datatype Error =
    | ArgumentNull(paramName: string)  // ArgumentNullException(paramName)
    | Thrown(message: string)          // any exception a reducer raises

  /** The outcome of a computation that either yields a value or throws. */
  datatype Result<+T> = Ok(value: T) | Err(error: Error)

  /** The outcome of a `void` operation that may throw. */
  datatype Outcome = Pass | Fail(error: Error)
}
