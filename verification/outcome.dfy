/** The two ways an operation of the model can end without producing a value. */
module Outcome {

  /** A value that may be missing: `None` stands for an operation the source leaves undefined. */
  datatype Option<+T> = None | Some(value: T)

  /** The result of an operation that raises an error on some inputs. */
  datatype Result<+R, +E> = Success(value: R) | Failure(error: E)
}
