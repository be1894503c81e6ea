/** Failure-carrying values shared by every module of the model: Python's
    `None` becomes `Option`, and a raised exception becomes the `Failure` arm
    of `Result`, carrying which built-in exception class was raised. */
module Wrappers {

  datatype Option<+T> = None | Some(value: T)

  datatype Result<+R> = Success(value: R) | Failure(error: PyError)

  /** The Python exception classes that the modelled code can raise. */
  datatype PyError =
    | ValueError          // raised explicitly by the code on a bad configuration
    | IndexError          // list/tensor index outside [-len, len)
    | ZeroDivisionError   // float division by a zero count
    | UnboundLocalError   // a local read before any assignment reached it
    | RuntimeError        // torch.cat on tensors whose leading sizes differ
    | KeyError            // a missing column of an empty DataFrame

  function Min(a: int, b: int): int { if a <= b then a else b }

  function Max(a: int, b: int): int { if a <= b then b else a }
}
