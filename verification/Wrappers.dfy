/** Result and option types, and the error codes of include/minillm/core/status.h. */
module Wrappers {

  datatype Option<+T> = None | Some(value: T)

  datatype Result<+T, +E> = Ok(value: T) | Err(error: E)

  datatype ErrorCode =
    | InvalidArgument
    | OutOfRange
    | ShapeMismatch
    | Unsupported
    | NotImplemented
    | RuntimeError
    | InternalError
    | IOError
    | NotFound
    | TypeError

  /** The source's Status: either success or an error code. */
  datatype Status = Success | Failure(code: ErrorCode)

  /** The largest value of the source's 64-bit size_t. */
  const SIZE_LIMIT: nat := 0xFFFF_FFFF_FFFF_FFFF
}
