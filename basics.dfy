/** Values shared by every part of the model: bytes, optional values and the
    error values that Go functions return next to their results. */
module Basics {

  /** A Go `byte`: Go strings and byte slices are sequences of these. */
  type byte = x: int | 0 <= x < 256

  datatype Option<+T> = None | Some(value: T)

  /** The `(T, error)` pair of a Go function: exactly one side is meaningful. */
  datatype Result<+T> = Ok(value: T) | Err(error: Error)

  /** A Go `error` value, kept structural so that wrapping can be observed.
      - `Message`: an error made by `fmt.Errorf`/`errors.New` without `%w`;
      - `Wrapped`: `fmt.Errorf(context + "%w" + detail, cause)`, which unwraps to `cause`;
      - `Status`: a hosting API reply whose HTTP status was not the accepted one;
      - `PathError`: an `*os.PathError` for operation `op` on `path`;
      - `Opaque`: an error produced by code outside the model (a process exit,
        the network, the zip reader), identified only by a tag. */
  datatype Error =
    | Message(text: string)
    | Wrapped(context: string, cause: Error, detail: string)
    | Status(context: string, code: int)
    | PathError(op: string, path: string)
    | Opaque(tag: string)
}
