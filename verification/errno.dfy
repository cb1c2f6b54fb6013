/** Error signals of the compatibility layer: a failed operation raises a bare errno
    number, which the syscall dispatcher turns into a negative return value. */
module Errno {

  /** Linux errno numbers raised directly by the filesystem node and the time handlers. */
  const ENOENT: int := 2
  const EINTR: int := 4
  const EISDIR: int := 21
  const EINVAL: int := 22
  /** "Text file busy": the host refuses to unlink an executable that is running. */
  const ETXTBSY: int := 26

  /** Outcome of an operation that returns nothing on success. */
  datatype Status = Success | Error(code: int)

  /** Outcome of an operation that returns a value on success. */
  datatype Result<T> = Ok(value: T) | Err(code: int)
}

/** An optional value: a pointer the caller may or may not have passed. */
module Optional {
  datatype Option<T> = None | Some(value: T)
}
