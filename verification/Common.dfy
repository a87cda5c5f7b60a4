/** Shared by all modules: a value that may be absent, an operation that may raise, and session cookies. */
module Common {

  datatype Option<+T> = None | Some(value: T)

  datatype Result<+T, +E> = Ok(value: T) | Err(error: E)

  /** A session cookie; an empty one counts as absent. */
  type Cookie = s: string | s != "" witness "k"
}
