/** Failure-carrying values shared by every module of the model.

    The modelled code signals failure in two ways: JavaScript functions
    return `null`, Python functions raise. `Option` models the first;
    `Result` the second, where the error is what the handler would see
    as `str(e)` (or whatever error value the caller chooses). */
module Base {

  /** A value that may be absent (`null` / `undefined` / `None`). */
  datatype Option<+T> = None | Some(value: T)

  /** The outcome of a step that may raise. */
  datatype Result<+T, +E> = Ok(value: T) | Err(error: E)

  /** A step whose exception is only observed through `str(e)`. */
  type Fallible<T> = Result<T, string>
}
