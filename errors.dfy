/** The Python exceptions the script lets escape, as values. */
module Errors {

  /** IndexError: a string or list indexed past its end.
      KeyError: raised explicitly when no hosted zone matches. */
  datatype PyError = IndexError | KeyError(message: string)

  datatype Result<+T> = Ok(value: T) | Err(error: PyError)

  datatype Option<+T> = None | Some(value: T)
}
