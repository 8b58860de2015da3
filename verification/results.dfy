/** Option and Result values used in place of JavaScript's `undefined` and of
    thrown exceptions: an `Err` carries the `message` the thrown error would
    have had. */
module Results {

  datatype Option<+T> = None | Some(value: T)

  datatype Result<+T> = Ok(value: T) | Err(message: string)
}
