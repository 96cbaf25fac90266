/** Outcome of a call that may raise in the Python program. */
module Results {

  /** `Ok(value)` is a normal return; `Err(message)` is a raised exception,
      where `message` is what `str(e)` (and hence `f"{e}"`) produces. */
  datatype Result<T> = Ok(value: T) | Err(message: string)
}
