/** The exceptions the series operations raise, as values. */
module Outcome {

  /** ValueError: misaligned dates in a combinator, or `min`/`max` of an
      empty sequence. IndexError: `dates[0]` of an empty date list, or a
      missing whitespace-separated field. NameError: a name read before it
      was ever bound. */
  datatype Error = ValueError | IndexError | NameError

  datatype Result<T> = Ok(value: T) | Err(error: Error)

  datatype Option<T> = None | Some(value: T)
}
