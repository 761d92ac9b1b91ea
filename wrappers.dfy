/** Option and Result, the two wrappers the model uses for Python's `None`
    and for the exceptions the scraper's methods can raise. */
module Wrappers {

  datatype Option<+T> = None | Some(value: T)

  datatype Result<+T, +E> = Ok(value: T) | Err(error: E) {

    predicate IsFailure() {
      Err?
    }

    function PropagateFailure<U>(): Result<U, E>
      requires Err?
    {
      Err(error)
    }

    function Extract(): T
      requires Ok?
    {
      value
    }
  }

  /** The Python exceptions the core can raise. */
  datatype Error =
    | KeyError(key: string)        // `tag["content"]` on a tag without that attribute
    | TypeError(reason: string)    // `"; ".join(None)`
    | ValueError(reason: string)   // a DataFrame built from columns of unequal length
}
