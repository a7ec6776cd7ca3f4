/** The two shapes of partial answer the model needs: a value that may be
    absent (an optional field, a failed lookup) and a computation that may
    throw instead of returning. */
module Wrappers {

  datatype Option<T> = None | Some(value: T)

  /** What a field with a class default reads as: the given value if there
      is one, the default otherwise. */
  function OrElse<T>(o: Option<T>, fallback: T): (v: T)
    ensures o.Some? ==> v == o.value
    ensures o.None? ==> v == fallback
  {
    if o.Some? then o.value else fallback
  }

  /** A computation that either returns a value or throws an error. */
  datatype Outcome<T, E> = Ok(value: T) | Err(error: E)
}
