/** The two result types the model uses for the source's `Option` and `Result`. */
module Wrappers {
  datatype Option<+T> = None | Some(value: T)

  datatype Result<+T, +E> = Ok(value: T) | Err(error: E) {
    predicate IsFailure() { Err? }

    function PropagateFailure<U>(): (r: Result<U, E>)
      requires IsFailure()
      ensures r.Err? && r.error == error
    {
      Err(error)
    }

    function Extract(): (t: T)
      requires !IsFailure()
      ensures Ok(t) == this
    {
      value
    }
  }
}
