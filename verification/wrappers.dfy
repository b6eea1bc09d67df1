/** Result and Option carriers for operations whose source signals failure
    (an exception, an error return or a missing entry). */
module Wrappers {
  datatype Option<T> = None | Some(value: T)

  datatype Result<T, E> = Success(value: T) | Failure(error: E)
  {
    predicate IsFailure() {
      Failure?
    }
  }
}
