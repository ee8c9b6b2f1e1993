/** Option and Result as this model uses them. Option is the item `_next`
    shifts off, absent when the queue is empty; a Result's Failure carries the
    error index.js throws, so that a throwing read becomes an ordinary value. */
module Results {

  datatype Option<+T> = None | Some(value: T)

  /** A value of type T, or the error E that index.js would have thrown. */
  datatype Result<+T, +E> = Success(value: T) | Failure(error: E) {

    predicate IsFailure() {
      Failure?
    }

    function PropagateFailure<U>(): Result<U, E>
      requires Failure?
    {
      Failure(error)
    }

    function Extract(): T
      requires Success?
    {
      value
    }

    /** Wraps the error into a wider error type, leaving a success alone. */
    function MapFailure<NewE>(wrap: E -> NewE): Result<T, NewE>
    {
      match this
      case Success(v) => Success(v)
      case Failure(e) => Failure(wrap(e))
    }
  }
}
