/** Optional values and error-carrying results, used for the evaluator's optional
    arguments and for the errors it raises to the caller. */
module Results {

  datatype Option<T> = None | Some(value: T)

  datatype Result<R, E> = Success(value: R) | Failure(error: E)
}
