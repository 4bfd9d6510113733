/** Option, Result and Outcome: the model's stand-ins for Java's Optional,
    for a value-or-exception return, and for a void method that may throw. */
module Wrappers {

  datatype Option<T> = None | Some(value: T)

  datatype Result<T, E> = Success(value: T) | Failure(error: E)

  datatype Outcome<E> = Pass | Fail(error: E)
}
