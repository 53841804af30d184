/** Stock Option and Result datatypes: Java's null and thrown exceptions in the model. */
module Wrappers {

  datatype Option<T> = None | Some(value: T)

  datatype Result<T, E> = Success(value: T) | Failure(error: E)
}
