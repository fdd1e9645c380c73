/** Option and Result types shared by the model. A `Result` stands for an
 *  operation that may end the program with a fatal error (the source prints a
 *  message and calls exit(1)) or throw an exception. */
module Wrappers {
  datatype Option<T> = None | Some(value: T)

  datatype Result<T> = Ok(value: T) | Fatal(message: string)
  {
    predicate IsOk() { Ok? }
  }
}
