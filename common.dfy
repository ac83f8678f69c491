/** Failure-carrying values shared by every module of the model.
    `Status` stands for Go's `error` result (`Ok` is `nil`), `Result` for a
    `(value, error)` pair where exactly one side is meaningful. */
module Common {

  datatype Option<T> = None | Some(value: T)

  datatype Status = Ok | Fail(msg: string)

  datatype Result<T> = Success(value: T) | Failure(msg: string)
}
