/** Failure-carrying wrappers shared by the whole model.

    `Result` stands both for Go's `(value, error)` pairs and for the
    process-halting `log.Fatal*` calls: an `Err` produced by a builder or by
    an adapter means that the task aborts with that message. */
module Results {

  datatype Option<+T> = None | Some(value: T)

  datatype Result<+T> = Ok(value: T) | Err(msg: string)
}
