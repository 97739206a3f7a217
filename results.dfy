/** Failure-carrying values shared by every module of the model. */
module Results {

  datatype Option<+T> = None | Some(value: T)

  /** The exceptions the modelled code raises: a ValueError with its text, or an exception of another class. */
  datatype Error = ValueError(msg: string) | OtherError(kind: string)

  /** A computation that returns a value or raises. */
  datatype Result<+T> = Ok(value: T) | Err(error: Error) {
    predicate IsFailure() { Err? }

    function PropagateFailure<U>(): Result<U>
      requires Err?
    {
      Err(error)
    }

    function Extract(): T
      requires Ok?
    {
      value
    }
  }

  /** How a generator ended: it ran to completion, or it raised. */
  datatype Halt = Finished | Raised(error: Error)

  /** What a generator produced: the items it yielded, in order, and then how it ended. */
  datatype Stream<+T> = Stream(items: seq<T>, halt: Halt)

  /** Python truthiness of an optional string: neither None nor the empty string. */
  predicate Truthy(s: Option<string>) {
    s.Some? && s.value != ""
  }
}
