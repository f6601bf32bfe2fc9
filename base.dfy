/** Failure-compatible wrappers and the exceptions the schedule client can raise. */
module Base {

  datatype Option<+T> = None | Some(value: T)

  /** The exceptions of the Python client that the model keeps. */
  datatype Error =
    | MissingDateKey(date: string)   // KeyError from `lessons_dict[new_date]`
    | MissingSlotKey(slot: int)      // KeyError from `TIMES[lesson["class"]]`
    | ValueError(message: string)    // raised by the dispatcher of `Main.start`
    | AttributeError(name: string)   // `args.function` read when the parser set no such attribute

  datatype Result<+T> = Success(value: T) | Failure(error: Error) {
    predicate IsFailure() { Failure? }

    function PropagateFailure<U>(): Result<U>
      requires Failure?
    {
      Failure(error)
    }

    function Extract(): T
      requires Success?
    {
      value
    }
  }
}
