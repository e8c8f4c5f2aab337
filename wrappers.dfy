/** Option and Outcome values used where the Python returns None or raises. */
module Wrappers {

  datatype Option<+T> = None | Some(value: T)

  /** The result of a step that may raise: `Fail` stands for a Python exception. */
  datatype Outcome = Pass | Fail(reason: string)

  /** A value, or the exception that prevented computing it. */
  datatype Result<+T> = Success(value: T) | Failure(reason: string)

  /** Python's truthiness test on an optional id: `None` and `""` are both absent. */
  predicate Given(id: Option<string>)
  {
    id.Some? && id.value != ""
  }
}
