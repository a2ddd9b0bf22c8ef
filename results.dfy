/** Outcomes shared by the model: optional values, the failures a packaging run can raise,
    and results that carry either a value or one of those failures. */
module Results {

  datatype Option<T> = None | Some(value: T)

  /** What `execute` can throw.
      ToolMissing: the IllegalStateException raised when no `jar` tool is found.
      IOFailure:   an IOException raised by a file operation on the given path
                   (name elements, see module Paths).
      NullPointer: the NullPointerException raised when `getParent()` returns null. */
  datatype Failure = ToolMissing | IOFailure(path: seq<string>) | NullPointer

  datatype Result<T> = Ok(value: T) | Err(failure: Failure)
}
