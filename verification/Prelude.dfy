/** Shared vocabulary: optional values, and outcomes that carry the source's refusal reason. */
module Prelude {

  /** The largest integer that every JSON reader keeps exact. */
  const MAX_SAFE := 9007199254740991

  datatype Option<+T> = None | Some(value: T)

  /**
    A call that returns or raises.  `Refused(reason)` is a `ConformanceError(reason, ...)` of the source; where
    the model joins several checks into one, it carries the reason of one of them.
   */
  datatype Outcome<+T> = Ok(value: T) | Refused(reason: string)
}
