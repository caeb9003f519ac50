/** Result types shared by the models of the repository's tools. */
module Outcomes {
  datatype Option<+T> = None | Some(value: T)

  /** A raised error carries the rule that refused. */
  datatype Result<+T, +E> = Ok(value: T) | Refused(error: E)

  /** What becomes of an action that may raise, before or after taking effect. */
  datatype Fate = Works | FailsBefore | FailsAfter
}
