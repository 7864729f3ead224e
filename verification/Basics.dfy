/** Shared wrappers. */
module Basics {

  datatype Option<+T> = None | Some(value: T)

  /** How a step that may be interrupted ends: completed, raised an error, or the process died. */
  datatype Outcome = Done | Raised | Crashed {
    predicate IsFailure() {
      !Done?
    }

    function PropagateFailure(): Outcome
      requires IsFailure()
    {
      this
    }
  }
}
