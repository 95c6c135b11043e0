/** Small value wrappers shared by the guardrail modules: `Option` stands for a
    Java reference that may be null, `Try` for a call that either returns a
    value or throws one of the unchecked exceptions the guardrail result can
    raise. */
module Wrappers {

  /** A nullable reference: `None` is Java's `null`. */
  datatype Option<+T> = None | Some(value: T)

  /** The unchecked exceptions thrown by the guardrail result operations. */
  datatype JavaException =
    | IndexOutOfBounds   // `List.get(0)` on an empty list
    | IllegalArgument    // `validatedBy` on a failure that is not a single one
    | NullPointer        // dereferencing a `null` guardrail class

  /** The outcome of a Java call: a returned value or a thrown exception. */
  datatype Try<+T> = Ok(value: T) | Throw(error: JavaException)
}
