/** Small wrapper datatypes shared by the other modules. */
module Wrappers {

  /** A value that may be absent: a missing configuration key, an `undefined` JavaScript value. */
  datatype Option<+T> = None | Some(value: T)

  /** The outcome of a step that may throw a JavaScript exception (a property read on `undefined`,
      an undeclared identifier). `Thrown` abandons everything that follows it in the same event. */
  datatype Outcome<+T> = Done(value: T) | Thrown
}
