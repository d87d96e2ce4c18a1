/** Small failure-compatible wrapper shared by the other modules. */
module Wrappers {

  /** `None` stands for a value the source has no answer for (JavaScript's `NaN`, an absent prop). */
  datatype Option<+T> = None | Some(value: T)
}
