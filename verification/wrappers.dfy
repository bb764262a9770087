/** The optional-value datatype shared by the other modules. */
module Wrappers {

  /** `None` stands for Python's `None` (an absent frame, no command sent yet). */
  datatype Option<+T> = None | Some(value: T)
}
