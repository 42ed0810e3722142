/** The Some/None datatype used for the answer to the free-text prompt. */
module Wrappers {

  /** `None` stands for a cancelled prompt (the browser returns null). */
  datatype Option<+T> = None | Some(value: T)
}
