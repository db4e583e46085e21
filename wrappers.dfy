/** The optional-value datatype used for the script's `null` results. */
module Wrappers {

  /** `None` stands for JavaScript's `null`, `undefined` or `NaN`, whichever the call returns. */
  datatype Option<+T> = None | Some(value: T)
}
