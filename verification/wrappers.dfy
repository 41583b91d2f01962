/** Small value types shared by the whole model. */
module Wrappers {

  /** Python's `None` or a present value. */
  datatype Option<+T> = None | Some(value: T)

  /** The Python exceptions the modelled code can raise.  An operation that
      raises one returns it as a value instead of aborting. */
  datatype PyError =
    | IndexError   // `random.choice` on an empty sequence
    | ValueError   // unpacking a `str` into a `(bool, str)` pair
    | TypeError    // `str + int` in the rate-limit warning
}
