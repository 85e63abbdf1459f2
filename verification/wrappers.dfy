/** The optional value used for every field the alarm engine leaves null. */
module Wrappers {

  /** `None` stands for a JavaScript `null`; `Some(v)` for a present value. */
  datatype Option<+T> = None | Some(value: T)
}
