/** The optional value used across the model: `None` stands for JavaScript's
    `undefined`, `null` or `NaN` wherever the source produces one of them. */
module Wrappers {
  datatype Option<+T> = None | Some(value: T)
}
