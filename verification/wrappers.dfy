/** The optional-value datatype shared by the whole model. JavaScript's
    `undefined` (an absent field, an empty cache slot) is `None`. */
module Wrappers {

  datatype Option<+T> = None | Some(value: T)
}
