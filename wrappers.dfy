/** The optional value used for a token's category and an element's attributes
    (Ruby's `nil` is `None`). */
module Wrappers {

  datatype Option<+T> = None | Some(value: T)
}
