/** The optional value used where the scripts work with `null` or `undefined`. */
module Wrappers {

  datatype Option<+T> = None | Some(value: T)
}
