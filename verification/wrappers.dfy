/** The optional value used wherever the program hands back a null pointer,
    an expired weak reference or an empty QVariant. */
module Wrappers {

  datatype Option<+T> = None | Some(value: T)
}
