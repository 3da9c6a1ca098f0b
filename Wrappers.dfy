/** An optional value: used for a slot the recognizer may leave empty and for a
    date parse that may fail. */
module Wrappers {

  datatype Option<+T> = None | Some(value: T)
}
