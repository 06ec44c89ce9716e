/** The optional value the widget returns where the source returns `null`. */
module Wrappers {

  datatype Option<+T> = None | Some(value: T)
}
