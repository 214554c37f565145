/** The optional value used where the JavaScript code returns `null` for "nothing found". */
module Wrappers {
  datatype Option<+T> = None | Some(value: T)
}
