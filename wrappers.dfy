/** The optional value used wherever the plugin returns or looks up "nothing". */
module Wrappers {
  datatype Option<+T> = None | Some(value: T)
}
