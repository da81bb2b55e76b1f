/** The optional value used wherever the source holds `undefined` or a missing entry. */
module Wrappers {

  datatype Option<+T> = None | Some(value: T)
}
