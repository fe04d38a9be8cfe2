/** An optional value: a document field that may be absent, or a step that may fail. */
module Wrappers {
  datatype Option<+T> = None | Some(value: T)
}
