/** A minimal optional-value type: a JSON key that may be absent from a document. */
module Wrappers {

  datatype Option<+T> = None | Some(value: T)
}
