/** A value that may be absent: a JavaScript `undefined` result, an empty
    storage slot, or a prize no sector carries. */
module Wrappers {

  datatype Option<+T> = None | Some(value: T)
}
