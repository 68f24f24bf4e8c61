/** Optional values: a JavaScript `undefined`/`null`, an absent query parameter
    or a missing table row is `None`. */
module Wrappers {

  datatype Option<+T> = None | Some(value: T)
}
