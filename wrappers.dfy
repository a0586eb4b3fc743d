/** Optional values: a JavaScript `undefined`/`null`, or a `Number` that came out as NaN. */
module Wrappers {

  datatype Option<+T> = None | Some(value: T)

}
