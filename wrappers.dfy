/** Optional values: a JavaScript `string | undefined` is an `Option<string>`, with `None` for `undefined`. */
module Wrappers {

  datatype Option<+T> = None | Some(value: T)
}
