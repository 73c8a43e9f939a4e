/** Optional values: the model's stand-in for `undefined`, `null` and
    optional record fields in the dashboard's TypeScript. */
module Wrappers {

  datatype Option<+T> = None | Some(value: T)
}
