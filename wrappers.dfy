/** Optional values: Python's `Optional[int]`, with `None` as the absent case. */
module Wrappers {

  datatype Option<+T> = None | Some(value: T)

}
