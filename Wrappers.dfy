/** Optional values: `None` stands for Python's `None`, an absent field or a failed lookup. */
module Wrappers {

  datatype Option<+T> = None | Some(value: T)
}
