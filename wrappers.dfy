/** Python's `None`-or-value results, as an explicit datatype. */
module Wrappers {

  datatype Option<+T> = None | Some(value: T)
}
