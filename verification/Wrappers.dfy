/** Values the source may or may not have (`std::optional`). */
module Wrappers {

  datatype Option<+T> = None | Some(value: T)
}
