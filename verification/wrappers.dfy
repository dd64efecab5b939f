/** The optional value used where the dashboard has "no match", "no number" or "no winner". */
module Wrappers {
  datatype Option<T> = None | Some(value: T)
}
