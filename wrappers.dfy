/** An optional value: `None` stands for an operation that throws instead of returning. */
module Wrappers {
  datatype Option<T> = None | Some(value: T)
}
