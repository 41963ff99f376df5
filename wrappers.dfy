/** The optional value used where the TypeScript code returns `null` or `undefined`. */
module Wrappers {
  datatype Option<T> = None | Some(value: T)
}
