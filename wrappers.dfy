/** The optional value that the TypeScript code writes as `T | null`. */
module Wrappers {

  datatype Option<+T> = None | Some(value: T)
}
