/** Shared by all parts: the Option type used wherever the original has `T | null` or
    `T | undefined`, and the names of sessions. */
module Wrappers {
  datatype Option<+T> = None | Some(value: T)

  type SessionId = string
}
