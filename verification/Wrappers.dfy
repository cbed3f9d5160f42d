/** Types that several components use. */
module Wrappers {

  datatype Option<T> = None | Some(value: T)

  /** How a remote call ends: Lost is an exception raised although the call took effect. */
  datatype Reply = Fine | Refused | Lost
}
