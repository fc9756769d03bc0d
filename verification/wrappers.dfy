/** An optional value: an absent GraphQL argument or an empty result field. */
module Wrappers {

  datatype Option<+T> = None | Some(value: T)
}
