/** The optional value used where the adapter has "nothing" (a null state, no device action). */
module Wrappers {

  datatype Option<+T> = None | Some(value: T)
}
