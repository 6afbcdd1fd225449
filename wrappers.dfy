/** The optional value used where the source has `undefined`, a missing
    attribute or a failed lookup. */
module Wrappers {

  datatype Option<+T> = None | Some(value: T)

}
