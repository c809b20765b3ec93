/** The optional value used where pandas would yield NaN instead of a number. */
module Wrappers {

  datatype Option<+T> = None | Some(value: T)

}
