/** An optional value: JavaScript's `null` set against a present value. */
module Wrappers {

  datatype Option<+T> = None | Some(value: T)

}
