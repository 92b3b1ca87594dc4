/** The optional-value datatype shared by the other modules. What `None`
    stands for is said where it is used: a null database column in
    `Analytics`, an `undefined` JavaScript value in `Shorten` (where `null`
    is a JSON value of its own). */
module Wrappers {

  datatype Option<+T> = None | Some(value: T)
}
