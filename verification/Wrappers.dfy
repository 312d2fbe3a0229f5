/** Types that the models share. */
module Wrappers {
  datatype Option<T> = None | Some(value: T)

  /** A byte, wrapped so that sequences of bytes need no bit-vector reasoning. */
  datatype Byte = Byte(bits: bv8)
}
