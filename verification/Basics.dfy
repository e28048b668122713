/** Types that several modules share. */
module Basics {
  datatype Option<+T> = None | Some(value: T)

  /** A hardware address as bytes. */
  type Mac = seq<bv8>
}
