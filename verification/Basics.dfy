/** Types that several modules share. */
module Basics {

  datatype Option<+T> = None | Some(value: T)

  /** A memory slot that one thread writes while others may read it: never written, in the middle of
      a write, or holding an item. */
  datatype Cell<T> = Blank | Torn | Full(item: T)
}
