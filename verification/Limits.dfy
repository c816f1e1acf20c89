/** Sizes that several parts of the store share. */
module Limits {
  newtype byte = x: int | 0 <= x < 256

  /** The page header. */
  const PAGEHDRSZ: nat := 16

  /** MDB_IDL_UM_MAX: the capacity of a dirty list, and the granularity in which ID lists grow. */
  const UM_MAX: nat := 0x1FFFF
}
