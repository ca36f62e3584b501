/** Vocabulary shared by every component. */
module Basics {
  datatype Option<+T> = None | Some(value: T)

  type Bytes = seq<nat>

  const U64_MAX: nat := 0xFFFF_FFFF_FFFF_FFFF

  type U64 = n: nat | n <= 0xFFFF_FFFF_FFFF_FFFF
  type U32 = n: nat | n <= 0xFFFF_FFFF
}
