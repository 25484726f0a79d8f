/** Small shared types. */
module Prelude {
  datatype Option<+T> = None | Some(value: T)

  const U16_MAX: nat := 0xffff
  const U32_MAX: nat := 0xffff_ffff
  const U64_MAX: nat := 0xffff_ffff_ffff_ffff
}
