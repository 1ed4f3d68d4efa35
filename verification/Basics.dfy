/** Small types and functions every module shares. */
module Basics {

  /** One more than the largest 32-bit unsigned integer. */
  const UINT_LIMIT := 0x1_0000_0000

  /** The first address of the kernel's half. */
  const KERNBASE := 0x8000_0000

  type byte = b: int | 0 <= b < 256

  datatype Option<T> = None | Some(value: T)

  function Min(x: int, y: int): int { if x <= y then x else y }

  function Max(x: int, y: int): int { if x >= y then x else y }
}
