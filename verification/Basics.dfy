/** What several parts of the model share. */
module Basics {
  datatype Option<+T> = None | Some(value: T)

  /** The kernel and its programs can be built for either; the Makefile selects X64. */
  datatype Build = X64 | X86

  const UINT: nat := 0x1_0000_0000

  function Min(a: int, b: int): int { if a < b then a else b }

  function Max(a: nat, b: nat): nat { if a < b then b else a }
}
