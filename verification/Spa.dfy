/** Constants of spa.h that fix the geometry of the stacks. */
module Spa {
  const MB: int := 0x10_0000
  const PAGE_SIZE: int := 4096
  const WORD_BYTES: int := 8

  /** DEF_BUDDY_CALL_STACK_SIZE: an 8MB call stack. */
  const CALL_STACK_SIZE: int := 8 * MB
  const CALL_STACK_BITS: nat := 23

  /** SPA_USER_SPACE_SIZE: 2^47, one past the largest user address. */
  const USER_SPACE_SIZE: int := 0x8000_0000_0000
  const MAX_SHADOW_STACK_ADDR: int := 0x7F00_0000_0000 - 8 * CALL_STACK_SIZE

  /** SPA_8MB_MASK and SPA_SHADOW_STACK_8MB_RAND_ADDR_MASK. */
  const LOW_8MB_MASK: int := 0x7F_FFFF
  const RAND_ADDR_MASK: int := 0x7FFF_FF80_0000

  /** CPU_CYCLES_PER_RANDOMIZATION: 10000 microseconds at 3200 cycles each. */
  const CYCLES_PER_RANDOMIZATION: int := (3_200_000_000 / 1_000_000) * 10_000

  const FLASH_STACK_INITED: int := 1
}
