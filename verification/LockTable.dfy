/** The address-to-lock mapping of tl2/hash_table.h. */
module LockTable {
  /** Addresses are the numeric values of `TVar` data pointers. */
  type Addr = nat

  /** 2^22 locks. */
  const LOCKTABLE_SIZE: nat := 0x40_0000

  /** `(addr >> 2) & mask`. */
  function LockIndex(a: Addr): (l: nat) {
    (a / 4) % LOCKTABLE_SIZE
  }
}
