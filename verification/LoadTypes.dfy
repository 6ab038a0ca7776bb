/** The values every component shares: 64-bit words, accounts and transactions. */
module LoadTypes {
  const UINT64_SIZE := 0x1_0000_0000_0000_0000
  type Uint64 = n: nat | n < 0x1_0000_0000_0000_0000
  const MAX_UINT64: Uint64 := 0xFFFF_FFFF_FFFF_FFFF

  /** Go's `+` on uint64: the sum modulo 2^64. */
  function WrapAdd(x: Uint64, y: Uint64): Uint64 {
    if x + y < UINT64_SIZE then x + y else x + y - UINT64_SIZE
  }

  datatype Option<+T> = None | Some(value: T)

  type Address = nat

  datatype Account = Account(address: Address, tracked: bool)

  /** What the sender pipeline reads of a transaction; `id` tells two transactions apart. */
  datatype Tx = Tx(id: nat, sender: Account, nonce: Uint64, gas: Uint64)
}
