/** What the fork database and its request handler share. */
module Chain {
  type Address = nat
  type Slot = nat
  type Word = nat
  type Hash = nat

  /** The code hash of an account without code. */
  const KECCAK_EMPTY: Hash := 0xc5d2460186f7233c927e7db2dcc703c0e500b653ca82273b7bfad8045d85a470
}
