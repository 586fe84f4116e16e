/** Vocabulary shared by the whole model: account and token identifiers, the
    fixed-width integers of the host chain, and failure-carrying results. */
module Base {

  /** Accounts and fungible-token contracts are both named by account ids. */
  type AccountId = string
  type TokenId = string

  const U8_LIMIT: int := 0x100
  const U32_LIMIT: int := 0x1_0000_0000
  const U64_LIMIT: int := 0x1_0000_0000_0000_0000
  const U128_LIMIT: int := 0x1_0000_0000_0000_0000_0000_0000_0000_0000

  type U8 = x: int | 0 <= x < U8_LIMIT
  type U32 = x: int | 0 <= x < U32_LIMIT
  type U64 = x: int | 0 <= x < U64_LIMIT
  type U128 = x: int | 0 <= x < U128_LIMIT

  /** Block timestamps and durations are nanoseconds held in a `u64`. */
  type Timestamp = U64
  type GameId = U64

  datatype Option<+T> = None | Some(value: T)

  datatype Result<+T, +E> = Ok(value: T) | Err(error: E)
}
