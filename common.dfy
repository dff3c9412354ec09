/** Value types shared by the platform index and the transaction-data payloads:
    bytes, the node's fixed-width unsigned integers, and an optional value. */
module Common {

  type byte = x: int | 0 <= x < 256
  type Bytes = seq<byte>

  const U32_LIMIT: nat := 0x1_0000_0000
  const U64_LIMIT: nat := 0x1_0000_0000_0000_0000
  const U256_LIMIT: nat := 0x1_0000000000000000_0000000000000000_0000000000000000_0000000000000000

  /** `unsigned int` */
  type U32 = x: nat | x < U32_LIMIT
  /** `uint64_t` */
  type U64 = x: nat | x < U64_LIMIT
  /** `uint256` (token ids, block and transaction hashes), read as a number */
  type U256 = x: nat | x < U256_LIMIT

  datatype Option<+T> = None | Some(value: T)
}
