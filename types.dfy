/** Basic values of the Algorand virtual machine that the contract works with. */
module Types {

  /** Optional value, as returned by the ledger's maybe-reads (box get, asset parameters). */
  datatype Option<+T> = None | Some(value: T)

  /** The AVM stack integer is an unsigned 64-bit value. */
  const MaxUint64: nat := 0xFFFF_FFFF_FFFF_FFFF
  type Uint64 = x: nat | x <= MaxUint64

  /** An unsigned 8-bit value. */
  newtype Byte = x: int | 0 <= x < 256

  type Bytes = seq<Byte>

  /** An ABI `string` carries a 16-bit length prefix, so its content is at most 65535 bytes. */
  const MaxAbiStringLength: nat := 0xFFFF
  type AbiString = s: Bytes | |s| <= MaxAbiStringLength

  /** An Algorand address (an ABI `address`) is exactly 32 bytes. */
  const AddressLength: nat := 32
  type Address = s: Bytes | |s| == AddressLength witness seq(32, _ => 0 as Byte)
}
