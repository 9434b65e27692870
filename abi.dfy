/** The ABI encoding of `string` values, which `abi.String.encode()` produces. */
module Abi {
  import opened Types

  /** Two-byte big-endian length prefix followed by the content bytes. */
  function EncodeString(s: AbiString): (b: Bytes)
    ensures |b| == |s| + 2
    ensures b[2..] == s
  {
    [(|s| / 256) as Byte, (|s| % 256) as Byte] + s
  }

  /** Reads an ABI `string`; fails unless the prefix matches the remaining length exactly. */
  function DecodeString(b: Bytes): Option<AbiString> {
    if |b| < 2 then None
    else
      var n := b[0] as nat * 256 + b[1] as nat;
      if |b| - 2 == n then Some(b[2..]) else None
  }

  /**
   * A 16-bit big-endian unsigned integer, as a tuple's head writes the offset
   * of a dynamic element; only the low 16 bits of the value are kept.
   */
  function EncodeUint16(x: nat): (b: Bytes)
    ensures |b| == 2
    ensures ReadUint16(b, 0) == x % 0x1_0000
  {
    [((x / 256) % 256) as Byte, (x % 256) as Byte]
  }

  /** The 16-bit big-endian unsigned integer at position `i`. */
  function ReadUint16(b: Bytes, i: nat): nat
    requires i + 2 <= |b|
  {
    b[i] as nat * 256 + b[i + 1] as nat
  }

  /** Decoding undoes encoding. */
  lemma DecodeEncode(s: AbiString)
    ensures DecodeString(EncodeString(s)) == Some(s)
  {
    var b := EncodeString(s);
    assert b[0] as nat * 256 + b[1] as nat == |s|;
    assert b[2..] == s;
  }

  /** Every byte string that decodes is the encoding of what it decodes to. */
  lemma EncodeDecode(b: Bytes)
    requires DecodeString(b).Some?
    ensures EncodeString(DecodeString(b).value) == b
  {
    var s := DecodeString(b).value;
    var hi, lo := b[0] as nat, b[1] as nat;
    assert |s| == hi * 256 + lo;
    assert |s| / 256 == hi && |s| % 256 == lo;
    assert EncodeString(s) == [b[0], b[1]] + b[2..];
  }
}
