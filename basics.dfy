/**
  The primitive value types of the ledger (src/types/basics.rs): fixed-width unsigned
  integers, byte strings of fixed length, amounts, rounds and digests.
  Rust's integer widths are kept as subset types of `int`; no arithmetic is done on
  them anywhere in the core, so only their ranges matter (a decoder rejects values
  outside them).
 */
module Basics {

  type byte = x: int | 0 <= x < 0x100

  const U8_LIMIT: nat := 0x100
  const U32_LIMIT: nat := 0x1_0000_0000
  const U64_LIMIT: nat := 0x1_0000_0000_0000_0000

  type u8 = x: int | 0 <= x < 0x100
  type u32 = x: int | 0 <= x < 0x1_0000_0000
  type u64 = x: int | 0 <= x < 0x1_0000_0000_0000_0000

  /** `[u8; 32]` */
  type Bytes32 = s: seq<byte> | |s| == 32 witness seq(32, i => 0)

  /** `[u8; 64]` */
  type Bytes64 = s: seq<byte> | |s| == 64 witness seq(64, i => 0)

  /** `MicroAlgos(pub u64)`, serialised transparently as its `u64`. */
  type MicroAlgos = u64

  /** `Round = u64` */
  type Round = u64

  /** `Digest = [u8; 32]`, a SHA-512/256 output. */
  type Digest = Bytes32

  /** An Ed25519 public key (`VotePK`, `VrfPK`, multisig keys), taken as its 32 bytes. */
  type PublicKey = Bytes32

  /** The all-zero byte string of length n: `[0; n]`. */
  function Zeros(n: nat): (r: seq<byte>)
    ensures |r| == n
    ensures forall i :: 0 <= i < n ==> r[i] == 0
  {
    seq(n, i => 0)
  }

  /** `[0; 32]`, the `Default` of every 32-byte array. */
  const Zero32: Bytes32 := Zeros(32)

  /**
    The derived `Default` of an Ed25519 public key: the compressed encoding of the
    identity point, a 1 followed by 31 zero bytes, not `[0; 32]`.
   */
  const DefaultPublicKey: PublicKey := [1] + Zeros(31)

  /** `[0; 64]` */
  const Zero64: Bytes64 := Zeros(64)
}
