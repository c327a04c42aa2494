/**
 * The foreign calls the transaction engine makes: key derivation, hashing,
 * ECDSA signing and verification, the single-signature script builder and
 * the hex codec.  None of them is modelled; each is a function value handed
 * to the operations that call it, and only the sizes of their results are
 * fixed.  The predicates at the end name the assumptions a property needs
 * about them; no operation requires them.
 */
module Crypto {
  import opened Wire

  /** A 256-bit digest (UInt256). */
  type UInt256 = s: Bytes | |s| == 32 witness seq(32, _ => 0)
  /** A compressed public key. */
  type PubKey = s: Bytes | |s| == 33 witness seq(33, _ => 0)
  /** A 64-byte ECDSA signature followed by one recovery/format byte. */
  type Signature = s: Bytes | |s| == SIGNATURE_SCRIPT_LENGTH witness seq(65, _ => 0)

  const SIGNATURE_SCRIPT_LENGTH: nat := 65

  /** The all-zero digest, used by the transaction as "hash not computed yet". */
  const ZERO_HASH: UInt256 := seq(32, _ => 0)

  datatype Crypto = Crypto(
    pubKey: Bytes -> PubKey,                  // getPubKeyFromPrivKey
    sha256: Bytes -> UInt256,                 // BRSHA256 (BRSHA256_2 is this applied twice)
    sign: (Bytes, UInt256) -> Signature,      // ECDSA65Sign_sha256(privateKey, digest)
    verify: (Bytes, UInt256, Bytes) -> bool,  // ECDSA65Verify_sha256(publicKey, digest, signature)
    getCode: PubKey -> Bytes)                 // Utils::getCode: the single-signature script of a key

  datatype Hex = Hex(encode: Bytes -> string, decode: string -> Bytes)

  /** A signature made with a private key verifies against the key derived from it. */
  ghost predicate SignaturesVerify(c: Crypto) {
    forall k, d :: c.verify(c.pubKey(k), d, c.sign(k, d))
  }

  /** A signature verifies against no public key other than its signer's. */
  ghost predicate OnlySignerVerifies(c: Crypto) {
    forall pk, k, d :: c.verify(pk, d, c.sign(k, d)) ==> pk == c.pubKey(k)
  }

  /** Decoding undoes encoding. */
  ghost predicate HexRoundTrips(h: Hex) {
    forall b :: h.decode(h.encode(b)) == b
  }
}
