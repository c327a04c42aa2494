/**
 * The children a transaction owns.  Their own fields and their wire layouts
 * belong to collaborators outside this model: each child carries its fields
 * as an opaque byte string, and each child serialiser is a function value in
 * `Codecs`.  Only what the transaction engine itself reads is spelled out: an
 * input's private key, an output's schema version, a cross-chain entry's
 * index and a signature program's script and parameter.
 */
module Children {
  import opened Wire

  /** A spent output reference; `privateKey` is empty when the input carries none. */
  datatype UTXOInput = UTXOInput(fields: Bytes, privateKey: Bytes)

  /** A payment output; `version` is the schema version its record declares. */
  datatype TxOutput = TxOutput(version: byte, fields: Bytes)

  /** A cross-chain transfer entry; `index` is its position in the imported record. */
  datatype CrossChainAsset = CrossChainAsset(index: nat, fields: Bytes)

  /**
   * Authorisation evidence: `code` is the script (one key, or a redeem script
   * of several keys ending in the multisig marker) and `parameter` the
   * 65-byte signatures accumulated for it, in signing order.
   */
  datatype Program = Program(code: Bytes, parameter: Bytes)

  /** The serialisers of the children; an output is told the transaction version. */
  datatype Codecs = Codecs(
    inputBytes: UTXOInput -> Bytes,
    outputBytes: (TxOutput, byte) -> Bytes,
    assetBytes: CrossChainAsset -> Bytes,
    programBytes: Program -> Bytes)
}
