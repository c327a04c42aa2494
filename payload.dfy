/**
 * The canonical unsigned payload of a transaction (the bytes that are hashed
 * and signed) and the full serialisation that appends the signature programs.
 */
module Payload {
  import opened Wire
  import opened Children
  import opened Attributes

  /** Transaction type tags. */
  const TRANSFER_ASSET: byte := 0x02
  const TRANSFER_CROSS_CHAIN_ASSET: byte := 0x08

  /**
   * The fields of a transaction that its unsigned payload covers.  The fee,
   * the cached hash and the signature programs are not among them.
   */
  datatype TxBody = TxBody(
    version: byte,
    txType: byte,
    payloadVersion: byte,
    crossChainAssets: seq<CrossChainAsset>,
    attributes: seq<Attribute>,
    inputs: seq<UTXOInput>,
    outputs: seq<TxOutput>,
    lockTime: uint32)

  /** The version byte is written only for a non-zero version (legacy transactions have none). */
  function VersionPrefix(version: byte): (r: Bytes) {
    if version != 0 then [version] else []
  }

  function Header(b: TxBody): (r: Bytes) {
    VersionPrefix(b.version) + [b.txType, b.payloadVersion]
  }

  /** The cross-chain section is left out altogether when there are no entries. */
  function CrossChainSection(c: Codecs, assets: seq<CrossChainAsset>): (r: Bytes) {
    if |assets| > 0 then Counted(c.assetBytes, assets) else []
  }

  /** The output serialiser, told the transaction version. */
  function OutputEncoder(c: Codecs, version: byte): (r: TxOutput -> Bytes) {
    o => c.outputBytes(o, version)
  }

  /** Everything after the attribute section. */
  function InputsOutputsLockTime(c: Codecs, b: TxBody): (r: Bytes) {
    Counted(c.inputBytes, b.inputs) + Counted(OutputEncoder(c, b.version), b.outputs) + UInt32LE(b.lockTime)
  }

  function UnsignedPayload(c: Codecs, b: TxBody): (r: Bytes) {
    Header(b) + CrossChainSection(c, b.crossChainAssets) + Counted(Encode, b.attributes)
    + InputsOutputsLockTime(c, b)
  }

  /** The signed transaction: the unsigned payload, then the counted list of programs. */
  function FullSerialization(c: Codecs, b: TxBody, programs: seq<Program>): (r: Bytes) {
    UnsignedPayload(c, b) + Counted(c.programBytes, programs)
  }

  /** Collection sizes and attribute lengths that a 64-bit size can hold. */
  predicate Sized(b: TxBody) {
    && |b.crossChainAssets| < TWO_64
    && |b.attributes| < TWO_64
    && |b.inputs| < TWO_64
    && |b.outputs| < TWO_64
    && forall i :: 0 <= i < |b.attributes| ==> Attributes.Sized(b.attributes[i])
  }

  /**
   * The payload opens with the header: the version byte only when the
   * version is non-zero, then the type byte, then the payload-version byte.
   * At least seven bytes follow it: the three one-byte-minimum counts of
   * attributes, inputs and outputs, and the four-byte lock time.
   */
  lemma HeaderLayout(c: Codecs, b: TxBody)
    ensures var p := UnsignedPayload(c, b);
      && |p| >= |Header(b)| + 7
      && p[..|Header(b)|] == Header(b)
      && (b.version != 0 ==> p[0] == b.version && p[1] == b.txType && p[2] == b.payloadVersion)
      && (b.version == 0 ==> p[0] == b.txType && p[1] == b.payloadVersion)
  {
  }

  /** The last four bytes of the payload are the lock time, little-endian. */
  lemma LockTimeLast(c: Codecs, b: TxBody)
    ensures var p := UnsignedPayload(c, b);
      |p| >= 4 && DecodeLE(p[|p| - 4..]) == b.lockTime
  {
    var p := UnsignedPayload(c, b);
    assert p[|p| - 4..] == UInt32LE(b.lockTime);
  }

  /**
   * Without cross-chain entries the attribute section follows the header
   * directly: reading it back there yields the attributes, in order, and
   * leaves the inputs, outputs and lock time.
   */
  lemma AttributesFollowHeader(c: Codecs, b: TxBody)
    requires Sized(b) && b.crossChainAssets == []
    ensures var p := UnsignedPayload(c, b);
      ParseAttributeSection(p[|Header(b)|..]) == Some((b.attributes, InputsOutputsLockTime(c, b)))
  {
    var p := UnsignedPayload(c, b);
    var rest := InputsOutputsLockTime(c, b);
    assert p == Header(b) + (Counted(Encode, b.attributes) + rest);
    assert p[|Header(b)|..] == Counted(Encode, b.attributes) + rest;
    ParseAttributeSectionCounted(b.attributes, rest);
  }

  /**
   * With cross-chain entries their count follows the header, and their
   * serialisations follow the count, in collection order.
   */
  lemma CrossChainFollowsHeader(c: Codecs, b: TxBody)
    requires Sized(b) && b.crossChainAssets != []
    ensures var p := UnsignedPayload(c, b);
      ParseVarUint(p[|Header(b)|..]) == Some((|b.crossChainAssets|,
        ConcatMap(c.assetBytes, b.crossChainAssets) + Counted(Encode, b.attributes) + InputsOutputsLockTime(c, b)))
  {
    var p := UnsignedPayload(c, b);
    var rest := ConcatMap(c.assetBytes, b.crossChainAssets) + Counted(Encode, b.attributes) + InputsOutputsLockTime(c, b);
    assert p == Header(b) + (VarUint(|b.crossChainAssets|) + rest);
    assert p[|Header(b)|..] == VarUint(|b.crossChainAssets|) + rest;
    VarUintRoundTrip(|b.crossChainAssets|, rest);
  }

  /**
   * The full serialisation starts with the unsigned payload; after it come
   * the varint number of programs and the programs in list order.  With no
   * programs it is the payload followed by the single byte 0.
   */
  lemma FullSerializationLayout(c: Codecs, b: TxBody, programs: seq<Program>)
    requires |programs| < TWO_64
    ensures var p, f := UnsignedPayload(c, b), FullSerialization(c, b, programs);
      && f[..|p|] == p
      && ParseVarUint(f[|p|..]) == Some((|programs|, ConcatMap(c.programBytes, programs)))
      && (programs == [] ==> f == p + [0])
  {
    var p, f := UnsignedPayload(c, b), FullSerialization(c, b, programs);
    assert f[..|p|] == p;
    assert f[|p|..] == VarUint(|programs|) + ConcatMap(c.programBytes, programs);
    VarUintRoundTrip(|programs|, ConcatMap(c.programBytes, programs));
  }
}
