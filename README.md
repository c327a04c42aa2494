# Transaction engine of the Elastos SPV wallet core, in Dafny

This project models the transaction engine of the wallet core. A
`Transaction` owns its UTXO inputs, outputs, attributes, cross-chain
entries and signature programs. It can:

- write its canonical unsigned payload, and the signed serialisation that
  appends the programs;
- compute and cache its content hash (SHA-256 applied twice);
- sign the payload digest, either with a single key (one program per key)
  or as one of several signers of one multisig program, whose parameter
  accumulates 65-byte signatures;
- recover which keys of a multisig redeem script have signed;
- collect the distinct private keys its inputs carry;
- import itself from a structured (JSON) record, with defaulting rules,
  and export itself back.

An `Attribute` is a usage byte and a data string. On the wire it is the
usage byte, the CompactSize length and the data. In a record it is the
usage and the hex text of the data.

Layout:

- `wire.dfy` (`Wire`): bytes, little-endian integers and the CompactSize
  varint with its parser.
- `stream.dfy` (`Stream`): the append-only `ByteStream` writer.
- `crypto.dfy` (`Crypto`): hashing, signing, key derivation and the hex
  codec, passed in as function values.
- `children.dfy` (`Children`): the transaction's children and their
  serialisers.
- `attribute.dfy` (`Attributes`): the attribute.
- `payload.dfy` (`Payload`): the byte layout of the payload.
- `recovery.dfy` (`Recovery`): signer recovery and multisig redeem
  scripts.
- `keys.dfy` (`PrivateKeys`): the key collector's specification.
- `records.dfy` (`Records`): the record and the import defaults.
- `transaction.dfy` (`Transactions`): the `Transaction` class.

`Transaction::Verify` (decode the hex key, then verify the signature
against the digest) is the function `Recovery.Verify`. Recovery is
specified in terms of it, and `Recovery.VerifyIdentifiesSigner` states
what it decides.

Each method of the class is proved against a specification function of
the transaction's fields (`UnsignedPayload`, `SignedSigners`,
`DistinctKeys`, `ImportedAttributes`, ...). The properties the system
promises are lemmas about those functions:

- reading back the payload;
- recovering signers in signing order;
- distinct keys in first-seen order;
- the attribute defaults;
- export followed by import.

Constants come from headers that are not part of this model
(`Attribute.h`, `Transaction.h`, the crypto headers). Their values are
those of the Elastos wire format:

- attribute usages: Nonce 0x00, Memo 0x81, Description 0x90;
- `ELA_MULTISIG`: 0xAE;
- transaction types: `TransferAsset` 0x02, `TransferCrossChainAsset` 0x08;
- `TX_LOCKTIME`: 0.

## Model

| member | source | states |
|---|---|---|
| Transactions.Transaction.constructor | src/Transaction/Transaction.cpp:10-19 | a new transaction is a version-0 transfer with payload version 0, lock time TX_LOCKTIME, fee 0, the zero hash and no children |
| Transactions.Transaction.SerializeUnsigned | src/Transaction/Transaction.cpp:226-260 | appends exactly the unsigned payload. In order: the version byte only when the version is non-zero; type; payload version; the cross-chain section only when there are entries; counted attributes; counted inputs; counted outputs, each told the version; 4-byte little-endian lock time |
| Transactions.Transaction.PutAssets | src/Transaction/Transaction.cpp:239-241 | appends every cross-chain entry's serialisation, in order |
| Transactions.Transaction.PutAttributes | src/Transaction/Transaction.cpp:245-247 | appends every attribute's encoding, in order |
| Transactions.Transaction.PutInputs | src/Transaction/Transaction.cpp:250-252 | appends every input's serialisation, in order |
| Transactions.Transaction.PutOutputs | src/Transaction/Transaction.cpp:255-257 | appends every output's serialisation for the transaction version, in order |
| Transactions.Transaction.Serialize | src/Transaction/Transaction.cpp:56-65 | appends the unsigned payload, then the varint count of programs and each program in order |
| Transactions.Transaction.PutPrograms | src/Transaction/Transaction.cpp:62-64 | appends every program's serialisation, in order |
| Transactions.Transaction.GetHash | src/Transaction/Transaction.cpp:44-54 | a zero cached hash is replaced by SHA-256 applied twice to the unsigned payload; a non-zero cached hash is returned unchanged; the result is the cached hash |
| Transactions.Transaction.GetSHAData | src/Transaction/Transaction.cpp:88-100 | the digest is SHA-256 applied once to the current unsigned payload |
| Transactions.Transaction.SignData | src/Transaction/Transaction.cpp:67-86 | the signature is the 65-byte signature of the payload digest under the given private key |
| Transactions.Transaction.Sign | src/Transaction/Transaction.cpp:102-116 | appends exactly one program: the single-key script of the derived public key, with the signature as its parameter; earlier programs are kept |
| Transactions.Transaction.MultiSign | src/Transaction/Transaction.cpp:118-141 | with no program: creates one program holding the redeem script and this signature. With exactly one program: appends the signature to its parameter and keeps its script. With several programs: changes nothing |
| Recovery.SignatureChainSnoc | src/Transaction/Transaction.cpp:133-140 | each signature MultiSign adds extends the signature chain of the signers so far by that signer's signature |
| Transactions.MultiSignThenRecover | src/Transaction/Transaction.cpp:118-188 | signers who sign one after the other with MultiSign over one M-of-N redeem script, starting from no program, leave one program: that script and their signatures in signing order. Recovery then returns exactly their public keys as hex, in signing order (with sound signatures and distinct script keys) |
| Recovery.VerifyIdentifiesSigner | src/Transaction/Transaction.cpp:190-195 | Verify decodes the hex key and checks the signature against the digest; with sound signatures and a round-tripping hex codec, a signature verifies against a key's hex text iff that key is the signer's |
| Transactions.Transaction.GetSignedSigner | src/Transaction/Transaction.cpp:143-188 | no signers unless there is exactly one program whose script ends in the multisig marker. Otherwise, for each 65-byte signature in order, every candidate key it verifies against, in script order |
| Transactions.ReadCandidateKeys | src/Transaction/Transaction.cpp:162-167 | reads exactly the length-prefixed keys of the script from offset 1, as hex, in script order |
| Transactions.AppendMatches | src/Transaction/Transaction.cpp:180-184 | appends, in list order, exactly the keys one signature verifies against |
| Recovery.MatchingMembership | src/Transaction/Transaction.cpp:180-184 | a key is matched by a signature iff it is a candidate and the signature verifies against it |
| Recovery.SignedSignersMembership | src/Transaction/Transaction.cpp:176-185 | a key is recovered iff it is a candidate and some signature chunk verifies against it |
| Recovery.RedeemScriptKeys | src/Transaction/Transaction.cpp:157-167 | a redeem script of length-prefixed 33-byte keys ends in the multisig marker, is well framed, and yields exactly its keys as hex, in order |
| Recovery.ChunksOfChain | src/Transaction/Transaction.cpp:176-178 | a parameter made of consecutive signatures is cut back into exactly those signatures |
| Recovery.MatchingOwnKey | src/Transaction/Transaction.cpp:180-184 | with sound signatures and distinct keys, a signature matches only its signer's key, and matches it exactly when that key is listed |
| Recovery.RecoverSigningOrder | src/Transaction/Transaction.cpp:143-188 | with sound signatures, recovery over a parameter signed by listed keys returns exactly those signers' keys, in signing order |
| Transactions.Transaction.GetPrivateKeys | src/Transaction/Transaction.cpp:197-224 | the result is the distinct non-empty private keys of the inputs, in order of first appearance |
| PrivateKeys.DistinctKeysSound | src/Transaction/Transaction.cpp:200-220 | every collected key is non-empty and is some input's key |
| PrivateKeys.DistinctKeysComplete | src/Transaction/Transaction.cpp:200-220 | every non-empty input key is collected |
| PrivateKeys.DistinctKeysNoDuplicates | src/Transaction/Transaction.cpp:209-217 | no key is collected twice |
| PrivateKeys.DistinctKeysFirstSeenOrder | src/Transaction/Transaction.cpp:205-219 | collected keys are ordered by their first occurrence among the inputs |
| PrivateKeys.CollectedKeyLength | src/Transaction/Transaction.cpp:211 | with uniform key lengths, the comparison over the new key's length reads only inside the stored key and compares whole keys |
| Transactions.Transaction.FromJson | src/Transaction/Transaction.cpp:262-354 | appends the record's inputs, outputs and programs. Version 9 is adopted iff some output has version 9, otherwise the version is kept. Appends the imported or defaulted attributes. With "CrossChainAsset", appends the entries numbered from 0 and makes the type a cross-chain transfer; otherwise the type is kept. Lock time, payload version, fee and hash are unchanged |
| Transactions.Transaction.ImportInputs | src/Transaction/Transaction.cpp:264-272 | appends the record's inputs in order |
| Transactions.Transaction.ImportOutputs | src/Transaction/Transaction.cpp:274-281 | appends the record's outputs in order |
| Transactions.Transaction.AdoptOutputVersion | src/Transaction/Transaction.cpp:283-288 | the version becomes 9 iff some output has version 9, otherwise it is unchanged |
| Transactions.Transaction.ImportPrograms | src/Transaction/Transaction.cpp:290-300 | appends the record's programs in order |
| Transactions.Transaction.ImportAttributes | src/Transaction/Transaction.cpp:302-337 | appends the record's attributes, or else the memo/nonce attribute and, with "Postmark", the description |
| Transactions.Transaction.ImportAssets | src/Transaction/Transaction.cpp:339-352 | appends one entry per record, numbered 0, 1, 2, ... |
| Records.GivenAttributesKept | src/Transaction/Transaction.cpp:302-312 | given attributes are imported one for one, in record order |
| Records.DefaultAttributePolicy | src/Transaction/Transaction.cpp:313-337 | without "Attributes": the first attribute carries the memo (Memo iff the memo is non-empty, Nonce iff it is absent or empty); a Description {"Postmark":...} follows iff "Postmark" is present |
| Records.AssetsNumbered | src/Transaction/Transaction.cpp:343-351 | imported cross-chain entries keep their fields and get indices 0, 1, 2, ... in record order |
| Transactions.Transaction.ToJson | src/Transaction/Transaction.cpp:356-402 | inputs and outputs are always exported. "Programs", "Attributes" and "CrossChainAsset" are present iff the lists are non-empty, and hold the lists when present. Memo and postmark are never exported |
| Records.AttributesRoundTrip | src/Transaction/Transaction.cpp:302-337 | exported attributes import back unchanged; an empty list comes back as a single empty nonce |
| Records.ImportExport | src/Transaction/Transaction.cpp:383-390 | importing exported attribute records gives back the attributes |
| Transactions.ExportImport | src/Transaction/Transaction.cpp:262-402 | importing an export gives back the attributes (an empty attribute list becomes one empty nonce) and the cross-chain entries' fields, renumbered from 0. Inputs, outputs and programs come back because their records are identified with the children (an assumption listed under Left out) |
| Attributes.Attribute.Serialize | src/Transaction/Attribute.cpp:4-10 | appends exactly the attribute's encoding |
| Attributes.EncodeLayout | src/Transaction/Attribute.cpp:4-10 | the encoding is the usage byte, then the CompactSize of the data length, then exactly the data |
| Attributes.ParseEncode | src/Transaction/Attribute.cpp:4-10 | an encoded attribute reads back as itself, whatever follows it |
| Attributes.EncodeInjective | src/Transaction/Attribute.cpp:4-10 | two attributes have the same encoding iff they are equal |
| Attributes.FromJson | src/Transaction/Attribute.cpp:12-16 | the usage is taken as given and the data is hex-decoded: data written as the hex of some bytes comes back as exactly those bytes |
| Attributes.Attribute.ToJson | src/Transaction/Attribute.cpp:18-25 | the usage is unchanged and the data is hex-encoded, so decoding the record's data gives the attribute's data back |
| Attributes.JsonRoundTrip | src/Transaction/Attribute.cpp:12-25 | usage and data survive export to a record and import back, given a hex codec that round-trips |
| Attributes.ParseAttributeSectionCounted | src/Transaction/Transaction.cpp:244-247 | a counted attribute section reads back as the same attributes, in order, leaving what follows |
| Payload.HeaderLayout | src/Transaction/Transaction.cpp:228-259 | the payload opens with its header: the version byte iff the version is non-zero, then the type, then the payload version. At least seven bytes follow: three counts of one byte or more and the four-byte lock time |
| Payload.AttributesFollowHeader | src/Transaction/Transaction.cpp:237-247 | without cross-chain entries, the attribute section directly follows the header and reads back as the attributes |
| Payload.CrossChainFollowsHeader | src/Transaction/Transaction.cpp:237-242 | with cross-chain entries, their count directly follows the header, and their serialisations follow the count |
| Payload.LockTimeLast | src/Transaction/Transaction.cpp:259 | the last four payload bytes decode, little-endian, to the lock time |
| Payload.FullSerializationLayout | src/Transaction/Transaction.cpp:56-65 | the signed form starts with the unsigned payload, followed by a readable program count and the programs; with no programs it is the payload plus the byte 0 |
| Wire.VarUintRoundTrip | src/Transaction/Transaction.cpp:238-244 | every size below 2^64 written as a CompactSize varint reads back as itself, leaving what follows |
| Wire.DecodeEncodeLE | src/Transaction/Transaction.cpp:259 | a number written in k little-endian bytes reads back as itself when it fits |

## Left out

- Hashing, ECDSA signing and verification, key derivation, `Utils::getCode`
  and the hex codec are foreign calls. They are parameters (`Crypto`,
  `Hex`), and only their result sizes are fixed. Properties that need them
  to behave state that as a precondition (`SignaturesVerify`,
  `OnlySignerVerifies`, `HexRoundTrips`).
- The byte layouts of inputs, outputs, cross-chain entries and programs
  belong to their own classes, which are not part of this model. Their
  serialisers are parameters (`Codecs`). In a record, an input, output or
  program appears as the child value its own import produces, and a
  cross-chain entry as its fields without the index.
- JSON parsing and printing are not modelled. A record is a value whose
  optional keys are `Option`s, and a postmark is its dumped JSON text.
  `Base64.h` is not part of this model.
- The console and log output of SignData, GetSHAData, MultiSign and
  GetSignedSigner is left out. So is the public key SignData derives only
  to print it.
- The destructor, the failed-allocation checks (`if (program)`) and the
  payload pointer are left out; memory management has no counterpart here.
- `TxOutput` construction with the asset id is left out: outputs arrive
  already built from their records.
- Transactions.Transaction.GetPrivateKeys: requires all non-empty private
  keys to have one length. The source compares |key| bytes with `memcmp`,
  which reads past a shorter stored key and treats a key that is a prefix
  of a stored one as a duplicate. Neither can happen under that
  precondition.
- Transactions.Transaction.GetSignedSigner: requires the one program to
  have a non-empty script. When that script ends in the multisig marker,
  it also requires well-framed key entries and a parameter that is a whole
  number of 65-byte signatures. The source checks none of these and would
  read out of bounds.
- Transactions.Transaction.FromJson: the cross-chain `uint32_t` index is
  an unbounded natural. It cannot wrap below 2^32 entries.
- Transactions.ExportImport: a child's record is identified with the
  child that its import produces. So the claim that inputs, outputs and
  programs come back unchanged holds by construction. It assumes, and
  does not prove, that each child's own `ToJson`/`FromJson` pair
  (`UTXOInput`, `TxOutput`, `Program`, `CrossChainAsset`, not part of this
  model) round-trips, including an input's private key and an output's
  asset id, which the import takes from its `assertId` argument rather
  than from the record. The transaction's own proved logic in this lemma
  is the attribute default (an empty list comes back as one empty nonce)
  and the renumbering of cross-chain entries from 0.
- Wire.VarUint: values of 2^64 and above, which no `size_t` can hold, are
  truncated to 8 bytes. Round trips are proved below 2^64.
