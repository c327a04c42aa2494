/**
 * The transaction engine: a mutable transaction that owns its inputs,
 * outputs, attributes, cross-chain entries and signature programs, writes
 * its canonical payload, caches its content hash, signs (singly or as one
 * of several multisig signers), recovers who signed, collects the private
 * keys its inputs carry, and imports from and exports to a structured record.
 */
module Transactions {
  import opened Wire
  import opened Stream
  import opened Crypto
  import opened Children
  import opened Attributes
  import opened Payload
  import opened Recovery
  import opened PrivateKeys
  import opened Records

  /** The lock time of a new transaction. */
  const TX_LOCKTIME: uint32 := 0

  /** The digest that is signed and verified: the hash of the unsigned payload. */
  function SigningDigest(c: Codecs, crypto: Crypto, b: TxBody): (r: UInt256) {
    crypto.sha256(UnsignedPayload(c, b))
  }

  /** The transaction hash: the hash applied twice to the unsigned payload. */
  function ContentHash(c: Codecs, crypto: Crypto, b: TxBody): (r: UInt256) {
    crypto.sha256(crypto.sha256(UnsignedPayload(c, b)))
  }

  /**
   * Reading the signers of a program stays inside its bytes: the script is
   * non-empty and, when it ends in the multisig marker, its key entries are
   * framed and its parameter is a whole number of signatures.
   */
  predicate RecoverySafe(p: Program) {
    |p.code| > 0 &&
    (p.code[|p.code| - 1] == ELA_MULTISIG ==>
      |p.code| >= 2 && KeysFramedFrom(p.code, 1) && |p.parameter| % SIGNATURE_SCRIPT_LENGTH == 0)
  }

  /** The signers recovered from a program: none unless it is a multisig script. */
  function RecoveredSigners(crypto: Crypto, hex: Hex, digest: UInt256, p: Program): (r: seq<string>)
    requires RecoverySafe(p)
  {
    if p.code[|p.code| - 1] != ELA_MULTISIG then []
    else SignedSigners(crypto, hex, CandidateKeys(hex, p.code), digest, Chunks(p.parameter))
  }

  /** The records of the cross-chain entries: each entry's own fields, in order. */
  function AssetRecords(assets: seq<CrossChainAsset>): (r: seq<Bytes>)
    ensures |r| == |assets|
    ensures forall i :: 0 <= i < |assets| ==> r[i] == assets[i].fields
  {
    if assets == [] then [] else [assets[0].fields] + AssetRecords(assets[1..])
  }

  /** Reads the hex public keys of a redeem script, from offset 1 up to its last two bytes. */
  method ReadCandidateKeys(hex: Hex, code: Bytes) returns (signers: seq<string>)
    requires |code| >= 2 && KeysFramedFrom(code, 1)
    ensures signers == CandidateKeys(hex, code)
  {
    signers := [];
    var i := 1;
    while i < |code| - 2
      invariant KeysFramedFrom(code, i)
      invariant signers + KeysFrom(hex, code, i) == CandidateKeys(hex, code)
      decreases |code| - i
    {
      var size := code[i];
      signers := signers + [hex.encode(code[i + 1..i + 1 + size])];
      i := i + size + 1;
    }
  }

  /** Appends to `acc` every key, in list order, that `signature` verifies against. */
  method AppendMatches(acc: seq<string>, crypto: Crypto, hex: Hex, signers: seq<string>, md: UInt256, signature: Bytes)
    returns (r: seq<string>)
    ensures r == acc + Matching(crypto, hex, signers, md, signature)
  {
    r := acc;
    for k := 0 to |signers|
      invariant r + Matching(crypto, hex, signers[k..], md, signature) == acc + Matching(crypto, hex, signers, md, signature)
    {
      MatchingFrom(crypto, hex, signers, k, md, signature);
      ghost var head := if Verify(crypto, hex, signers[k], md, signature) then [signers[k]] else [];
      AppendAssoc(r, head, Matching(crypto, hex, signers[k + 1..], md, signature));
      if Verify(crypto, hex, signers[k], md, signature) {
        r := r + [signers[k]];
      }
    }
    assert signers[|signers|..] == [];
  }

  class Transaction {
    var version: byte
    var txType: byte
    var payloadVersion: byte
    var lockTime: uint32
    var fee: nat
    /** The cached content hash; ZERO_HASH until it is first computed. */
    var txHash: UInt256
    var inputs: seq<UTXOInput>
    var outputs: seq<TxOutput>
    var attributes: seq<Attribute>
    var crossChainAssets: seq<CrossChainAsset>
    var programs: seq<Program>

    /** A new transfer transaction: version 0, nothing in it, no hash yet. */
    constructor ()
      ensures version == 0 && txType == TRANSFER_ASSET && payloadVersion == 0
      ensures lockTime == TX_LOCKTIME && fee == 0 && txHash == ZERO_HASH
      ensures inputs == [] && outputs == [] && attributes == [] && crossChainAssets == [] && programs == []
    {
      version := 0;
      txType := TRANSFER_ASSET;
      payloadVersion := 0;
      lockTime := TX_LOCKTIME;
      fee := 0;
      txHash := ZERO_HASH;
      inputs := [];
      outputs := [];
      attributes := [];
      crossChainAssets := [];
      programs := [];
    }

    /** The fields the unsigned payload covers. */
    function Body(): (r: TxBody)
      reads this`version, this`txType, this`payloadVersion, this`crossChainAssets
      reads this`attributes, this`inputs, this`outputs, this`lockTime
    {
      TxBody(version, txType, payloadVersion, crossChainAssets, attributes, inputs, outputs, lockTime)
    }

    /** Appends the unsigned payload to `stream`. */
    method SerializeUnsigned(stream: ByteStream, c: Codecs)
      modifies stream
      ensures stream.buffer == old(stream.buffer) + UnsignedPayload(c, Body())
    {
      ghost var b := Body();
      ghost var s0 := stream.buffer;
      if version != 0 {
        stream.Put(version);
      }
      stream.Put(txType);
      stream.Put(payloadVersion);
      ghost var s1 := stream.buffer;
      assert s1 == s0 + Header(b);
      if |crossChainAssets| > 0 {
        stream.PutVarUint(|crossChainAssets|);
        PutAssets(stream, c);
      }
      ghost var s2 := stream.buffer;
      assert s2 == s1 + CrossChainSection(c, crossChainAssets);
      stream.PutVarUint(|attributes|);
      PutAttributes(stream);
      ghost var s3 := stream.buffer;
      AppendAssoc(s2, VarUint(|attributes|), ConcatMap(Encode, attributes));
      stream.PutVarUint(|inputs|);
      PutInputs(stream, c);
      ghost var s4 := stream.buffer;
      AppendAssoc(s3, VarUint(|inputs|), ConcatMap(c.inputBytes, inputs));
      stream.PutVarUint(|outputs|);
      PutOutputs(stream, c);
      ghost var s5 := stream.buffer;
      AppendAssoc(s4, VarUint(|outputs|), ConcatMap(OutputEncoder(c, version), outputs));
      stream.WriteUint32(lockTime);
      ghost var ins, outs, lt := Counted(c.inputBytes, inputs), Counted(OutputEncoder(c, version), outputs), UInt32LE(lockTime);
      AppendAssoc(s3, ins, outs);
      AppendAssoc(s3, ins + outs, lt);
      assert stream.buffer == s3 + InputsOutputsLockTime(c, b);
      ghost var h, x, a := Header(b), CrossChainSection(c, crossChainAssets), Counted(Encode, attributes);
      AppendAssoc(s0, h, x);
      AppendAssoc(s0, h + x, a);
      AppendAssoc(s0, h + x + a, InputsOutputsLockTime(c, b));
    }

    /** The cross-chain entries, in order. */
    method PutAssets(stream: ByteStream, c: Codecs)
      modifies stream
      ensures stream.buffer == old(stream.buffer) + ConcatMap(c.assetBytes, crossChainAssets)
    {
      ghost var m := stream.buffer;
      for i := 0 to |crossChainAssets|
        invariant stream.buffer + ConcatMap(c.assetBytes, crossChainAssets[i..])
                  == m + ConcatMap(c.assetBytes, crossChainAssets)
      {
        ConcatMapFrom(c.assetBytes, crossChainAssets, i);
        stream.PutBytes(c.assetBytes(crossChainAssets[i]));
      }
      assert crossChainAssets[|crossChainAssets|..] == [];
    }

    /** The attributes, in order. */
    method PutAttributes(stream: ByteStream)
      modifies stream
      ensures stream.buffer == old(stream.buffer) + ConcatMap(Encode, attributes)
    {
      ghost var m := stream.buffer;
      for i := 0 to |attributes|
        invariant stream.buffer + ConcatMap(Encode, attributes[i..]) == m + ConcatMap(Encode, attributes)
      {
        ConcatMapFrom(Encode, attributes, i);
        attributes[i].Serialize(stream);
      }
      assert attributes[|attributes|..] == [];
    }

    /** The inputs, in order. */
    method PutInputs(stream: ByteStream, c: Codecs)
      modifies stream
      ensures stream.buffer == old(stream.buffer) + ConcatMap(c.inputBytes, inputs)
    {
      ghost var m := stream.buffer;
      for i := 0 to |inputs|
        invariant stream.buffer + ConcatMap(c.inputBytes, inputs[i..]) == m + ConcatMap(c.inputBytes, inputs)
      {
        ConcatMapFrom(c.inputBytes, inputs, i);
        stream.PutBytes(c.inputBytes(inputs[i]));
      }
      assert inputs[|inputs|..] == [];
    }

    /** The outputs, in order, each told the transaction version. */
    method PutOutputs(stream: ByteStream, c: Codecs)
      modifies stream
      ensures stream.buffer == old(stream.buffer) + ConcatMap(OutputEncoder(c, version), outputs)
    {
      ghost var m := stream.buffer;
      ghost var f := OutputEncoder(c, version);
      for i := 0 to |outputs|
        invariant stream.buffer + ConcatMap(f, outputs[i..]) == m + ConcatMap(f, outputs)
      {
        ConcatMapFrom(f, outputs, i);
        assert f(outputs[i]) == c.outputBytes(outputs[i], version);
        stream.PutBytes(c.outputBytes(outputs[i], version));
      }
      assert outputs[|outputs|..] == [];
    }

    /** Appends the signed transaction: the unsigned payload, then the counted programs. */
    method Serialize(stream: ByteStream, c: Codecs)
      modifies stream
      ensures stream.buffer == old(stream.buffer) + FullSerialization(c, Body(), programs)
    {
      ghost var s0 := stream.buffer;
      SerializeUnsigned(stream, c);
      ghost var s1 := stream.buffer;
      stream.PutVarUint(|programs|);
      PutPrograms(stream, c);
      AppendAssoc(s1, VarUint(|programs|), ConcatMap(c.programBytes, programs));
      AppendAssoc(s0, UnsignedPayload(c, Body()), Counted(c.programBytes, programs));
    }

    /** The programs, in order. */
    method PutPrograms(stream: ByteStream, c: Codecs)
      modifies stream
      ensures stream.buffer == old(stream.buffer) + ConcatMap(c.programBytes, programs)
    {
      ghost var m := stream.buffer;
      for i := 0 to |programs|
        invariant stream.buffer + ConcatMap(c.programBytes, programs[i..]) == m + ConcatMap(c.programBytes, programs)
      {
        ConcatMapFrom(c.programBytes, programs, i);
        stream.PutBytes(c.programBytes(programs[i]));
      }
      assert programs[|programs|..] == [];
    }

    /**
     * The content hash, computed from the unsigned payload on first use and
     * cached; a cached (non-zero) hash is returned as it is, even if the
     * transaction changed since.
     */
    method GetHash(c: Codecs, crypto: Crypto) returns (h: UInt256)
      modifies this`txHash
      ensures old(txHash) != ZERO_HASH ==> txHash == old(txHash)
      ensures old(txHash) == ZERO_HASH ==> txHash == ContentHash(c, crypto, Body())
      ensures h == txHash
    {
      if txHash == ZERO_HASH {
        var stream := new ByteStream();
        SerializeUnsigned(stream, c);
        assert stream.buffer == UnsignedPayload(c, Body());
        txHash := crypto.sha256(crypto.sha256(stream.buffer));
      }
      h := txHash;
    }

    /** The digest of the unsigned payload, recomputed on every call. */
    method GetSHAData(c: Codecs, crypto: Crypto) returns (digest: UInt256)
      ensures digest == SigningDigest(c, crypto, Body())
    {
      var stream := new ByteStream();
      SerializeUnsigned(stream, c);
      assert stream.buffer == UnsignedPayload(c, Body());
      digest := crypto.sha256(stream.buffer);
    }

    /** The 65-byte signature of the current payload digest with `privateKey`. */
    method SignData(privateKey: Bytes, c: Codecs, crypto: Crypto) returns (signedData: Signature)
      ensures signedData == crypto.sign(privateKey, SigningDigest(c, crypto, Body()))
    {
      var shaData := GetSHAData(c, crypto);
      signedData := crypto.sign(privateKey, shaData);
    }

    /** Appends a single-signature program: the key's script and the signature. */
    method Sign(privateKey: Bytes, c: Codecs, crypto: Crypto)
      modifies this`programs
      ensures programs == old(programs) +
        [Program(crypto.getCode(crypto.pubKey(privateKey)), crypto.sign(privateKey, SigningDigest(c, crypto, Body())))]
    {
      var signedData := SignData(privateKey, c, crypto);
      var publicKey := crypto.pubKey(privateKey);
      var code := crypto.getCode(publicKey);
      programs := programs + [Program(code, signedData)];
    }

    /**
     * Adds one signature to the unique multisig program, creating it with
     * `redeemScript` and no signatures when there is no program yet.  With
     * more than one program nothing changes.
     */
    method MultiSign(privateKey: Bytes, redeemScript: Bytes, c: Codecs, crypto: Crypto)
      modifies this`programs
      ensures old(|programs|) > 1 ==> programs == old(programs)
      ensures old(|programs|) == 0 ==>
        programs == [Program(redeemScript, crypto.sign(privateKey, SigningDigest(c, crypto, Body())))]
      ensures old(|programs|) == 1 ==>
        programs == [Program(old(programs[0].code),
                             old(programs[0].parameter) + crypto.sign(privateKey, SigningDigest(c, crypto, Body())))]
    {
      if |programs| == 0 {
        programs := programs + [Program(redeemScript, [])];
      }
      if |programs| != 1 {
        return;
      }
      var stream := new ByteStream();
      if |programs[0].parameter| > 0 {
        stream.PutBytes(programs[0].parameter);
      }
      var signedData := SignData(privateKey, c, crypto);
      stream.PutBytes(signedData);
      assert stream.buffer == programs[0].parameter + signedData;
      assert programs[0].parameter == [] ==> stream.buffer == signedData;
      programs := programs[0 := programs[0].(parameter := stream.buffer)];
    }

    /**
     * The hex public keys whose signatures the unique multisig program
     * holds: for each 65-byte signature in turn, every candidate key of the
     * redeem script it verifies against.  None when there is not exactly one
     * program or the program is not a multisig script.
     */
    method GetSignedSigner(c: Codecs, crypto: Crypto, hex: Hex) returns (signedSigners: seq<string>)
      requires |programs| == 1 ==> RecoverySafe(programs[0])
      ensures |programs| != 1 ==> signedSigners == []
      ensures |programs| == 1 ==>
        signedSigners == RecoveredSigners(crypto, hex, SigningDigest(c, crypto, Body()), programs[0])
    {
      if |programs| > 1 {
        return [];
      }
      if |programs| == 0 {
        return [];
      }
      var program := programs[0];
      var code := program.code;
      if code[|code| - 1] != ELA_MULTISIG {
        return [];
      }

      var signers := ReadCandidateKeys(hex, code);

      var md := GetSHAData(c, crypto);
      var parameter := program.parameter;
      ghost var all := SignedSigners(crypto, hex, signers, md, Chunks(parameter));
      signedSigners := [];
      var j := 0;
      while j < |parameter|
        invariant 0 <= j <= |parameter| && (|parameter| - j) % SIGNATURE_SCRIPT_LENGTH == 0
        invariant signedSigners + SignedSigners(crypto, hex, signers, md, Chunks(parameter[j..])) == all
        decreases |parameter| - j
      {
        SignedSignersFrom(crypto, hex, signers, md, parameter, j);
        var signature := parameter[j..j + SIGNATURE_SCRIPT_LENGTH];
        ghost var later := SignedSigners(crypto, hex, signers, md, Chunks(parameter[j + SIGNATURE_SCRIPT_LENGTH..]));
        AppendAssoc(signedSigners, Matching(crypto, hex, signers, md, signature), later);
        signedSigners := AppendMatches(signedSigners, crypto, hex, signers, md, signature);
        j := j + SIGNATURE_SCRIPT_LENGTH;
      }
      assert parameter[j..] == [];
      assert signedSigners == all;
    }

    /**
     * The distinct non-empty private keys of the inputs, in order of first
     * appearance.  A stored key is compared over the new key's length, which
     * compares whole keys when all keys have one length.
     */
    method GetPrivateKeys() returns (privateKeys: seq<Bytes>)
      requires UniformKeyLength(inputs)
      ensures privateKeys == DistinctKeys(inputs)
    {
      privateKeys := [];
      for n := 0 to |inputs|
        invariant privateKeys == DistinctKeys(inputs[..n])
      {
        var key := inputs[n].privateKey;
        assert inputs[..n + 1][..n] == inputs[..n];
        assert inputs[..n + 1][n] == inputs[n];
        if |key| == 0 {
          continue;
        }
        if |privateKeys| == 0 {
          privateKeys := privateKeys + [key];
        } else {
          CollectedKeyLength(inputs, n);
          var found := false;
          var i := 0;
          while i < |privateKeys|
            invariant 0 <= i <= |privateKeys|
            invariant !found
            invariant forall m :: 0 <= m < i ==> privateKeys[m] != key
          {
            if PrefixMatch(privateKeys[i], key) {
              found := true;
              break;
            }
            i := i + 1;
          }
          if found {
            assert privateKeys[i] == key;
            continue;
          }
          assert key !in privateKeys;
          privateKeys := privateKeys + [key];
        }
      }
      assert inputs[..|inputs|] == inputs;
    }

    /**
     * Imports a record into this transaction: appends its inputs and outputs
     * (version 9 when any output is of version 9), its programs, its
     * attributes or the defaults for them, and its cross-chain entries
     * numbered in record order, which make it a cross-chain transfer.
     */
    method FromJson(rec: TxRecord, hex: Hex)
      modifies this
      ensures inputs == old(inputs) + rec.utxoInputs
      ensures outputs == old(outputs) + rec.outputs
      ensures (exists i :: 0 <= i < |outputs| && outputs[i].version == 9) ==> version == 9
      ensures (forall i :: 0 <= i < |outputs| ==> outputs[i].version != 9) ==> version == old(version)
      ensures programs == old(programs) + rec.programs.GetOr([])
      ensures attributes == old(attributes) + ImportedAttributes(rec, hex)
      ensures txType == if rec.crossChainAsset.Some? then TRANSFER_CROSS_CHAIN_ASSET else old(txType)
      ensures crossChainAssets == old(crossChainAssets) + AssetsFrom(rec.crossChainAsset.GetOr([]), 0)
      ensures payloadVersion == old(payloadVersion) && lockTime == old(lockTime)
      ensures fee == old(fee) && txHash == old(txHash)
    {
      ImportInputs(rec.utxoInputs);
      ImportOutputs(rec.outputs);
      AdoptOutputVersion();
      if rec.programs.Some? {
        ImportPrograms(rec.programs.value);
      }
      ImportAttributes(rec, hex);
      if rec.crossChainAsset.Some? {
        txType := TRANSFER_CROSS_CHAIN_ASSET;
        ImportAssets(rec.crossChainAsset.value);
      }
    }

    method ImportInputs(recs: seq<UTXOInput>)
      modifies this`inputs
      ensures inputs == old(inputs) + recs
    {
      for i := 0 to |recs|
        invariant inputs == old(inputs) + recs[..i]
      {
        inputs := inputs + [recs[i]];
      }
      assert recs[..|recs|] == recs;
    }

    method ImportOutputs(recs: seq<TxOutput>)
      modifies this`outputs
      ensures outputs == old(outputs) + recs
    {
      for i := 0 to |recs|
        invariant outputs == old(outputs) + recs[..i]
      {
        outputs := outputs + [recs[i]];
      }
      assert recs[..|recs|] == recs;
    }

    /** The transaction becomes version 9 when any of its outputs is of version 9. */
    method AdoptOutputVersion()
      modifies this`version
      ensures (exists i :: 0 <= i < |outputs| && outputs[i].version == 9) ==> version == 9
      ensures (forall i :: 0 <= i < |outputs| ==> outputs[i].version != 9) ==> version == old(version)
    {
      var k := 0;
      while k < |outputs|
        invariant 0 <= k <= |outputs|
        invariant forall m :: 0 <= m < k ==> outputs[m].version != 9
        invariant version == old(version)
      {
        if outputs[k].version == 9 {
          version := 9;
          assert outputs[k].version == 9;
          break;
        }
        k := k + 1;
      }
    }

    method ImportPrograms(recs: seq<Program>)
      modifies this`programs
      ensures programs == old(programs) + recs
    {
      for i := 0 to |recs|
        invariant programs == old(programs) + recs[..i]
      {
        programs := programs + [recs[i]];
      }
      assert recs[..|recs|] == recs;
    }

    /**
     * Appends the record's attributes when it has "Attributes"; otherwise a
     * memo (or nonce) attribute and, with "Postmark", a description.
     */
    method ImportAttributes(rec: TxRecord, hex: Hex)
      modifies this`attributes
      ensures attributes == old(attributes) + ImportedAttributes(rec, hex)
    {
      if rec.attributes.Some? {
        var recs := rec.attributes.value;
        for i := 0 to |recs|
          invariant attributes + AttributesFromJson(recs[i..], hex) == old(attributes) + AttributesFromJson(recs, hex)
        {
          assert recs[i..][1..] == recs[i + 1..];
          AppendAssoc(attributes, [Attributes.FromJson(recs[i], hex)], AttributesFromJson(recs[i + 1..], hex));
          attributes := attributes + [Attributes.FromJson(recs[i], hex)];
        }
        assert recs[|recs|..] == [];
      } else {
        var memo: Bytes := [];
        if rec.memo.Some? {
          memo := rec.memo.value;
        }
        attributes := attributes + [Attribute(if |memo| == 0 then NONCE else MEMO, memo)];
        if rec.postmark.Some? {
          var postmark := PostmarkText(rec.postmark.value);
          attributes := attributes + [Attribute(DESCRIPTION, postmark)];
        }
      }
    }

    /** Appends cross-chain entries built from their records, numbered 0, 1, 2, ... */
    method ImportAssets(recs: seq<Bytes>)
      modifies this`crossChainAssets
      ensures crossChainAssets == old(crossChainAssets) + AssetsFrom(recs, 0)
    {
      var index := 0;
      for i := 0 to |recs|
        invariant index == i
        invariant crossChainAssets + AssetsFrom(recs[i..], index) == old(crossChainAssets) + AssetsFrom(recs, 0)
      {
        assert recs[i..][1..] == recs[i + 1..];
        AppendAssoc(crossChainAssets, [CrossChainAsset(index, recs[i])], AssetsFrom(recs[i + 1..], index + 1));
        crossChainAssets := crossChainAssets + [CrossChainAsset(index, recs[i])];
        index := index + 1;
      }
      assert recs[|recs|..] == [];
    }

    /**
     * Exports this transaction: inputs and outputs always; programs,
     * attributes and cross-chain entries only when there are any.  Memo and
     * postmark are never exported; they live on in the attributes.
     */
    function ToJson(hex: Hex): (r: TxRecord)
      reads this
      ensures r.utxoInputs == inputs && r.outputs == outputs
      ensures r.programs.Some? <==> |programs| > 0
      ensures r.programs.Some? ==> r.programs.value == programs
      ensures r.attributes == ExportAttributes(attributes, hex)
      ensures r.crossChainAsset.Some? <==> |crossChainAssets| > 0
      ensures r.crossChainAsset.Some? ==> r.crossChainAsset.value == AssetRecords(crossChainAssets)
      ensures r.memo.None? && r.postmark.None?
    {
      TxRecord(inputs, outputs,
        if |programs| > 0 then Some(programs) else None,
        ExportAttributes(attributes, hex),
        None, None,
        if |crossChainAssets| > 0 then Some(AssetRecords(crossChainAssets)) else None)
    }
  }

  /**
   * Multisig signing and recovery together.  Signers sign a transaction
   * that has no program yet, one after the other, with MultiSign over one
   * M-of-N redeem script.  The transaction then holds one program: that
   * script, and the signers' signatures over the payload digest in signing
   * order (65 bytes each).  Signer recovery lists exactly the signers'
   * public keys, as hex, in signing order.
   */
  method MultiSignThenRecover(t: Transaction, c: Codecs, crypto: Crypto, hex: Hex,
                              m: byte, keys: seq<PubKey>, n: byte, signers: seq<Bytes>)
    returns (recovered: seq<string>)
    requires t.programs == []
    requires SignaturesVerify(crypto) && OnlySignerVerifies(crypto) && HexRoundTrips(hex)
    requires forall i, j :: 0 <= i < j < |keys| ==> keys[i] != keys[j]
    requires forall i :: 0 <= i < |signers| ==> crypto.pubKey(signers[i]) in keys
    modifies t`programs
    ensures t.programs == if signers == [] then []
      else [Program(RedeemScript(m, keys, n), SignatureChain(crypto, signers, SigningDigest(c, crypto, t.Body())))]
    ensures recovered == EncodedKeys(hex, PublicKeys(crypto, signers))
  {
    var redeemScript := RedeemScript(m, keys, n);
    ghost var d := SigningDigest(c, crypto, t.Body());
    for i := 0 to |signers|
      invariant t.programs == if i == 0 then [] else [Program(redeemScript, SignatureChain(crypto, signers[..i], d))]
      invariant SigningDigest(c, crypto, t.Body()) == d
    {
      ghost var before := SignatureChain(crypto, signers[..i], d);
      t.MultiSign(signers[i], redeemScript, c, crypto);
      assert signers[..i + 1] == signers[..i] + [signers[i]];
      SignatureChainSnoc(crypto, signers[..i], signers[i], d);
      if i == 0 {
        assert before == [];
        assert SignatureChain(crypto, signers[..i + 1], d) == crypto.sign(signers[i], d);
      }
      assert t.programs == [Program(redeemScript, before + crypto.sign(signers[i], d))];
    }
    assert signers[..|signers|] == signers;
    RedeemScriptKeys(hex, m, keys, n);
    RecoverSigningOrder(crypto, hex, keys, signers, d);
    recovered := t.GetSignedSigner(c, crypto, hex);
  }

  /**
   * What an import of this transaction's export brings back: the inputs,
   * outputs and programs as they are, the attributes as they are (an empty
   * list becomes a single empty nonce), and the cross-chain entries with
   * their fields, renumbered 0, 1, 2, ...  A record holds each input, output
   * and program as the child its import produces, so the first three hold
   * by construction; the children's own record round trips are assumed.
   */
  lemma ExportImport(t: Transaction, hex: Hex)
    requires HexRoundTrips(hex)
    ensures var r := t.ToJson(hex);
      && r.utxoInputs == t.inputs && r.outputs == t.outputs
      && r.programs.GetOr([]) == t.programs
      && ImportedAttributes(r, hex) == (if |t.attributes| > 0 then t.attributes else [Attribute(NONCE, [])])
      && |AssetsFrom(r.crossChainAsset.GetOr([]), 0)| == |t.crossChainAssets|
      && forall i :: 0 <= i < |t.crossChainAssets| ==>
           AssetsFrom(r.crossChainAsset.GetOr([]), 0)[i] == CrossChainAsset(i, t.crossChainAssets[i].fields)
  {
    var r := t.ToJson(hex);
    AttributesRoundTrip(t.attributes, hex, r);
    AssetsNumbered(r.crossChainAsset.GetOr([]), 0);
  }
}
