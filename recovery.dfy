/**
 * Signer recovery for a multisig program: the candidate public keys listed
 * in its redeem script, the 65-byte signature chunks of its parameter, and
 * which (chunk, key) pairs verify against the signing digest.
 */
module Recovery {
  import opened Wire
  import opened Crypto

  /** The trailing byte of a multisig redeem script (OP_CHECKMULTISIG). */
  const ELA_MULTISIG: byte := 0xAE

  /**
   * Reading keys from offset `i` stays inside `code`: each length byte at an
   * offset before the last two bytes is followed by that many key bytes.
   */
  predicate KeysFramedFrom(code: Bytes, i: nat)
    decreases |code| - i
  {
    i >= |code| - 2 || (i + 1 + code[i] <= |code| && KeysFramedFrom(code, i + 1 + code[i]))
  }

  /** The hex text of each length-prefixed key from offset `i` up to the last two bytes. */
  function KeysFrom(hex: Hex, code: Bytes, i: nat): (r: seq<string>)
    requires KeysFramedFrom(code, i)
    decreases |code| - i
  {
    if i >= |code| - 2 then []
    else [hex.encode(code[i + 1..i + 1 + code[i]])] + KeysFrom(hex, code, i + 1 + code[i])
  }

  /** The candidate signers of a redeem script: its keys, read from offset 1. */
  function CandidateKeys(hex: Hex, code: Bytes): (r: seq<string>)
    requires KeysFramedFrom(code, 1)
  {
    KeysFrom(hex, code, 1)
  }

  /** The parameter cut into consecutive 65-byte signatures. */
  function Chunks(parameter: Bytes): (r: seq<Bytes>)
    requires |parameter| % SIGNATURE_SCRIPT_LENGTH == 0
    decreases |parameter|
  {
    if |parameter| == 0 then []
    else [parameter[..SIGNATURE_SCRIPT_LENGTH]] + Chunks(parameter[SIGNATURE_SCRIPT_LENGTH..])
  }

  /** Verification of a signature against a hex-encoded public key. */
  function Verify(c: Crypto, hex: Hex, publicKey: string, digest: UInt256, signature: Bytes): (r: bool) {
    c.verify(hex.decode(publicKey), digest, signature)
  }

  /** The keys, in list order, that a single signature verifies against. */
  function Matching(c: Crypto, hex: Hex, keys: seq<string>, digest: UInt256, chunk: Bytes): (r: seq<string>) {
    if keys == [] then []
    else
      var head := if Verify(c, hex, keys[0], digest, chunk) then [keys[0]] else [];
      head + Matching(c, hex, keys[1..], digest, chunk)
  }

  /** One entry per verifying (chunk, key) pair, chunk-major, then in key order. */
  function SignedSigners(c: Crypto, hex: Hex, keys: seq<string>, digest: UInt256, chunks: seq<Bytes>): (r: seq<string>) {
    if chunks == [] then []
    else Matching(c, hex, keys, digest, chunks[0]) + SignedSigners(c, hex, keys, digest, chunks[1..])
  }

  /**
   * With sound signatures and a hex codec that round-trips, a signature over
   * `digest` verifies against the hex text of a public key exactly when that
   * key is the signer's.
   */
  lemma VerifyIdentifiesSigner(c: Crypto, hex: Hex, pk: Bytes, k: Bytes, digest: UInt256)
    requires SignaturesVerify(c) && OnlySignerVerifies(c) && HexRoundTrips(hex)
    ensures Verify(c, hex, hex.encode(pk), digest, c.sign(k, digest)) <==> pk == c.pubKey(k)
  {
    assert hex.decode(hex.encode(pk)) == pk;
  }

  /** Matching from key `k` on: key `k` when the signature verifies against it, then the later matches. */
  lemma MatchingFrom(c: Crypto, hex: Hex, keys: seq<string>, k: nat, digest: UInt256, chunk: Bytes)
    requires k < |keys|
    ensures Matching(c, hex, keys[k..], digest, chunk)
      == (if Verify(c, hex, keys[k], digest, chunk) then [keys[k]] else []) + Matching(c, hex, keys[k + 1..], digest, chunk)
  {
    assert keys[k..][1..] == keys[k + 1..];
  }

  /** Recovery from byte `j` on: the matches of the chunk at `j`, then those of the later chunks. */
  lemma SignedSignersFrom(c: Crypto, hex: Hex, keys: seq<string>, digest: UInt256, parameter: Bytes, j: nat)
    requires j < |parameter| && (|parameter| - j) % SIGNATURE_SCRIPT_LENGTH == 0
    ensures j + SIGNATURE_SCRIPT_LENGTH <= |parameter|
    ensures (|parameter| - (j + SIGNATURE_SCRIPT_LENGTH)) % SIGNATURE_SCRIPT_LENGTH == 0
    ensures SignedSigners(c, hex, keys, digest, Chunks(parameter[j..]))
      == Matching(c, hex, keys, digest, parameter[j..j + SIGNATURE_SCRIPT_LENGTH])
         + SignedSigners(c, hex, keys, digest, Chunks(parameter[j + SIGNATURE_SCRIPT_LENGTH..]))
  {
    assert parameter[j..][..SIGNATURE_SCRIPT_LENGTH] == parameter[j..j + SIGNATURE_SCRIPT_LENGTH];
    assert parameter[j..][SIGNATURE_SCRIPT_LENGTH..] == parameter[j + SIGNATURE_SCRIPT_LENGTH..];
  }

  /** A key is matched by a signature exactly when it is a candidate and the signature verifies against it. */
  lemma {:induction false} MatchingMembership(c: Crypto, hex: Hex, keys: seq<string>, digest: UInt256, chunk: Bytes, s: string)
    ensures s in Matching(c, hex, keys, digest, chunk) <==> s in keys && Verify(c, hex, s, digest, chunk)
  {
    if keys != [] {
      MatchingMembership(c, hex, keys[1..], digest, chunk, s);
      assert s in keys <==> s == keys[0] || s in keys[1..];
    }
  }

  /**
   * Every recovered signer is a candidate key, and a candidate key is
   * recovered exactly when some chunk verifies against it.
   */
  lemma {:induction false} SignedSignersMembership(c: Crypto, hex: Hex, keys: seq<string>, digest: UInt256, chunks: seq<Bytes>, s: string)
    ensures s in SignedSigners(c, hex, keys, digest, chunks)
      <==> s in keys && exists j :: 0 <= j < |chunks| && Verify(c, hex, s, digest, chunks[j])
  {
    if chunks != [] {
      MatchingMembership(c, hex, keys, digest, chunks[0], s);
      SignedSignersMembership(c, hex, keys, digest, chunks[1..], s);
      if s in keys && exists j :: 0 <= j < |chunks| && Verify(c, hex, s, digest, chunks[j]) {
        var j :| 0 <= j < |chunks| && Verify(c, hex, s, digest, chunks[j]);
        if j > 0 {
          assert chunks[1..][j - 1] == chunks[j];
        }
      }
      if exists j :: 0 <= j < |chunks[1..]| && Verify(c, hex, s, digest, chunks[1..][j]) {
        var j :| 0 <= j < |chunks[1..]| && Verify(c, hex, s, digest, chunks[1..][j]);
        assert chunks[j + 1] == chunks[1..][j];
      }
    }
  }

  /** The redeem-script entries of `keys`: each key preceded by its length. */
  function KeyEntries(keys: seq<PubKey>): (r: Bytes) {
    if keys == [] then [] else [33] + keys[0] + KeyEntries(keys[1..])
  }

  /** An M-of-N redeem script: the threshold byte, the keys, the count byte and the multisig marker. */
  function RedeemScript(m: byte, keys: seq<PubKey>, n: byte): (r: Bytes) {
    [m] + KeyEntries(keys) + [n, ELA_MULTISIG]
  }

  function EncodedKeys(hex: Hex, keys: seq<Bytes>): (r: seq<string>)
    ensures |r| == |keys|
  {
    if keys == [] then [] else [hex.encode(keys[0])] + EncodedKeys(hex, keys[1..])
  }

  lemma {:induction false} KeysFromEntries(hex: Hex, pre: Bytes, keys: seq<PubKey>, tail: Bytes)
    requires |tail| == 2
    decreases |keys|
    ensures KeysFramedFrom(pre + KeyEntries(keys) + tail, |pre|)
    ensures KeysFrom(hex, pre + KeyEntries(keys) + tail, |pre|) == EncodedKeys(hex, keys)
  {
    var code := pre + KeyEntries(keys) + tail;
    if keys != [] {
      var pre' := pre + [33] + keys[0];
      assert code == pre' + KeyEntries(keys[1..]) + tail;
      assert code[|pre|] == 33;
      assert code[|pre| + 1..|pre| + 34] == keys[0];
      KeysFromEntries(hex, pre', keys[1..], tail);
    }
  }

  /** The candidate keys of a well-formed redeem script are its keys, in script order, as hex. */
  lemma RedeemScriptKeys(hex: Hex, m: byte, keys: seq<PubKey>, n: byte)
    ensures var code := RedeemScript(m, keys, n);
      && code[|code| - 1] == ELA_MULTISIG
      && KeysFramedFrom(code, 1)
      && CandidateKeys(hex, code) == EncodedKeys(hex, keys)
  {
    KeysFromEntries(hex, [m], keys, [n, ELA_MULTISIG]);
  }

  /** The parameter a sequence of signers accumulates: their signatures over `digest`, in order. */
  function SignatureChain(c: Crypto, signers: seq<Bytes>, digest: UInt256): (r: Bytes)
    ensures |r| == SIGNATURE_SCRIPT_LENGTH * |signers|
  {
    if signers == [] then [] else c.sign(signers[0], digest) + SignatureChain(c, signers[1..], digest)
  }

  /** Adding one more signer appends that signer's signature to the chain. */
  lemma {:induction false} SignatureChainSnoc(c: Crypto, signers: seq<Bytes>, k: Bytes, digest: UInt256)
    ensures SignatureChain(c, signers + [k], digest) == SignatureChain(c, signers, digest) + c.sign(k, digest)
  {
    if signers == [] {
      assert signers + [k] == [k];
    } else {
      assert (signers + [k])[1..] == signers[1..] + [k];
      SignatureChainSnoc(c, signers[1..], k, digest);
      AppendAssoc(c.sign(signers[0], digest), SignatureChain(c, signers[1..], digest), c.sign(k, digest));
    }
  }

  lemma {:induction false} ChunksOfChain(c: Crypto, signers: seq<Bytes>, digest: UInt256)
    ensures |SignatureChain(c, signers, digest)| % SIGNATURE_SCRIPT_LENGTH == 0
    ensures var chunks := Chunks(SignatureChain(c, signers, digest));
      |chunks| == |signers| && forall i :: 0 <= i < |signers| ==> chunks[i] == c.sign(signers[i], digest)
  {
    if signers != [] {
      var chain := SignatureChain(c, signers, digest);
      assert chain[..SIGNATURE_SCRIPT_LENGTH] == c.sign(signers[0], digest);
      assert chain[SIGNATURE_SCRIPT_LENGTH..] == SignatureChain(c, signers[1..], digest);
      ChunksOfChain(c, signers[1..], digest);
    }
  }

  /** With ideal signatures, a signature by a listed key matches that key and no other listed key. */
  lemma {:induction false} MatchingOwnKey(c: Crypto, hex: Hex, keys: seq<PubKey>, k: Bytes, digest: UInt256)
    requires SignaturesVerify(c) && OnlySignerVerifies(c) && HexRoundTrips(hex)
    requires forall i, j :: 0 <= i < j < |keys| ==> keys[i] != keys[j]
    ensures c.pubKey(k) in keys ==>
      Matching(c, hex, EncodedKeys(hex, keys), digest, c.sign(k, digest)) == [hex.encode(c.pubKey(k))]
    ensures c.pubKey(k) !in keys ==>
      Matching(c, hex, EncodedKeys(hex, keys), digest, c.sign(k, digest)) == []
  {
    if keys != [] {
      VerifyIdentifiesSigner(c, hex, keys[0], k, digest);
      MatchingOwnKey(c, hex, keys[1..], k, digest);
      if keys[0] == c.pubKey(k) {
        assert c.pubKey(k) !in keys[1..];
      }
    }
  }

  function PublicKeys(c: Crypto, signers: seq<Bytes>): (r: seq<PubKey>)
    ensures |r| == |signers|
  {
    if signers == [] then [] else [c.pubKey(signers[0])] + PublicKeys(c, signers[1..])
  }

  /**
   * With ideal signatures, recovery over a parameter signed by `signers`
   * (each holding one of the script's distinct keys) lists exactly those
   * signers' keys, in signing order.
   */
  lemma {:induction false} RecoverSigningOrder(c: Crypto, hex: Hex, keys: seq<PubKey>, signers: seq<Bytes>, digest: UInt256)
    requires SignaturesVerify(c) && OnlySignerVerifies(c) && HexRoundTrips(hex)
    requires forall i, j :: 0 <= i < j < |keys| ==> keys[i] != keys[j]
    requires forall i :: 0 <= i < |signers| ==> c.pubKey(signers[i]) in keys
    ensures var chain := SignatureChain(c, signers, digest);
      |chain| % SIGNATURE_SCRIPT_LENGTH == 0
      && SignedSigners(c, hex, EncodedKeys(hex, keys), digest, Chunks(chain))
         == EncodedKeys(hex, PublicKeys(c, signers))
  {
    var chain := SignatureChain(c, signers, digest);
    ChunksOfChain(c, signers, digest);
    if signers != [] {
      assert chain[SIGNATURE_SCRIPT_LENGTH..] == SignatureChain(c, signers[1..], digest);
      assert chain[..SIGNATURE_SCRIPT_LENGTH] == c.sign(signers[0], digest);
      MatchingOwnKey(c, hex, keys, signers[0], digest);
      RecoverSigningOrder(c, hex, keys, signers[1..], digest);
    }
  }
}
