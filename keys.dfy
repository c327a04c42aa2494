/**
 * The private keys that must sign a transaction: the distinct non-empty keys
 * its inputs carry, in the order they are first seen.
 */
module PrivateKeys {
  import opened Wire
  import opened Children

  /** The comparison the collector makes: the stored key begins with `key` (memcmp over |key| bytes). */
  predicate PrefixMatch(stored: Bytes, key: Bytes) {
    |key| <= |stored| && stored[..|key|] == key
  }

  /** All non-empty private keys of the inputs have the same length. */
  predicate UniformKeyLength(inputs: seq<UTXOInput>) {
    forall i, j :: 0 <= i < |inputs| && 0 <= j < |inputs|
      && |inputs[i].privateKey| > 0 && |inputs[j].privateKey| > 0
      ==> |inputs[i].privateKey| == |inputs[j].privateKey|
  }

  /** `key` is the private key of one of the first `j` inputs. */
  predicate KeyOccurs(inputs: seq<UTXOInput>, key: Bytes, j: int) {
    exists i :: 0 <= i < j && i < |inputs| && inputs[i].privateKey == key
  }

  /** The distinct non-empty private keys of `inputs`, in order of first appearance. */
  function DistinctKeys(inputs: seq<UTXOInput>): (r: seq<Bytes>)
  {
    if inputs == [] then []
    else
      var seen := DistinctKeys(inputs[..|inputs| - 1]);
      var key := inputs[|inputs| - 1].privateKey;
      if |key| == 0 || key in seen then seen else seen + [key]
  }

  /** Every collected key is non-empty and is the key of some input. */
  lemma {:induction false} DistinctKeysSound(inputs: seq<UTXOInput>)
    ensures forall a :: 0 <= a < |DistinctKeys(inputs)| ==>
      |DistinctKeys(inputs)[a]| > 0 && KeyOccurs(inputs, DistinctKeys(inputs)[a], |inputs|)
  {
    if inputs != [] {
      var pre := inputs[..|inputs| - 1];
      var seen := DistinctKeys(pre);
      DistinctKeysSound(pre);
      var r := DistinctKeys(inputs);
      forall a | 0 <= a < |r| ensures |r[a]| > 0 && KeyOccurs(inputs, r[a], |inputs|) {
        if a < |seen| {
          assert r[a] == seen[a];
          assert KeyOccurs(pre, seen[a], |pre|);
          var i :| 0 <= i < |pre| && pre[i].privateKey == seen[a];
          assert inputs[i] == pre[i];
        } else {
          assert inputs[|inputs| - 1].privateKey == r[a];
        }
      }
    }
  }

  /** Every non-empty input key is collected. */
  lemma {:induction false} DistinctKeysComplete(inputs: seq<UTXOInput>)
    ensures forall i :: 0 <= i < |inputs| && |inputs[i].privateKey| > 0 ==> inputs[i].privateKey in DistinctKeys(inputs)
  {
    if inputs != [] {
      var pre := inputs[..|inputs| - 1];
      DistinctKeysComplete(pre);
      forall i | 0 <= i < |inputs| && |inputs[i].privateKey| > 0
        ensures inputs[i].privateKey in DistinctKeys(inputs)
      {
        if i < |pre| {
          assert pre[i] == inputs[i];
        }
      }
    }
  }

  /** No key is collected twice. */
  lemma {:induction false} DistinctKeysNoDuplicates(inputs: seq<UTXOInput>)
    ensures forall a, b :: 0 <= a < b < |DistinctKeys(inputs)| ==> DistinctKeys(inputs)[a] != DistinctKeys(inputs)[b]
  {
    if inputs != [] {
      var seen := DistinctKeys(inputs[..|inputs| - 1]);
      DistinctKeysNoDuplicates(inputs[..|inputs| - 1]);
      var key := inputs[|inputs| - 1].privateKey;
      if |key| > 0 && key !in seen {
        assert forall a :: 0 <= a < |seen| ==> seen[a] != key;
      }
    }
  }

  /**
   * Collected keys keep the order of first appearance: wherever a later
   * collected key occurs among the inputs, an earlier collected key already
   * occurred before it.
   */
  lemma {:induction false} DistinctKeysFirstSeenOrder(inputs: seq<UTXOInput>)
    ensures forall a, b, j ::
      (0 <= a < b < |DistinctKeys(inputs)| && 0 <= j < |inputs| && inputs[j].privateKey == DistinctKeys(inputs)[b])
      ==> KeyOccurs(inputs, DistinctKeys(inputs)[a], j)
  {
    if inputs != [] {
      var n := |inputs|;
      var pre := inputs[..n - 1];
      var seen := DistinctKeys(pre);
      var r := DistinctKeys(inputs);
      DistinctKeysFirstSeenOrder(pre);
      DistinctKeysSound(pre);
      DistinctKeysComplete(pre);
      forall a, b, j | 0 <= a < b < |r| && 0 <= j < n && inputs[j].privateKey == r[b]
        ensures KeyOccurs(inputs, r[a], j)
      {
        assert a < |seen| && r[a] == seen[a];
        assert KeyOccurs(pre, seen[a], |pre|);
        var i :| 0 <= i < |pre| && pre[i].privateKey == seen[a];
        assert inputs[i] == pre[i];
        if j < n - 1 {
          assert pre[j] == inputs[j];
          if b < |seen| {
            assert r[b] == seen[b];
            assert KeyOccurs(pre, seen[a], j);
            var i' :| 0 <= i' < j && i' < |pre| && pre[i'].privateKey == seen[a];
            assert inputs[i'] == pre[i'];
          } else {
            assert false;
          }
        }
      }
    }
  }

  /**
   * With uniform key lengths, a key collected from the first `n` inputs is as
   * long as the non-empty key of input `n`, so comparing |key| bytes of it
   * stays in bounds and compares the whole key.
   */
  lemma CollectedKeyLength(inputs: seq<UTXOInput>, n: nat)
    requires UniformKeyLength(inputs) && n < |inputs| && |inputs[n].privateKey| > 0
    ensures forall a :: 0 <= a < |DistinctKeys(inputs[..n])| ==>
      |DistinctKeys(inputs[..n])[a]| == |inputs[n].privateKey|
  {
    var seen := DistinctKeys(inputs[..n]);
    DistinctKeysSound(inputs[..n]);
    forall a | 0 <= a < |seen| ensures |seen[a]| == |inputs[n].privateKey| {
      assert KeyOccurs(inputs[..n], seen[a], n);
      var i :| 0 <= i < n && inputs[..n][i].privateKey == seen[a];
      assert inputs[i] == inputs[..n][i];
    }
  }
}
