/**
 * Byte-level building blocks of the transaction wire format: bytes,
 * fixed-width little-endian integers, the network's compact variable-length
 * unsigned integer ("varint") and the concatenation of serialised children.
 * Each encoder comes with the parser that undoes it.
 */
module Wire {

  datatype Option<T> = None | Some(value: T) {
    function GetOr(default: T): T {
      match this
      case Some(v) => v
      case None => default
    }
  }

  type byte = x: int | 0 <= x < 256
  type Bytes = seq<byte>

  /** A 32-bit unsigned integer, such as the lock time. */
  type uint32 = x: int | 0 <= x < 0x1_0000_0000

  const TWO_64: nat := 0x1_0000_0000_0000_0000

  function Pow256(k: nat): (r: nat)
    ensures r > 0
  {
    if k == 0 then 1 else 256 * Pow256(k - 1)
  }

  /** The low `k` bytes of `n`, least significant first (a `k`-byte unsigned write). */
  function EncodeLE(n: nat, k: nat): (r: Bytes)
    ensures |r| == k
  {
    if k == 0 then [] else [n % 256] + EncodeLE(n / 256, k - 1)
  }

  /** The unsigned integer whose little-endian bytes are `s`. */
  function DecodeLE(s: Bytes): (n: nat)
    ensures n < Pow256(|s|)
  {
    if s == [] then 0 else s[0] + 256 * DecodeLE(s[1..])
  }

  lemma {:induction false} DecodeEncodeLE(n: nat, k: nat)
    requires n < Pow256(k)
    ensures DecodeLE(EncodeLE(n, k)) == n
  {
    if k > 0 {
      DecodeEncodeLE(n / 256, k - 1);
    }
  }

  /** The 4-byte little-endian form written for a 32-bit field. */
  function UInt32LE(n: uint32): (r: Bytes)
    ensures |r| == 4 && DecodeLE(r) == n
  {
    DecodeEncodeLE(n, 4);
    EncodeLE(n, 4)
  }

  /**
   * The compact variable-length unsigned integer of the network: one byte
   * below 0xFD, otherwise a marker byte 0xFD, 0xFE or 0xFF followed by the
   * value in 2, 4 or 8 little-endian bytes.  A value of 2^64 or more (which a
   * collection size never reaches) keeps only its low 8 bytes, as a cast to a
   * 64-bit integer would.
   */
  function VarUint(n: nat): (r: Bytes)
  {
    if n < 0xFD then [n]
    else if n <= 0xFFFF then [0xFD] + EncodeLE(n, 2)
    else if n <= 0xFFFF_FFFF then [0xFE] + EncodeLE(n, 4)
    else [0xFF] + EncodeLE(n, 8)
  }

  function VarUintSize(n: nat): nat {
    if n < 0xFD then 1 else if n <= 0xFFFF then 3 else if n <= 0xFFFF_FFFF then 5 else 9
  }

  /** Reads one varint from the front of `s`, returning it and the bytes after it. */
  function ParseVarUint(s: Bytes): (r: Option<(nat, Bytes)>)
    ensures r.Some? ==> |r.value.1| < |s|
  {
    if |s| == 0 then None
    else if s[0] < 0xFD then Some((s[0], s[1..]))
    else if s[0] == 0xFD then (if |s| < 3 then None else Some((DecodeLE(s[1..3]), s[3..])))
    else if s[0] == 0xFE then (if |s| < 5 then None else Some((DecodeLE(s[1..5]), s[5..])))
    else (if |s| < 9 then None else Some((DecodeLE(s[1..9]), s[9..])))
  }

  lemma VarUintLength(n: nat)
    ensures |VarUint(n)| == VarUintSize(n)
  {
  }

  /** Every varint a collection size can produce is read back exactly, whatever follows it. */
  lemma VarUintRoundTrip(n: nat, rest: Bytes)
    requires n < TWO_64
    ensures ParseVarUint(VarUint(n) + rest) == Some((n, rest))
  {
    var s := VarUint(n) + rest;
    if n < 0xFD {
    } else if n <= 0xFFFF {
      assert Pow256(2) == 0x1_0000;
      DecodeEncodeLE(n, 2);
      assert s[1..3] == EncodeLE(n, 2);
      assert s[3..] == rest;
    } else if n <= 0xFFFF_FFFF {
      assert Pow256(4) == 0x1_0000_0000;
      DecodeEncodeLE(n, 4);
      assert s[1..5] == EncodeLE(n, 4);
      assert s[5..] == rest;
    } else {
      assert Pow256(8) == TWO_64;
      DecodeEncodeLE(n, 8);
      assert s[1..9] == EncodeLE(n, 8);
      assert s[9..] == rest;
    }
  }

  /** The serialisations of `xs`, one after the other, in sequence order. */
  function ConcatMap<T>(f: T -> Bytes, xs: seq<T>): (r: Bytes)
  {
    if xs == [] then [] else f(xs[0]) + ConcatMap(f, xs[1..])
  }

  /** Concatenation is associative. */
  lemma AppendAssoc<T>(a: seq<T>, b: seq<T>, c: seq<T>)
    ensures a + (b + c) == a + b + c
  {
  }

  /** Writing from position `i` on is writing entry `i`, then the rest. */
  lemma ConcatMapFrom<T>(f: T -> Bytes, xs: seq<T>, i: nat)
    requires i < |xs|
    ensures ConcatMap(f, xs[i..]) == f(xs[i]) + ConcatMap(f, xs[i + 1..])
  {
    assert xs[i..][1..] == xs[i + 1..];
  }

  /** A counted section: the varint number of entries, then each entry in order. */
  function Counted<T>(f: T -> Bytes, xs: seq<T>): (r: Bytes)
  {
    VarUint(|xs|) + ConcatMap(f, xs)
  }
}
