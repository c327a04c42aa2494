/**
 * A transaction attribute: a usage tag and a free-form byte string (a nonce,
 * a memo, a description, ...).  On the wire it is the usage byte, the varint
 * length of the data and the data itself; in a structured record it is the
 * usage and the data as hex text.
 */
module Attributes {
  import opened Wire
  import opened Stream
  import opened Crypto

  /** Usage tags the transaction import chooses between. */
  const NONCE: byte := 0x00
  const MEMO: byte := 0x81
  const DESCRIPTION: byte := 0x90

  /** The structured record of an attribute: keys "usage" and "data" (hex text). */
  datatype AttributeRecord = AttributeRecord(usage: byte, data: string)

  datatype Attribute = Attribute(usage: byte, data: Bytes) {

    /** Appends the attribute to `stream`: usage byte, varint data length, data. */
    method Serialize(stream: ByteStream)
      modifies stream
      ensures stream.buffer == old(stream.buffer) + Encode(this)
    {
      stream.Put(usage);
      stream.PutVarUint(|data|);
      stream.PutBytes(data);
    }

    /** The record of this attribute: the usage unchanged, the data hex-encoded. */
    function ToJson(hex: Hex): (r: AttributeRecord)
      ensures r.usage == usage
      ensures HexRoundTrips(hex) ==> hex.decode(r.data) == data
    {
      AttributeRecord(usage, hex.encode(data))
    }
  }

  /** The bytes `Serialize` appends. */
  function Encode(a: Attribute): (r: Bytes) {
    [a.usage] + VarUint(|a.data|) + a.data
  }

  /** The attribute a record describes: the usage as given, the data hex-decoded. */
  function FromJson(rec: AttributeRecord, hex: Hex): (r: Attribute)
    ensures r.usage == rec.usage
    ensures forall b :: HexRoundTrips(hex) && rec.data == hex.encode(b) ==> r.data == b
  {
    Attribute(rec.usage, hex.decode(rec.data))
  }

  /** An attribute whose data length a 64-bit size can hold (every attribute in memory). */
  predicate Sized(a: Attribute) {
    |a.data| < TWO_64
  }

  /** Reads one serialised attribute from the front of `s`. */
  function ParseAttribute(s: Bytes): (r: Option<(Attribute, Bytes)>)
    ensures r.Some? ==> |r.value.1| < |s|
  {
    if |s| == 0 then None
    else match ParseVarUint(s[1..])
      case None => None
      case Some((n, rest)) =>
        if n <= |rest| then Some((Attribute(s[0], rest[..n]), rest[n..])) else None
  }

  /** Reads `n` serialised attributes, one after the other. */
  function ParseAttributes(n: nat, s: Bytes): Option<(seq<Attribute>, Bytes)>
    decreases n
  {
    if n == 0 then Some(([], s))
    else match ParseAttribute(s)
      case None => None
      case Some((a, rest)) =>
        match ParseAttributes(n - 1, rest)
        case None => None
        case Some((more, rest')) => Some(([a] + more, rest'))
  }

  /** Reads an attribute section: a varint count, then that many attributes. */
  function ParseAttributeSection(s: Bytes): (r: Option<(seq<Attribute>, Bytes)>) {
    match ParseVarUint(s)
    case None => None
    case Some((n, rest)) => ParseAttributes(n, rest)
  }

  /** The usage byte comes first, then the varint of the data length, then exactly the data. */
  lemma EncodeLayout(a: Attribute)
    ensures var e, w := Encode(a), VarUintSize(|a.data|);
      && |e| == 1 + w + |a.data|
      && e[0] == a.usage
      && e[1..1 + w] == VarUint(|a.data|)
      && e[1 + w..] == a.data
  {
    VarUintLength(|a.data|);
  }

  /** A serialised attribute reads back as itself, whatever bytes follow it. */
  lemma ParseEncode(a: Attribute, rest: Bytes)
    requires Sized(a)
    ensures ParseAttribute(Encode(a) + rest) == Some((a, rest))
  {
    var s := Encode(a) + rest;
    assert s[1..] == VarUint(|a.data|) + (a.data + rest);
    VarUintRoundTrip(|a.data|, a.data + rest);
    assert (a.data + rest)[..|a.data|] == a.data;
    assert (a.data + rest)[|a.data|..] == rest;
  }

  /** The serialisation is a function of (usage, data) and determines both. */
  lemma EncodeInjective(a: Attribute, b: Attribute)
    requires Sized(a) && Sized(b)
    ensures Encode(a) == Encode(b) <==> a == b
  {
    if Encode(a) == Encode(b) {
      ParseEncode(a, []);
      ParseEncode(b, []);
      assert Encode(a) + [] == Encode(b) + [];
    }
  }

  /** A counted list of attributes reads back as the same list, in order. */
  lemma {:induction false} ParseAttributesConcat(attrs: seq<Attribute>, rest: Bytes)
    requires forall i :: 0 <= i < |attrs| ==> Sized(attrs[i])
    ensures ParseAttributes(|attrs|, ConcatMap(Encode, attrs) + rest) == Some((attrs, rest))
  {
    if attrs == [] {
      assert ConcatMap(Encode, attrs) + rest == rest;
    } else {
      var tail := ConcatMap(Encode, attrs[1..]) + rest;
      assert ConcatMap(Encode, attrs) + rest == Encode(attrs[0]) + tail;
      ParseEncode(attrs[0], tail);
      ParseAttributesConcat(attrs[1..], rest);
      assert [attrs[0]] + attrs[1..] == attrs;
    }
  }

  lemma ParseAttributeSectionCounted(attrs: seq<Attribute>, rest: Bytes)
    requires |attrs| < TWO_64
    requires forall i :: 0 <= i < |attrs| ==> Sized(attrs[i])
    ensures ParseAttributeSection(Counted(Encode, attrs) + rest) == Some((attrs, rest))
  {
    var body := ConcatMap(Encode, attrs) + rest;
    assert Counted(Encode, attrs) + rest == VarUint(|attrs|) + body;
    VarUintRoundTrip(|attrs|, body);
    ParseAttributesConcat(attrs, rest);
  }

  /** Usage and data survive export to a record and import back, given a hex codec that round-trips. */
  lemma JsonRoundTrip(a: Attribute, hex: Hex)
    requires HexRoundTrips(hex)
    ensures FromJson(a.ToJson(hex), hex) == a
  {
  }
}
