/**
 * The structured record a transaction is imported from and exported to, and
 * the defaulting policy of the import.  Record parsing itself (JSON) is not
 * modelled: a record is a value whose optional keys are `Option`s, and the
 * children other than attributes appear as the values their own import
 * produces.
 */
module Records {
  import opened Wire
  import opened Crypto
  import opened Children
  import opened Attributes

  datatype TxRecord = TxRecord(
    utxoInputs: seq<UTXOInput>,                  // "UTXOInputs" (required)
    outputs: seq<TxOutput>,                      // "Outputs" (required)
    programs: Option<seq<Program>>,              // "Programs"
    attributes: Option<seq<AttributeRecord>>,    // "Attributes"
    memo: Option<Bytes>,                         // "Memo", the text's bytes
    postmark: Option<Bytes>,                     // "Postmark", as its dumped JSON text
    crossChainAsset: Option<seq<Bytes>>)         // "CrossChainAsset", each entry's own fields

  /** The bytes of the text {"Postmark": and of the closing }. */
  const POSTMARK_OPEN: Bytes := [0x7B, 0x22, 0x50, 0x6F, 0x73, 0x74, 0x6D, 0x61, 0x72, 0x6B, 0x22, 0x3A]
  const POSTMARK_CLOSE: Bytes := [0x7D]

  /** The description text wrapping a postmark: {"Postmark":<postmark>}. */
  function PostmarkText(dumped: Bytes): (r: Bytes) {
    POSTMARK_OPEN + dumped + POSTMARK_CLOSE
  }

  /** Each attribute record imported, in record order. */
  function AttributesFromJson(recs: seq<AttributeRecord>, hex: Hex): (r: seq<Attribute>) {
    if recs == [] then [] else [FromJson(recs[0], hex)] + AttributesFromJson(recs[1..], hex)
  }

  /**
   * The attributes synthesised when a record has no "Attributes": a memo
   * attribute for a non-empty memo, otherwise a nonce, carrying the memo's
   * bytes (none when "Memo" is absent); then a description wrapping the
   * postmark, when "Postmark" is present.
   */
  function DefaultAttributes(rec: TxRecord): (r: seq<Attribute>) {
    var memo := rec.memo.GetOr([]);
    [Attribute(if |memo| == 0 then NONCE else MEMO, memo)]
    + (if rec.postmark.Some? then [Attribute(DESCRIPTION, PostmarkText(rec.postmark.value))] else [])
  }

  /** The attributes an import appends. */
  function ImportedAttributes(rec: TxRecord, hex: Hex): (r: seq<Attribute>) {
    if rec.attributes.Some? then AttributesFromJson(rec.attributes.value, hex) else DefaultAttributes(rec)
  }

  /** Cross-chain entries built from their records, numbered from `index` in record order. */
  function AssetsFrom(recs: seq<Bytes>, index: nat): (r: seq<CrossChainAsset>) {
    if recs == [] then [] else [CrossChainAsset(index, recs[0])] + AssetsFrom(recs[1..], index + 1)
  }

  /** The "Attributes" key of an export: present only for a non-empty list. */
  function ExportAttributes(attrs: seq<Attribute>, hex: Hex): (r: Option<seq<AttributeRecord>>) {
    if |attrs| > 0 then Some(AttributesToJson(attrs, hex)) else None
  }

  function AttributesToJson(attrs: seq<Attribute>, hex: Hex): (r: seq<AttributeRecord>) {
    if attrs == [] then [] else [attrs[0].ToJson(hex)] + AttributesToJson(attrs[1..], hex)
  }

  /** A record's own attributes are imported one for one, in order. */
  lemma {:induction false} GivenAttributesKept(recs: seq<AttributeRecord>, hex: Hex)
    ensures |AttributesFromJson(recs, hex)| == |recs|
    ensures forall i :: 0 <= i < |recs| ==> AttributesFromJson(recs, hex)[i] == FromJson(recs[i], hex)
  {
    if recs != [] {
      GivenAttributesKept(recs[1..], hex);
      forall i | 0 <= i < |recs| ensures AttributesFromJson(recs, hex)[i] == FromJson(recs[i], hex) {
        if i > 0 {
          assert recs[1..][i - 1] == recs[i];
        }
      }
    }
  }

  /**
   * Without "Attributes", exactly one attribute carries the memo (a memo
   * attribute when it is non-empty, a nonce otherwise), and a second, a
   * description of the postmark, is added exactly when "Postmark" is present.
   */
  lemma DefaultAttributePolicy(rec: TxRecord, hex: Hex)
    requires rec.attributes.None?
    ensures var r := ImportedAttributes(rec, hex);
      && |r| == (if rec.postmark.Some? then 2 else 1)
      && r[0].data == rec.memo.GetOr([])
      && (r[0].usage == MEMO <==> rec.memo.Some? && |rec.memo.value| > 0)
      && (r[0].usage == NONCE <==> rec.memo.None? || rec.memo.value == [])
      && (rec.postmark.Some? ==> r[1] == Attribute(DESCRIPTION, PostmarkText(rec.postmark.value)))
  {
  }

  /** Cross-chain entries are numbered 0, 1, 2, ... in record order and keep their fields. */
  lemma {:induction false} AssetsNumbered(recs: seq<Bytes>, index: nat)
    ensures |AssetsFrom(recs, index)| == |recs|
    ensures forall i :: 0 <= i < |recs| ==> AssetsFrom(recs, index)[i] == CrossChainAsset(index + i, recs[i])
  {
    if recs != [] {
      AssetsNumbered(recs[1..], index + 1);
      forall i | 0 <= i < |recs| ensures AssetsFrom(recs, index)[i] == CrossChainAsset(index + i, recs[i]) {
        if i > 0 {
          assert recs[1..][i - 1] == recs[i];
        }
      }
    }
  }

  /**
   * Exported attributes import back unchanged when there are any; an empty
   * list is not exported, so the import synthesises an empty nonce instead.
   */
  lemma {:induction false} AttributesRoundTrip(attrs: seq<Attribute>, hex: Hex, rec: TxRecord)
    requires HexRoundTrips(hex)
    requires rec.attributes == ExportAttributes(attrs, hex) && rec.memo.None? && rec.postmark.None?
    ensures ImportedAttributes(rec, hex) == if |attrs| > 0 then attrs else [Attribute(NONCE, [])]
  {
    if |attrs| > 0 {
      ImportExport(attrs, hex);
    }
  }

  lemma {:induction false} ImportExport(attrs: seq<Attribute>, hex: Hex)
    requires HexRoundTrips(hex)
    ensures AttributesFromJson(AttributesToJson(attrs, hex), hex) == attrs
  {
    if attrs != [] {
      JsonRoundTrip(attrs[0], hex);
      ImportExport(attrs[1..], hex);
    }
  }
}
