/** Which arguments of `record_shared_address` give a record with canonical bytes. */
module DerivationArgs {
  import opened Bytes
  import opened Results
  import opened CborModel
  import opened CborHead
  import opened CborEncoder
  import opened CborDecoder
  import opened CborTheorems
  import opened Records
  import opened RecordTheorems
  import opened Linkage
  import Utf8

  /** What validation demands of the record, said of the arguments. */
  predicate WellFormedArgs(p: Platform, a: SharedArgs) {
    && |a.entityUid| == 16 && |a.counterpartyUid| == 16 && |a.masterA| == 33 && |a.masterB| == 33
    && |a.pubkey| == 33 && |a.saltCommitment| == 32 && a.invoice >= 0 && a.payment >= 0
    && p.nfc(a.logicalKey) && p.nfc(a.createdAt) && p.nfc(a.text) && p.timeShape(a.createdAt)
  }

  lemma KeysAscend(a: SharedArgs)
    ensures var es := KeyDerivationRecord(a).entries;
            |es| == 14 && PlainKeys(es) && forall i :: 0 <= i < 13 ==> es[i].key.n < es[i + 1].key.n
  {
  }

  lemma {:induction false} AscendingIsDistinct(es: seq<Entry>, i: int, j: int)
    requires PlainKeys(es) && 0 <= i < j < |es|
    requires forall k :: 0 <= k < |es| - 1 ==> es[k].key.n < es[k + 1].key.n
    ensures es[i].key.n < es[j].key.n
    decreases j
  {
    if i < j - 1 {
      AscendingIsDistinct(es, i, j - 1);
    }
    assert es[j - 1].key.n < es[j - 1 + 1].key.n;
  }

  lemma FieldIn(a: SharedArgs, i: int)
    requires 0 <= i < 14
    ensures var es := KeyDerivationRecord(a).entries;
            |es| == 14 && es[i].key.Num? && Field(KeyDerivationRecord(a), es[i].key.n) == Some(es[i].value)
  {
    var es := KeyDerivationRecord(a).entries;
    KeysAscend(a);
    hide KeyDerivationRecord;
    forall k, l | 0 <= k < l < |es| ensures !SameKey(es[k].key, es[l].key) {
      AscendingIsDistinct(es, k, l);
    }
    LookupMember(es, i, es[i].key);
  }

  lemma ArgsHaveFields(a: SharedArgs)
    ensures var record := KeyDerivationRecord(a);
            && Field(record, SCHEMA_VERSION) == Some(Int(1))
            && Field(record, RECORD_TYPE) == Some(Int(RT_KEY_DERIVATION))
            && (forall fid :: fid in ENVELOPE || fid in Required(RT_KEY_DERIVATION) ==> Field(record, fid).Some?)
  {
    hide Field;
    FieldIn(a, 0);
    FieldIn(a, 1);
    FieldIn(a, 2);
    FieldIn(a, 3);
    FieldIn(a, 4);
    FieldIn(a, 5);
    FieldIn(a, 6);
    FieldIn(a, 7);
    FieldIn(a, 10);
    FieldIn(a, 11);
  }

  /** The record of `record_shared_address` validates exactly for well-formed arguments. */
  lemma KeyDerivationValidates(p: Platform, a: SharedArgs)
    ensures Validate(KeyDerivationRecord(a), p).Ok? <==> WellFormedArgs(p, a)
  {
    hide Field, CheckEntries, KeyDerivationRecord;
    ArgsHaveFields(a);
    assert TypeOf(Int(RT_KEY_DERIVATION)) == Some(RT_KEY_DERIVATION);
    EntriesCheck(p, a);
    assert KeyDerivationRecord(a).Map?;
  }

  lemma EntryKinds(v: Value, p: Platform)
    ensures forall fid :: fid in ENVELOPE ==>
              CheckEntry(Plain(fid, v), RT_KEY_DERIVATION, p) == Check(ENVELOPE[fid], v, p)
    ensures forall fid :: fid in Fields(RT_KEY_DERIVATION) ==>
              CheckEntry(Plain(fid, v), RT_KEY_DERIVATION, p) == Check(Fields(RT_KEY_DERIVATION)[fid], v, p)
  {
    hide Check;
    assert 65 in Fields(RT_KEY_DERIVATION);
  }

  lemma KindsOfArgs()
    ensures forall fid :: fid in {0, 1, 65, 69, 70} ==> KindOf(RT_KEY_DERIVATION, fid) == UInt
    ensures forall fid :: fid in {2, 74} ==> KindOf(RT_KEY_DERIVATION, fid) == FixedBytes(16)
    ensures forall fid :: fid in {3, 73} ==> KindOf(RT_KEY_DERIVATION, fid) == TextField
    ensures forall fid :: fid in {66, 67, 71} ==> KindOf(RT_KEY_DERIVATION, fid) == FixedBytes(33)
    ensures KindOf(RT_KEY_DERIVATION, 4) == TimeField && KindOf(RT_KEY_DERIVATION, 72) == FixedBytes(32)
  {
  }

  predicate AllCheck(p: Platform, a: SharedArgs) {
    var es := KeyDerivationRecord(a).entries;
    forall i :: 0 <= i < |es| ==> Check(KindOf(RT_KEY_DERIVATION, es[i].key.n), es[i].value, p).Ok?
  }

  lemma CheckedArgs(p: Platform, a: SharedArgs)
    requires AllCheck(p, a)
    ensures WellFormedArgs(p, a)
  {
    KindsOfArgs();
    hide KindOf, Fields;
    var es := KeyDerivationRecord(a).entries;
    assert es[2].value.Blob? && es[3].value.Text? && es[4].value.Text? && es[6].value.Blob? && es[7].value.Blob?;
    assert es[8].value.Int? && es[9].value.Int? && es[10].value.Blob? && es[11].value.Blob?;
    assert es[12].value.Text? && es[13].value.Blob?;
  }

  lemma ArgsCheck(p: Platform, a: SharedArgs)
    requires WellFormedArgs(p, a)
    ensures AllCheck(p, a)
  {
    KindsOfArgs();
    hide KindOf, Fields;
  }

  lemma EntriesCheck(p: Platform, a: SharedArgs)
    ensures KeyDerivationRecord(a).Map?
    ensures CheckEntries(KeyDerivationRecord(a).entries, RT_KEY_DERIVATION, p).Ok? <==> WellFormedArgs(p, a)
  {
    hide CheckEntries, CheckEntry, Check, WellFormedArgs;
    var es := KeyDerivationRecord(a).entries;
    CheckEntriesAll(es, RT_KEY_DERIVATION, p);
    forall i | 0 <= i < |es|
      ensures CheckEntry(es[i], RT_KEY_DERIVATION, p) == Check(KindOf(RT_KEY_DERIVATION, es[i].key.n), es[i].value, p)
    {
      EntryKinds(es[i].value, p);
    }
    assert forall e :: e in es <==> exists i :: 0 <= i < |es| && e == es[i];
    assert CheckEntries(es, RT_KEY_DERIVATION, p).Ok? <==> AllCheck(p, a);
    if AllCheck(p, a) {
      CheckedArgs(p, a);
    }
    if WellFormedArgs(p, a) {
      ArgsCheck(p, a);
    }
  }

  /** Validated arguments of a size that fits a database column have canonical bytes. */
  lemma KeyDerivationEncodes(p: Platform, a: SharedArgs)
    requires WellFormedArgs(p, a) && a.invoice <= UINT64_MAX && a.payment <= UINT64_MAX
    requires |Utf8.Encode(a.logicalKey)| <= UINT64_MAX && |Utf8.Encode(a.createdAt)| <= UINT64_MAX
    requires |Utf8.Encode(a.text)| <= UINT64_MAX
    ensures Encodable(KeyDerivationRecord(a), p.nfc)
  {
    hide ByteLength, Utf8.Encode;
    SmallByteLength(a.invoice);
    SmallByteLength(a.payment);
    SmallByteLength(1);
    SmallByteLength(RT_KEY_DERIVATION);
    var es := KeyDerivationRecord(a).entries;
    forall i | 0 <= i < |es| ensures Encodable(es[i].value, p.nfc) {
    }
  }

  /** The bytes decode to a record that shows the arguments, field by field, and nothing else. */
  predicate ShowsArgs(p: Platform, data: bytes, a: SharedArgs) {
    && Decode(data, p.nfc).Ok?
    && var r := Decode(data, p.nfc).value;
       && r.Map? && |r.entries| == 14
       && Field(r, 0) == Some(Int(1)) && Field(r, 1) == Some(Int(8)) && Field(r, 2) == Some(Blob(a.entityUid))
       && Field(r, 3) == Some(Text(a.logicalKey)) && Field(r, 4) == Some(Text(a.createdAt))
       && Field(r, 65) == Some(Int(1)) && Field(r, 66) == Some(Blob(a.masterA)) && Field(r, 67) == Some(Blob(a.masterB))
       && Field(r, 69) == Some(Int(a.invoice)) && Field(r, 70) == Some(Int(a.payment))
       && Field(r, 71) == Some(Blob(a.pubkey)) && Field(r, 72) == Some(Blob(a.saltCommitment))
       && Field(r, 73) == Some(Text(a.text)) && Field(r, 74) == Some(Blob(a.counterpartyUid))
  }

  /** What is hashed into the chain shows every argument in its own field. */
  lemma ArgsAreStored(p: Platform, a: SharedArgs, data: bytes)
    requires CanonicalBytes(KeyDerivationRecord(a), p) == Ok(data)
    ensures ShowsArgs(p, data, a)
  {
    hide CanonicalBytes, Encode, Decode, Encodable, Canon, Validate, Field;
    var record := KeyDerivationRecord(a);
    SelfCheckNeverFires(record, p);
    EncodeDomain(record, p.nfc);
    DecodeOfEncode(record, p.nfc);
    CanonLength(record);
    forall i | 0 <= i < 14
      ensures record.entries[i].key.Num?
      ensures Field(Canon(record), record.entries[i].key.n) == Some(record.entries[i].value)
    {
      FieldIn(a, i);
      FieldOfCanon(record, record.entries[i].key.n, p.nfc);
      CanonOfLeaf(record.entries[i].value);
    }
    FieldsByPlace(a, Canon(record));
  }

  lemma CanonLength(record: Value)
    requires record.Map?
    ensures Canon(record).Map? && |Canon(record).entries| == |record.entries|
  {
  }

  lemma FieldsByPlace(a: SharedArgs, r: Value)
    requires forall i :: 0 <= i < 14 ==>
               var e := KeyDerivationRecord(a).entries[i]; e.key.Num? && Field(r, e.key.n) == Some(e.value)
    ensures && Field(r, 0) == Some(Int(1)) && Field(r, 1) == Some(Int(8)) && Field(r, 2) == Some(Blob(a.entityUid))
            && Field(r, 3) == Some(Text(a.logicalKey)) && Field(r, 4) == Some(Text(a.createdAt))
            && Field(r, 65) == Some(Int(1)) && Field(r, 66) == Some(Blob(a.masterA))
            && Field(r, 67) == Some(Blob(a.masterB))
            && Field(r, 69) == Some(Int(a.invoice)) && Field(r, 70) == Some(Int(a.payment))
            && Field(r, 71) == Some(Blob(a.pubkey)) && Field(r, 72) == Some(Blob(a.saltCommitment))
            && Field(r, 73) == Some(Text(a.text)) && Field(r, 74) == Some(Blob(a.counterpartyUid))
  {
    hide Field;
    var es := KeyDerivationRecord(a).entries;
    assert es[0].key.n == 0 && es[1].key.n == 1 && es[2].key.n == 2 && es[3].key.n == 3 && es[4].key.n == 4;
    assert es[5].key.n == 65 && es[6].key.n == 66 && es[7].key.n == 67 && es[8].key.n == 69 && es[9].key.n == 70;
    assert es[10].key.n == 71 && es[11].key.n == 72 && es[12].key.n == 73 && es[13].key.n == 74;
  }
}
