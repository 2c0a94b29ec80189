/** Which records are valid, written out field by field: the registry read as plain conditions on the record. */
module RecordShapes {
  import opened Bytes
  import opened Results
  import opened CborModel
  import opened CborEncoder
  import opened CborDecoder
  import opened CborTheorems
  import opened Records
  import opened RecordTheorems

  predicate IsUInt(v: Value) {
    v.Int? && v.n >= 0
  }

  predicate IsBytes(v: Value, length: nat) {
    v.Blob? && |v.b| == length
  }

  predicate IsText(v: Value, p: Platform) {
    v.Text? && p.nfc(v.s)
  }

  predicate IsTime(v: Value, p: Platform) {
    IsText(v, p) && p.timeShape(v.s)
  }

  predicate EnvelopeField(fid: int, v: Value, p: Platform) {
    || ((fid == 0 || fid == 1) && IsUInt(v))
    || (fid == 2 && IsBytes(v, 16))
    || (fid == 3 && IsText(v, p))
    || (fid == 4 && IsTime(v, p))
  }

  predicate InvoiceField(fid: int, v: Value, p: Platform) {
    || ((fid == 16 || fid == 18 || fid == 23 || fid == 25) && IsText(v, p))
    || (fid == 17 && IsBytes(v, 33))
    || (fid == 19 && IsUInt(v))
    || (fid == 20 && v.Int?)
    || ((fid == 21 || fid == 24) && v.Array?)
    || (fid == 22 && IsTime(v, p))
  }

  predicate PaymentField(fid: int, v: Value, p: Platform) {
    || ((fid == 32 || fid == 34 || fid == 36) && IsText(v, p))
    || ((fid == 33 || fid == 37 || fid == 38 || fid == 40) && IsUInt(v))
    || (fid == 35 && v.Int?)
    || (fid == 39 && IsBytes(v, 32))
  }

  predicate MessageField(fid: int, v: Value) {
    || (fid == 48 && IsBytes(v, 16))
    || (fid == 49 && IsBytes(v, 33))
    || (fid == 50 && IsBytes(v, 32))
  }

  predicate TransferField(fid: int, v: Value, p: Platform) {
    || (fid == 56 && IsBytes(v, 16))
    || ((fid == 57 || fid == 58) && IsUInt(v))
    || (fid == 59 && IsText(v, p))
    || (fid == 60 && v.Int?)
    || (fid == 61 && IsBytes(v, 32))
  }

  predicate DerivationField(fid: int, v: Value, p: Platform) {
    || ((fid == 65 || fid == 69 || fid == 70) && IsUInt(v))
    || ((fid == 66 || fid == 67 || fid == 71) && IsBytes(v, 33))
    || (fid == 72 && IsBytes(v, 32))
    || (fid == 73 && IsText(v, p))
    || (fid == 74 && IsBytes(v, 16))
  }

  /** What a record of type `rt` may hold under `fid` besides its envelope. */
  predicate TypeField(rt: int, fid: int, v: Value, p: Platform) {
    || (rt == 1 && InvoiceField(fid, v, p))
    || (rt == 2 && PaymentField(fid, v, p))
    || ((rt == 3 || rt == 5) && 16 <= fid <= 31)
    || (rt == 4 && 16 <= fid <= 47)
    || (rt == 6 && MessageField(fid, v))
    || (rt == 7 && TransferField(fid, v, p))
    || (rt == 8 && DerivationField(fid, v, p))
    || (rt == 9 && 80 <= fid <= 95)
  }

  /** The fields that a record of type `rt` must have besides its envelope. */
  predicate MustHave(rt: int, fid: int) {
    || (rt == 1 && fid in {16, 17, 18, 19, 20, 22, 24})
    || (rt == 2 && fid in {32, 33, 35, 36, 37, 38, 40})
    || (rt == 6 && fid in {48, 49, 50})
    || (rt == 7 && fid in {56, 57, 58, 60})
    || (rt == 8 && fid in {65, 66, 67, 71, 72})
  }

  predicate EntryShape(rt: int, e: Entry, p: Platform) {
    e.key.Num? && (EnvelopeField(e.key.n, e.value, p) || TypeField(rt, e.key.n, e.value, p))
  }

  /** The record is a dict of type `rt`: schema version 1, all fields it must have, no others but those it may have. */
  ghost predicate ShapeOf(rt: int, record: Value, p: Platform) {
    && 1 <= rt <= 9 && record.Map?
    && Field(record, 0) == Some(Int(1)) && Field(record, 1) == Some(Int(rt))
    && Field(record, 2).Some? && Field(record, 3).Some? && Field(record, 4).Some?
    && (forall fid :: MustHave(rt, fid) ==> Field(record, fid).Some?)
    && (forall e :: e in record.entries ==> EntryShape(rt, e, p))
  }

  lemma EntryHasShape(e: Entry, rt: int, p: Platform)
    requires 1 <= rt <= 9
    ensures CheckEntry(e, rt, p).Ok? <==> EntryShape(rt, e, p)
  {
    if e.key.Num? && e.key.n !in ENVELOPE {
      TypeFieldShape(e, rt, p);
    }
  }

  lemma TypeFieldShape(e: Entry, rt: int, p: Platform)
    requires 1 <= rt <= 9 && e.key.Num? && e.key.n !in ENVELOPE
    ensures CheckEntry(e, rt, p).Ok? <==> TypeField(rt, e.key.n, e.value, p)
  {
    hide CheckEntry, TypeField;
    if rt == 1 {
      InvoiceShape(e, p);
    } else if rt == 2 {
      PaymentShape(e, p);
    } else if rt == 8 {
      DerivationShape(e, p);
    } else {
      OtherShape(e, rt, p);
    }
  }

  lemma InvoiceShape(e: Entry, p: Platform)
    requires e.key.Num? && e.key.n !in ENVELOPE
    ensures CheckEntry(e, 1, p).Ok? <==> TypeField(1, e.key.n, e.value, p)
  {
    assert 16 in Fields(1);
  }

  lemma PaymentShape(e: Entry, p: Platform)
    requires e.key.Num? && e.key.n !in ENVELOPE
    ensures CheckEntry(e, 2, p).Ok? <==> TypeField(2, e.key.n, e.value, p)
  {
    assert 32 in Fields(2);
  }

  lemma DerivationShape(e: Entry, p: Platform)
    requires e.key.Num? && e.key.n !in ENVELOPE
    ensures CheckEntry(e, 8, p).Ok? <==> TypeField(8, e.key.n, e.value, p)
  {
    assert 65 in Fields(8);
  }

  lemma OtherShape(e: Entry, rt: int, p: Platform)
    requires e.key.Num? && e.key.n !in ENVELOPE && 3 <= rt <= 9 && rt != 8
    ensures CheckEntry(e, rt, p).Ok? <==> TypeField(rt, e.key.n, e.value, p)
  {
    assert 48 in Fields(6) && 56 in Fields(7);
  }

  lemma MustHaveIsRequired(rt: int)
    requires 1 <= rt <= 9
    ensures forall fid :: fid in Required(rt) <==> MustHave(rt, fid)
  {
  }

  /** Validation, exactly: a record is valid when it has the shape of some type, and of the type it names. */
  lemma ValidIffShaped(record: Value, p: Platform)
    ensures Validate(record, p).Ok? <==> exists rt :: ShapeOf(rt, record, p)
  {
    hide Check, Lookup, CheckEntry, EntryShape, Fields;
    if Validate(record, p).Ok? {
      EnvelopeInts(record, p);
      var rt := Field(record, RECORD_TYPE).value.n;
      ValidHasShape(record, rt, p);
    }
    if rt :| ShapeOf(rt, record, p) {
      ShapeIsValid(record, rt, p);
    }
  }

  lemma ValidHasShape(record: Value, rt: int, p: Platform)
    requires Validate(record, p).Ok? && Field(record, RECORD_TYPE) == Some(Int(rt))
    ensures ShapeOf(rt, record, p)
  {
    hide Check, Lookup, CheckEntry, CheckEntries, EntryShape, Fields, Required, MustHave;
    EnvelopeInts(record, p);
    CheckEntriesAll(record.entries, rt, p);
    MustHaveIsRequired(rt);
    forall e | e in record.entries ensures EntryShape(rt, e, p) {
      EntryHasShape(e, rt, p);
    }
    assert 2 in ENVELOPE && 3 in ENVELOPE && 4 in ENVELOPE;
  }

  lemma ShapeIsValid(record: Value, rt: int, p: Platform)
    requires ShapeOf(rt, record, p)
    ensures Validate(record, p).Ok?
  {
    hide Check, Lookup, CheckEntry, CheckEntries, EntryShape, Fields, Required, MustHave;
    CheckEntriesAll(record.entries, rt, p);
    MustHaveIsRequired(rt);
    forall e | e in record.entries ensures CheckEntry(e, rt, p).Ok? {
      EntryHasShape(e, rt, p);
    }
    assert TypeOf(Int(rt)) == Some(rt);
  }

  predicate EqualsType(v: Value) {
    || v == Bool(true) || (v.Int? && 1 <= v.n <= 9)
    || (v.Float? && v.f in {1.0, 2.0, 3.0, 4.0, 5.0, 6.0, 7.0, 8.0, 9.0})
  }

  /** The two comparisons before the loop use Python's `==`: True and 1.0 pass for 1, and are refused by the
      field check. */
  lemma ComparedAsNumbers(record: Value, p: Platform)
    requires record.Map? && forall fid :: fid in {0, 1, 2, 3, 4} ==> Field(record, fid).Some?
    ensures Validate(record, p) == Err(WrongSchemaVersion) <==>
              Field(record, 0).value !in {Int(1), Bool(true), Float(1.0)}
    ensures Field(record, 0).value in {Int(1), Bool(true), Float(1.0)} ==>
              (Validate(record, p) == Err(UnknownRecordType) <==> !EqualsType(Field(record, 1).value))
  {
    hide CheckEntries, Lookup;
    assert forall fid :: fid in ENVELOPE ==> fid in {0, 1, 2, 3, 4};
    assert TypeOf(Field(record, 1).value) == None <==> !EqualsType(Field(record, 1).value);
    CheckEntriesFault(record.entries, p);
  }

  lemma {:induction false} CheckEntriesFault(entries: seq<Entry>, p: Platform)
    ensures forall rt :: CheckEntries(entries, rt, p) != Err(WrongSchemaVersion)
                         && CheckEntries(entries, rt, p) != Err(UnknownRecordType)
  {
    hide Fields, InRange;
    if entries != [] {
      CheckEntriesFault(entries[1..], p);
    }
  }

  /** Exactly the encodable records of a shape have canonical bytes. */
  lemma CanonicalDomain(record: Value, p: Platform)
    ensures CanonicalBytes(record, p).Ok? <==> Encodable(record, p.nfc) && exists rt :: ShapeOf(rt, record, p)
  {
    hide Validate, Encode, Encodable, ShapeOf;
    SelfCheckNeverFires(record, p);
    EncodeDomain(record, p.nfc);
    ValidIffShaped(record, p);
  }

  /** The field set is closed, field by field: whatever record went in, its bytes decode to one of the same shape. */
  lemma BytesHaveShape(record: Value, rt: int, p: Platform) returns (back: Value)
    requires CanonicalBytes(record, p).Ok? && ShapeOf(rt, record, p)
    ensures Decode(CanonicalBytes(record, p).value, p.nfc) == Ok(back) && ShapeOf(rt, back, p)
  {
    hide Validate, Encode, Decode, Encodable, CanonicalBytes, EntryShape, MustHave, Lookup;
    back := RecordClosure(record, p);
    TypeIsKept(record, p);
    ValidHasShape(back, rt, p);
  }

  lemma TypeIsKept(record: Value, p: Platform)
    requires CanonicalBytes(record, p).Ok? && Field(record, 1).Some? && Field(record, 1).value.Int?
    ensures Field(Decode(CanonicalBytes(record, p).value, p.nfc).value, 1) == Field(record, 1)
  {
    hide Validate, Decode, Canon, Lookup, Encode, Encodable;
    SelfCheckNeverFires(record, p);
    EncodeDomain(record, p.nfc);
    DecodeOfEncode(record, p.nfc);
    FieldOfCanon(record, 1, p.nfc);
    CanonOfInt(Field(record, 1).value.n);
  }

  /** The hash of a chain entry is that of the 32 bytes before it and the 32 bytes of its record's sha. */
  lemma EntryHashDomain(prev: bytes, sha: bytes, p: Platform)
    ensures EntryHash(prev, sha, p)
            == if |prev| == 32 && |sha| == 32 then Ok(p.sha256(prev + sha)) else Err(HashInputLength)
  {
  }
}
