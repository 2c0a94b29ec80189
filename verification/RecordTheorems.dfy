/** Records survive the codec: the self-check never fires and validation is kept. */
module RecordTheorems {
  import opened Results
  import opened Sorting
  import opened CborModel
  import opened CborEncoder
  import opened CborDecoder
  import opened CborTheorems
  import opened Records

  /** The self-check in `canonical_bytes` never fires: validation and encoding alone decide the outcome. */
  lemma SelfCheckNeverFires(record: Value, p: Platform)
    ensures CanonicalBytes(record, p)
            == if Validate(record, p).Ok? then Encode(record, p.nfc) else Err(Validate(record, p).fault)
  {
    hide Encode, Decode, Validate;
    if Validate(record, p).Ok? && Encode(record, p.nfc).Ok? {
      var data := Encode(record, p.nfc).value;
      DecodeOfEncode(record, p.nfc);
      AcceptsExactlyTheImage(data, p.nfc);
    }
  }

  lemma {:induction false} CheckEntriesAll(entries: seq<Entry>, rt: int, p: Platform)
    ensures CheckEntries(entries, rt, p).Ok? <==> forall e :: e in entries ==> CheckEntry(e, rt, p).Ok?
  {
    hide CheckEntry;
    if entries != [] {
      CheckEntriesAll(entries[1..], rt, p);
      assert forall e :: e in entries <==> e == entries[0] || e in entries[1..];
    }
  }

  lemma CanonKeepsCheck(e: Entry, rt: int, p: Platform)
    ensures CheckEntry(CanonEntry(e), rt, p) == CheckEntry(e, rt, p)
  {
    hide Fields;
    assert forall kind :: Check(kind, Canon(e.value), p) == Check(kind, e.value, p);
  }

  lemma EncodableKeys(entries: seq<Entry>, nfc: Nfc)
    requires Encodable(Map(entries), nfc)
    ensures PlainKeys(entries) && DistinctKeys(entries)
  {
  }

  /** Field by field, the canonical listing of a record is the record. */
  lemma FieldOfCanon(record: Value, fid: int, nfc: Nfc)
    requires record.Map? && Encodable(record, nfc)
    ensures Field(Canon(record), fid)
            == match Field(record, fid) case None => None case Some(v) => Some(Canon(v))
  {
    hide Canon, Lookup, Encodable;
    var es, key := record.entries, Num(fid, true);
    var listed := CanonEntries(es);
    var fs := Sort(listed, KeyBefore);
    CanonOfMap(es);
    EncodableKeys(es, nfc);
    CanonKeys(es);
    SortedEntries(listed);
    if Lookup(es, key).Some? {
      var i := LookupFinds(es, key);
      assert listed[i] in fs;
      var j :| 0 <= j < |fs| && fs[j] == listed[i];
      LookupMember(fs, j, key);
    } else if Lookup(fs, key).Some? {
      var j := LookupFinds(fs, key);
      assert fs[j] in listed;
      var i :| 0 <= i < |listed| && listed[i] == fs[j];
      LookupMember(es, i, key);
    }
  }

  lemma EntriesOfCanon(record: Value, rt: int, nfc: Nfc, p: Platform)
    requires record.Map? && Encodable(record, nfc)
    ensures Canon(record).Map?
    ensures CheckEntries(Canon(record).entries, rt, p).Ok? <==> CheckEntries(record.entries, rt, p).Ok?
  {
    hide Canon, CheckEntry, CheckEntries, CanonEntry;
    var es := record.entries;
    var listed := CanonEntries(es);
    var fs := Sort(listed, KeyBefore);
    CanonOfMap(es);
    SortMembers(listed, KeyBefore);
    CheckEntriesAll(es, rt, p);
    CheckEntriesAll(fs, rt, p);
    forall i | 0 <= i < |es| ensures CheckEntry(listed[i], rt, p) == CheckEntry(es[i], rt, p) {
      CanonKeepsCheck(es[i], rt, p);
    }
    if CheckEntries(es, rt, p).Ok? {
      forall f | f in fs ensures CheckEntry(f, rt, p).Ok? {
        var i :| 0 <= i < |listed| && listed[i] == f;
        assert es[i] in es;
      }
    }
    if CheckEntries(fs, rt, p).Ok? {
      forall e | e in es ensures CheckEntry(e, rt, p).Ok? {
        var i :| 0 <= i < |es| && es[i] == e;
        assert listed[i] in fs;
      }
    }
  }

  lemma CanonKeepsInts(v: Value)
    ensures forall n :: EqualsInt(Canon(v), n) == EqualsInt(v, n)
    ensures TypeOf(Canon(v)) == TypeOf(v)
  {
  }

  lemma CanonKeepsValidity(record: Value, p: Platform)
    requires Encodable(record, p.nfc) && Validate(record, p).Ok?
    ensures Validate(Canon(record), p).Ok?
  {
    hide Encodable, Canon, CheckEntries, EqualsInt, TypeOf, Required;
    var canon := Canon(record);
    forall fid ensures Field(canon, fid).Some? <==> Field(record, fid).Some? {
      FieldOfCanon(record, fid, p.nfc);
    }
    EnvelopePresent(record);
    FieldOfCanon(record, SCHEMA_VERSION, p.nfc);
    FieldOfCanon(record, RECORD_TYPE, p.nfc);
    CanonKeepsInts(Field(record, SCHEMA_VERSION).value);
    CanonKeepsInts(Field(record, RECORD_TYPE).value);
    EntriesOfCanon(record, TypeOf(Field(record, RECORD_TYPE).value).value, p.nfc, p);
  }

  /** Closure: canonical bytes decode to an equal record, which validates and has the same canonical bytes. */
  lemma RecordClosure(record: Value, p: Platform) returns (back: Value)
    requires CanonicalBytes(record, p).Ok?
    ensures Decode(CanonicalBytes(record, p).value, p.nfc) == Ok(back)
    ensures Same(record, back) && Validate(back, p).Ok?
    ensures CanonicalBytes(back, p) == CanonicalBytes(record, p)
  {
    hide Encode, Decode, Validate, Encodable;
    SelfCheckNeverFires(record, p);
    EncodeDomain(record, p.nfc);
    DecodeOfEncode(record, p.nfc);
    back := Canon(record);
    CanonKeepsValidity(record, p);
    AcceptsExactlyTheImage(Encode(record, p.nfc).value, p.nfc);
    SelfCheckNeverFires(back, p);
  }

  /** Records with the same canonical bytes are equal records, and the other way round. */
  lemma BytesDecideRecords(r: Value, s: Value, p: Platform)
    requires CanonicalBytes(r, p).Ok? && CanonicalBytes(s, p).Ok?
    ensures CanonicalBytes(r, p) == CanonicalBytes(s, p) <==> Same(r, s)
  {
    hide Encode, Decode, Validate, Encodable, Same;
    SelfCheckNeverFires(r, p);
    SelfCheckNeverFires(s, p);
    EncodeDomain(r, p.nfc);
    EncodeDomain(s, p.nfc);
    EncodingDecidesEquality(r, s, p.nfc);
  }

  /** Validation leaves schema version 1 and a registered type, both plain ints, in the envelope. */
  lemma EnvelopeInts(record: Value, p: Platform)
    requires Validate(record, p).Ok?
    ensures Field(record, SCHEMA_VERSION) == Some(Int(1))
    ensures Field(record, RECORD_TYPE).Some? && Field(record, RECORD_TYPE).value.Int?
    ensures 1 <= Field(record, RECORD_TYPE).value.n <= 9
  {
    hide Check, CheckEntries, Fields, InRange, Lookup, Required;
    EnvelopePresent(record);
    var rt := TypeOf(Field(record, RECORD_TYPE).value).value;
    CheckedField(record, SCHEMA_VERSION, rt, p);
    CheckedField(record, RECORD_TYPE, rt, p);
    UIntIsInt(Field(record, SCHEMA_VERSION).value, p);
    UIntIsInt(Field(record, RECORD_TYPE).value, p);
  }

  lemma UIntIsInt(v: Value, p: Platform)
    requires Check(UInt, v, p).Ok?
    ensures v.Int?
  {
  }

  lemma CheckedField(record: Value, fid: int, rt: int, p: Platform)
    requires record.Map? && CheckEntries(record.entries, rt, p).Ok? && Field(record, fid).Some?
    ensures fid in ENVELOPE ==> Check(ENVELOPE[fid], Field(record, fid).value, p).Ok?
    ensures fid !in ENVELOPE && fid in Fields(rt) ==> Check(Fields(rt)[fid], Field(record, fid).value, p).Ok?
  {
    hide Check, CheckEntries, Fields, InRange;
    var i := LookupFinds(record.entries, Num(fid, true));
    CheckEntriesAll(record.entries, rt, p);
    assert CheckEntry(record.entries[i], rt, p).Ok?;
  }

  predicate Registered(rt: int, fid: int) {
    fid in ENVELOPE || (InRange(rt, fid) && (Fields(rt) == map[] || fid in Fields(rt)))
  }

  lemma ValidRecordIsRegistered(record: Value, p: Platform) returns (rt: int)
    requires Validate(record, p).Ok?
    ensures record.Map? && 1 <= rt <= 9 && Field(record, RECORD_TYPE) == Some(Int(rt))
    ensures forall e :: e in record.entries ==> e.key.Num? && Registered(rt, e.key.n)
    ensures forall fid :: fid in ENVELOPE || fid in Required(rt) ==> Field(record, fid).Some?
    ensures forall fid :: (fid in ENVELOPE || fid in Fields(rt)) && Field(record, fid).Some? ==>
              Check(KindOf(rt, fid), Field(record, fid).value, p).Ok?
  {
    hide Check, Lookup, CheckEntries, Fields, Required, InRange;
    EnvelopeInts(record, p);
    rt := Field(record, RECORD_TYPE).value.n;
    CheckEntriesAll(record.entries, rt, p);
    forall e | e in record.entries ensures e.key.Num? && Registered(rt, e.key.n) {
      assert CheckEntry(e, rt, p).Ok?;
    }
    forall fid | (fid in ENVELOPE || fid in Fields(rt)) && Field(record, fid).Some?
      ensures Check(KindOf(rt, fid), Field(record, fid).value, p).Ok?
    {
      CheckedField(record, fid, rt, p);
    }
  }

  /** The field set is closed: whatever record went in, the bytes decode to plain int keys that are registered for the
      record's type, with every envelope and required field among them, and each known field of its kind. */
  lemma FieldSetIsClosed(record: Value, p: Platform) returns (back: Value, rt: int)
    requires CanonicalBytes(record, p).Ok?
    ensures Decode(CanonicalBytes(record, p).value, p.nfc) == Ok(back) && back.Map?
    ensures 1 <= rt <= 9 && Field(back, RECORD_TYPE) == Some(Int(rt))
    ensures forall e :: e in back.entries ==> e.key.Num? && e.key.plain && Registered(rt, e.key.n)
    ensures forall fid :: fid in ENVELOPE || fid in Required(rt) ==> Field(back, fid).Some?
    ensures forall fid :: (fid in ENVELOPE || fid in Fields(rt)) && Field(back, fid).Some? ==>
              Check(KindOf(rt, fid), Field(back, fid).value, p).Ok?
  {
    hide Encode, Decode, Encodable, Validate, CanonicalBytes, Registered, Check, Fields, Required, Field;
    back := RecordClosure(record, p);
    rt := ValidRecordIsRegistered(back, p);
    SelfCheckNeverFires(back, p);
    EncodeDomain(back, p.nfc);
    EncodableKeys(back.entries, p.nfc);
    forall e | e in back.entries ensures e.key.Num? && e.key.plain {
      var i :| 0 <= i < |back.entries| && back.entries[i] == e;
    }
  }

  /** A key derivation's bytes hold the envelope, fields among 65 to 74 except 68, and all five required ones. */
  lemma KeyDerivationFields(record: Value, p: Platform) returns (back: Value)
    requires CanonicalBytes(record, p).Ok? && Field(record, RECORD_TYPE) == Some(Int(RT_KEY_DERIVATION))
    ensures Decode(CanonicalBytes(record, p).value, p.nfc) == Ok(back) && back.Map?
    ensures forall e :: e in back.entries ==>
              e.key.Num? && e.key.plain && e.key.n in {0, 1, 2, 3, 4, 65, 66, 67, 69, 70, 71, 72, 73, 74}
    ensures forall fid :: fid in {0, 1, 2, 3, 4, 65, 66, 67, 71, 72} ==> Field(back, fid).Some?
  {
    hide Encode, Decode, Encodable, Canon, Validate, CanonicalBytes, Field, Check;
    var rt;
    back, rt := FieldSetIsClosed(record, p);
    SelfCheckNeverFires(record, p);
    EncodeDomain(record, p.nfc);
    DecodeOfEncode(record, p.nfc);
    CanonicalIsMap(record, p);
    FieldOfCanon(record, RECORD_TYPE, p.nfc);
    CanonOfInt(RT_KEY_DERIVATION);
    assert 65 in Fields(RT_KEY_DERIVATION);
    forall fid | fid in {0, 1, 2, 3, 4, 65, 66, 67, 71, 72} ensures Field(back, fid).Some? {
      assert fid in ENVELOPE || fid in Required(RT_KEY_DERIVATION);
    }
  }

  lemma CanonicalIsMap(record: Value, p: Platform)
    requires CanonicalBytes(record, p).Ok?
    ensures record.Map?
  {
  }

  lemma CanonOfInt(n: int)
    ensures Canon(Int(n)) == Int(n)
  {
  }
}
