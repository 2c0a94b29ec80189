/** How far the database itself protects the binding of an address to its record: a direct UPDATE can break it. */
module Unbinding {
  import opened Bytes
  import opened Results
  import opened CborEncoder
  import opened CborDecoder
  import opened CborTheorems
  import opened Records
  import opened RecordTheorems
  import opened Tables
  import opened Linkage
  import opened DerivationArgs
  import opened Session
  import opened Writers
  import Utf8

  /** After any successful `record_shared_address`, an UPDATE of the pubkey to any other 33 bytes passes every
      guard of the table, and the row no longer shows what its record says. */
  lemma DirectUpdateUnbinds(w: World, t: Tables, cid: int, aid: int, a: SharedArgs, pubkey: bytes)
    requires Recordable(w, t, cid, a.entity, a.logicalKey, KeyDerivationRecord(a)) && Placeable(w, t, aid, a)
    requires |pubkey| == 33 && pubkey != a.pubkey
    ensures var before, row := WithShared(w, t, cid, aid, a), AddressFor(a, cid);
            && FieldsAgree(w.platform, before.canonical[cid].data, row)
            && PutAddress(w, before, aid, row.(pubkey := pubkey)).Ok?
            && !FieldsBound(w.platform, PutAddress(w, before, aid, row.(pubkey := pubkey)).value)
  {
    hide RowFor, FieldsAgree, KeyDerivationRecord, Decimal, NextRow, ContextIndex;
    var record := KeyDerivationRecord(a);
    var canon := RowFor(w.platform, a.entity, a.logicalKey, record).value;
    var before, row := WithShared(w, t, cid, aid, a), AddressFor(a, cid);
    var changed := row.(pubkey := pubkey);
    AddressGoesIn(w, t, cid, aid, a);
    RowForDomain(w.platform, a.entity, a.logicalKey, record);
    SharedFieldsAgree(w.platform, a, canon.data, cid);
    GuardsIgnoreTheKey(w, WithRecord(w, t, cid, canon), aid, row, pubkey);
    AgreementAfterChange(w.platform, canon.data, row, changed);
    var after := PutAddress(w, before, aid, changed).value;
    assert aid in after.addresses && after.addresses[aid] == changed;
  }

  /** No guard reads more of the pubkey than its length, nor the row's own old version. */
  lemma GuardsIgnoreTheKey(w: World, t: Tables, id: int, row: AddressRow, pubkey: bytes)
    requires PutAddress(w, t, id, row).Ok? && |pubkey| == 33
    ensures var before, changed := PutAddress(w, t, id, row).value, row.(pubkey := pubkey);
            PutAddress(w, before, id, changed) == Ok(before.(addresses := before.addresses[id := changed]))
  {
  }

  // One input, written out

  const STAMP := "2026-06-01T00:00:00.000Z"

  const EXAMPLE := SharedArgs(1, 1, 1, Zeros(16), Zeros(16), Zeros(33), Zeros(33), 7, 0,
    Zeros(33), "a", Zeros(32), STAMP, "key")

  function ExampleWorld(p: Platform): World {
    World(p, {1}, {1}, {1})
  }

  /** The texts are NFC, and the timestamp has the demanded shape; of the hash nothing is asked. */
  predicate TakesExample(p: Platform) {
    p.nfc("key") && p.nfc("a") && p.nfc(STAMP) && p.timeShape(STAMP)
  }

  lemma ExampleIsRecordable(p: Platform)
    requires TakesExample(p)
    ensures Recordable(ExampleWorld(p), EMPTY, 1, EXAMPLE.entity, EXAMPLE.logicalKey, KeyDerivationRecord(EXAMPLE))
    ensures Placeable(ExampleWorld(p), EMPTY, 1, EXAMPLE)
  {
    hide Encode, Decode, Encodable, Validate, KeyDerivationRecord, Field, CanonicalBytes, RowFor, Utf8.Encode;
    var record := KeyDerivationRecord(EXAMPLE);
    Utf8.EncodedLength(EXAMPLE.logicalKey);
    Utf8.EncodedLength(EXAMPLE.createdAt);
    Utf8.EncodedLength(EXAMPLE.text);
    KeyDerivationValidates(p, EXAMPLE);
    KeyDerivationEncodes(p, EXAMPLE);
    SelfCheckNeverFires(record, p);
    EncodeDomain(record, p.nfc);
    ArgsHaveFields(EXAMPLE);
    RowForDomain(p, EXAMPLE.entity, EXAMPLE.logicalKey, record);
  }

  /** On empty tables: record the example, then change its key. Every guard accepts both, and the binding is gone. */
  lemma ExampleUnbinds(p: Platform)
    requires TakesExample(p)
    ensures Recordable(ExampleWorld(p), EMPTY, 1, EXAMPLE.entity, EXAMPLE.logicalKey, KeyDerivationRecord(EXAMPLE))
    ensures var w, key := ExampleWorld(p), [1] + Zeros(32);
            var before, row := WithShared(w, EMPTY, 1, 1, EXAMPLE), AddressFor(EXAMPLE, 1);
            && FieldsAgree(p, before.canonical[1].data, row)
            && PutAddress(w, before, 1, row.(pubkey := key)).Ok?
            && !FieldsBound(p, PutAddress(w, before, 1, row.(pubkey := key)).value)
  {
    hide RowFor, FieldsAgree, KeyDerivationRecord, PutAddress, FieldsBound, AddressFor;
    ExampleIsRecordable(p);
    assert Zeros(33)[0] == 0;
    DirectUpdateUnbinds(ExampleWorld(p), EMPTY, 1, 1, EXAMPLE, [1] + Zeros(32));
  }
}
