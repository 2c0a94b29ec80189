/** What the guards of the tables let through, column by column. */
module Guards {
  import opened Results
  import opened Sorting
  import opened Records
  import opened Tables
  import opened Verifier
  import opened Integrity

  // Unique keys

  predicate SameRecordKey(a: CanonRow, b: CanonRow) {
    a.entity == b.entity && a.recordType == b.recordType && a.logicalKey == b.logicalKey && a.sha == b.sha
  }

  predicate SameText(a: AddressRow, b: AddressRow) {
    a.entity == b.entity && a.text == b.text
  }

  /** Both rows are SHARED_ECDH, and agree in six columns, none of them NULL. */
  predicate SameSharedContext(a: AddressRow, b: AddressRow) {
    && a.derivation == "SHARED_ECDH" && b.derivation == "SHARED_ECDH"
    && a.counterparty.Some? && a.schemeVersion.Some? && a.domain.Some? && a.invoice.Some? && a.payment.Some?
    && a.entity == b.entity && a.counterparty == b.counterparty && a.schemeVersion == b.schemeVersion
    && a.domain == b.domain && a.invoice == b.invoice && a.payment == b.payment
  }

  /** A row under another id has the record key. */
  predicate RecordTaken(rows: map<int, CanonRow>, id: int, row: CanonRow) {
    exists j :: j in rows && j != id && SameRecordKey(rows[j], row)
  }

  predicate TextTaken(rows: map<int, AddressRow>, id: int, row: AddressRow) {
    exists j :: j in rows && j != id && SameText(rows[j], row)
  }

  predicate ContextTaken(rows: map<int, AddressRow>, id: int, row: AddressRow) {
    exists j :: j in rows && j != id && SameSharedContext(rows[j], row)
  }

  lemma RecordIndex(rows: map<int, CanonRow>, id: int, row: CanonRow)
    ensures CanonFree(rows, id, row) <==> !RecordTaken(rows, id, row)
  {
    forall j | j in rows ensures CanonIndex(rows[j]) == CanonIndex(row) <==> SameRecordKey(rows[j], row) {
    }
  }

  lemma AddressTextIndex(rows: map<int, AddressRow>, id: int, row: AddressRow)
    ensures TextFree(rows, id, row) <==> !TextTaken(rows, id, row)
  {
    forall j | j in rows ensures TextIndex(rows[j]) == TextIndex(row) <==> SameText(rows[j], row) {
    }
  }

  lemma SharedContextIndex(rows: map<int, AddressRow>, id: int, row: AddressRow)
    ensures ContextFree(rows, id, row) <==> !ContextTaken(rows, id, row)
  {
    forall j | j in rows
      ensures ContextIndex(row).Some? && ContextIndex(rows[j]) == ContextIndex(row) <==> SameSharedContext(rows[j], row)
    {
    }
  }

  // evid.canonical_record

  /** A wrong sha is refused as such, whatever the type and the keys, once the columns hold the values. */
  lemma CanonicalRaises(w: World, t: Tables, id: int, row: CanonRow)
    requires -0x8000_0000 <= row.schemaVersion < 0x8000_0000 && '\0' !in row.logicalKey
    ensures InsertCanonical(w, t, id, row) == Err(ShaMismatch) <==> row.sha != w.platform.sha256(row.data)
    ensures InsertCanonical(w, t, id, row) == Err(DuplicateRecord) ==> RecordTaken(t.canonical, id, row)
  {
    hide CanonFree, RecordTaken;
    RecordIndex(t.canonical, id, row);
  }

  /** A record row is taken exactly when its columns fit, its sha is right, its entity exists and its key is new. */
  lemma CanonicalAccepted(w: World, t: Tables, id: int, row: CanonRow)
    ensures InsertCanonical(w, t, id, row).Ok? <==>
              && -0x8000_0000 <= row.schemaVersion < 0x8000_0000 && '\0' !in row.logicalKey
              && row.sha == w.platform.sha256(row.data)
              && row.recordType in {"INVOICE", "PAYMENT", "CREDIT_NOTE", "ADJUSTMENT", "STATEMENT", "MESSAGE",
                                    "WALLET_TRANSFER", "KEY_DERIVATION", "KEY_CERTIFICATE"}
              && row.entity in w.entities
              && !RecordTaken(t.canonical, id, row)
    ensures InsertCanonical(w, t, id, row).Ok? ==>
              InsertCanonical(w, t, id, row).value == Tables(t.canonical[id := row], t.chain, t.addresses)
  {
    hide CanonFree, RecordTaken;
    RecordIndex(t.canonical, id, row);
  }

  // evid.audit_chain

  /** The first row of a chain: seq 1, 32 zero bytes before it, over a present record of its entity. */
  predicate FirstRow(w: World, t: Tables, row: ChainRow) {
    && row.number == 1 && AllZero(row.prev)
    && row.canonicalId in t.canonical && row.entry == w.platform.sha256(row.prev + t.canonical[row.canonicalId].sha)
  }

  lemma FirstRowAccepted(w: World, t: Tables, row: ChainRow)
    requires forall r :: r in t.chain ==> r.entity != row.entity
    ensures InsertChain(w, t, row).Ok? <==>
              && FirstRow(w, t, row) && t.canonical[row.canonicalId].entity == row.entity
              && -0x8000_0000 <= row.entity < 0x8000_0000 && row.entity in w.entities
  {
    NoRows(t.chain, row.entity);
    GenesisIsZero(row.prev);
  }

  lemma {:induction false} NoRows(chain: seq<ChainRow>, entity: int)
    requires forall r :: r in chain ==> r.entity != entity
    ensures ChainOf(chain, entity) == []
  {
    if chain != [] {
      NoRows(chain[..|chain| - 1], entity);
    }
  }

  /** A table of one row verifies exactly when that is the first row of a chain. */
  lemma OneRowVerifies(w: World, t: Tables, row: ChainRow)
    requires t.chain == [row] && row.canonicalId in t.canonical
    ensures VerifyChain(w.platform, t, row.entity) == None <==> FirstRow(w, t, row)
  {
    hide VerifyChain;
    ChainOfAppend([], row, row.entity);
    assert [] + [row] == [row];
    PresentIsAll(t.canonical, [row]);
    VerdictIsIntact(w.platform, t, row.entity);
    assert Sort([row], RowBefore) == Insert(row, [], RowBefore) == [row];
    assert Audited(t, row.entity) == [row];
    GenesisIsZero(row.prev);
    assert Intact(w.platform, t.canonical, [row]) <==> LinkedAt(w.platform, t.canonical, [row], 0);
  }

  /** A row is appended exactly when the trigger lets it pass, its hashes have 32 bytes, its number is new in its
      entity's chain and its entity exists; then it stands last. */
  lemma ChainAccepted(w: World, t: Tables, row: ChainRow)
    ensures InsertChain(w, t, row).Ok? <==>
              && AuditAppend(w, t, row).Ok? && |row.prev| == 32 && |row.entry| == 32 && row.entity in w.entities
              && forall r :: r in t.chain && r.entity == row.entity ==> r.number != row.number
    ensures InsertChain(w, t, row).Ok? ==>
              InsertChain(w, t, row).value == Tables(t.canonical, t.chain + [row], t.addresses)
  {
    hide AuditAppend;
    var rows := ChainOf(t.chain, row.entity);
    forall r ensures r in rows <==> r in t.chain && r.entity == row.entity {
      ChainOfMembers(t.chain, row.entity, r);
    }
    if EntryAt(rows, row.number).Some? {
      var i := EntryAtMember(rows, row.number);
      assert rows[i] in rows;
    }
    forall r | r in rows && r.number == row.number ensures EntryAt(rows, row.number).Some? {
      var i :| 0 <= i < |rows| && rows[i] == r;
      EntryExists(rows, i);
    }
  }

  /** What the trigger says when it refuses a row of an intact chain: the first of its checks that fails. */
  lemma TriggerRaises(w: World, t: Tables, row: ChainRow)
    requires VerifyChain(w.platform, t, row.entity) == None && RecordsPresent(t.canonical, ChainOf(t.chain, row.entity))
    ensures var r, rows := AuditAppend(w, t, row), Audited(t, row.entity);
            var fits := -0x8000_0000 <= row.entity < 0x8000_0000;
            var next := fits && row.number == |rows| + 1;
            var linked := next && if rows == [] then AllZero(row.prev) else row.prev == rows[|rows| - 1].entry;
            var present := linked && row.canonicalId in t.canonical;
            && (r == Err(IntegerRange) <==> !fits)
            && (r == Err(WrongSeq) <==> fits && !next)
            && (r == Err(WrongPrev) <==> next && !linked)
            && (r == Err(MissingCanonical) <==> linked && !present)
            && (r == Err(EntityMismatch) <==> present && t.canonical[row.canonicalId].entity != row.entity)
            && (r == Err(WrongEntryHash) <==>
                  && present && t.canonical[row.canonicalId].entity == row.entity
                  && row.entry != w.platform.sha256(row.prev + t.canonical[row.canonicalId].sha))
  {
    hide VerifyChain, Intact, ChainOf;
    VerdictIsIntact(w.platform, t, row.entity);
    PresentIsAll(t.canonical, ChainOf(t.chain, row.entity));
    SortedEnd(w.platform, t.canonical, ChainOf(t.chain, row.entity));
    GenesisIsZero(row.prev);
  }

  // wallet.address

  predicate Within(n: Option<int>, low: int, high: int) {
    n.Some? ==> low <= n.value < high
  }

  /** The column types, the CHECKs of migrations 0010 and 0022, and the foreign keys. */
  predicate ColumnsFit(w: World, t: Tables, row: AddressRow) {
    && Within(row.invoice, -0x8000_0000_0000_0000, 0x8000_0000_0000_0000)
    && Within(row.payment, -0x8000_0000_0000_0000, 0x8000_0000_0000_0000)
    && Within(row.schemeVersion, -0x8000_0000, 0x8000_0000) && Within(row.domain, -0x8000, 0x8000)
    && '\0' !in row.path && '\0' !in row.text
    && row.purpose in {"RECEIVE", "CHANGE", "INVOICE", "FEE", "TOKEN"}
    && row.derivation in {"SINGLE_PARTY_HD", "SHARED_ECDH"}
    && |row.pubkey| == 33 && (row.saltDet.Some? ==> |row.saltDet.value| == 32)
    && (row.saltCommitment.Some? ==> |row.saltCommitment.value| == 32)
    && row.entity in w.entities && row.wallet in w.wallets
    && (row.counterparty.Some? ==> row.counterparty.value in w.counterparties)
    && (row.keyDerivationId.Some? ==> row.keyDerivationId.value in t.canonical)
  }

  /** What a SHARED_ECDH row needs besides: its whole context, and a chained KEY_DERIVATION record of its entity. */
  predicate SharedFits(t: Tables, row: AddressRow) {
    && row.counterparty.Some? && row.schemeVersion.Some? && row.domain.Some? && row.invoice.Some? && row.payment.Some?
    && row.saltCommitment.Some? && row.keyDerivationId.Some? && row.keyDerivationId.value in t.canonical
    && t.canonical[row.keyDerivationId.value].recordType == "KEY_DERIVATION"
    && t.canonical[row.keyDerivationId.value].entity == row.entity
    && exists link :: link in t.chain && link.canonicalId == row.keyDerivationId.value
  }

  /** A row of either derivation is written, on INSERT and UPDATE alike, exactly when its columns fit, neither its
      text nor its context is taken, and, if it is SHARED_ECDH, it is complete and bound. */
  lemma AddressAccepted(w: World, t: Tables, id: int, row: AddressRow)
    ensures PutAddress(w, t, id, row).Ok? <==>
              && ColumnsFit(w, t, row) && (row.derivation == "SHARED_ECDH" ==> SharedFits(t, row))
              && !TextTaken(t.addresses, id, row) && !ContextTaken(t.addresses, id, row)
    ensures PutAddress(w, t, id, row).Ok? ==>
              PutAddress(w, t, id, row).value == Tables(t.canonical, t.chain, t.addresses[id := row])
  {
    hide TextFree, ContextFree, TextTaken, ContextTaken;
    AddressTextIndex(t.addresses, id, row);
    SharedContextIndex(t.addresses, id, row);
    if row.derivation == SHARED_ECDH && row.keyDerivationId.Some? {
      ChainedRow(t.chain, row.keyDerivationId.value);
    }
  }

  lemma ChainedRow(chain: seq<ChainRow>, id: int)
    ensures Chained(chain, id) <==> exists link :: link in chain && link.canonicalId == id
  {
    if link :| link in chain && link.canonicalId == id {
      var i :| 0 <= i < |chain| && chain[i] == link;
    }
    if Chained(chain, id) {
      var i :| 0 <= i < |chain| && chain[i].canonicalId == id;
      assert chain[i] in chain;
    }
  }

  /** Of two refusals the source keeps apart, a taken text and a taken context, each is raised for its own reason. */
  lemma RefusedForItsKey(w: World, t: Tables, id: int, row: AddressRow)
    requires ColumnsFit(w, t, row) && (row.derivation == "SHARED_ECDH" ==> SharedFits(t, row))
    ensures PutAddress(w, t, id, row) == Err(DuplicateAddressText) <==> TextTaken(t.addresses, id, row)
    ensures PutAddress(w, t, id, row) == Err(DuplicateContext) <==>
              !TextTaken(t.addresses, id, row) && ContextTaken(t.addresses, id, row)
  {
    hide TextFree, ContextFree, TextTaken, ContextTaken;
    AddressTextIndex(t.addresses, id, row);
    SharedContextIndex(t.addresses, id, row);
    if row.derivation == SHARED_ECDH {
      ChainedRow(t.chain, row.keyDerivationId.value);
    }
  }

  /** What the binding trigger says when it refuses a SHARED_ECDH row: the first of its checks that fails. */
  lemma BindingRaises(t: Tables, row: AddressRow)
    requires row.derivation == "SHARED_ECDH"
    ensures var r, id := SharedBinding(t, row), row.keyDerivationId;
            var present := id.Some? && id.value in t.canonical;
            var typed := present && t.canonical[id.value].recordType == "KEY_DERIVATION";
            var own := typed && t.canonical[id.value].entity == row.entity;
            && (r == Err(MissingCanonical) <==> !present)
            && (r == Err(NotKeyDerivation) <==> present && !typed)
            && (r == Err(EntityMismatch) <==> typed && !own)
            && (r == Err(NotChained) <==> own && !exists link :: link in t.chain && link.canonicalId == id.value)
  {
    if row.keyDerivationId.Some? {
      ChainedRow(t.chain, row.keyDerivationId.value);
    }
  }
}
