/** The values the Python writers build: the canonical row, the next chain row, the shared-address record and row. */
module Linkage {
  import opened Bytes
  import opened Results
  import opened CborModel
  import opened CborEncoder
  import opened CborDecoder
  import opened CborTheorems
  import opened Records
  import opened RecordTheorems
  import opened Tables
  import opened Integrity

  /** `_RECORD_TYPE_NAME`; KEY_CERTIFICATE has no entry. */
  function TypeName(rt: int): Option<string> {
    if rt == RT_INVOICE then Some("INVOICE")
    else if rt == RT_PAYMENT then Some("PAYMENT")
    else if rt == RT_CREDIT_NOTE then Some("CREDIT_NOTE")
    else if rt == RT_ADJUSTMENT then Some("ADJUSTMENT")
    else if rt == RT_STATEMENT then Some("STATEMENT")
    else if rt == RT_MESSAGE then Some("MESSAGE")
    else if rt == RT_WALLET_TRANSFER then Some("WALLET_TRANSFER")
    else if rt == RT_KEY_DERIVATION then Some("KEY_DERIVATION")
    else None
  }

  /** An int field that validation has already checked. */
  function IntField(record: Value, fid: int): Result<int> {
    match Field(record, fid)
    case Some(Int(n)) => Ok(n)
    case _ => Err(BadField)
  }

  /** What `record_canonical_and_chain` computes before its first statement. */
  function RowFor(p: Platform, entity: int, logicalKey: string, record: Value): Result<CanonRow> {
    var data :- CanonicalBytes(record, p);
    var rt :- IntField(record, RECORD_TYPE);
    var version :- IntField(record, SCHEMA_VERSION);
    match TypeName(rt)
    case None => Err(NoTypeName)
    case Some(name) => Ok(CanonRow(entity, name, logicalKey, data, p.sha256(data), version))
  }

  /** A record reaches the database exactly when it has canonical bytes and its type has a name. */
  lemma RowForDomain(p: Platform, entity: int, logicalKey: string, record: Value)
    ensures RowFor(p, entity, logicalKey, record).Ok? <==>
              CanonicalBytes(record, p).Ok? && Field(record, RECORD_TYPE) != Some(Int(RT_KEY_CERTIFICATE))
    ensures RowFor(p, entity, logicalKey, record).Ok? ==>
              var row := RowFor(p, entity, logicalKey, record).value;
              && row.entity == entity && row.logicalKey == logicalKey && row.schemaVersion == 1
              && row.sha == p.sha256(row.data) && row.recordType in TYPE_NAMES
              && CanonicalBytes(record, p) == Ok(row.data)
              && (Field(record, RECORD_TYPE) == Some(Int(RT_KEY_DERIVATION)) ==> row.recordType == KEY_DERIVATION)
  {
    hide Encode, Field, Validate;
    SelfCheckNeverFires(record, p);
    if CanonicalBytes(record, p).Ok? {
      EnvelopeInts(record, p);
    }
  }

  /** The type names, each for its number. */
  predicate NamedType(v: Option<Value>, name: string) {
    || (v == Some(Int(1)) && name == "INVOICE") || (v == Some(Int(2)) && name == "PAYMENT")
    || (v == Some(Int(3)) && name == "CREDIT_NOTE") || (v == Some(Int(4)) && name == "ADJUSTMENT")
    || (v == Some(Int(5)) && name == "STATEMENT") || (v == Some(Int(6)) && name == "MESSAGE")
    || (v == Some(Int(7)) && name == "WALLET_TRANSFER") || (v == Some(Int(8)) && name == "KEY_DERIVATION")
  }

  /** The row that is inserted for a record, column by column. */
  lemma RowForColumns(p: Platform, entity: int, logicalKey: string, record: Value, row: CanonRow)
    ensures RowFor(p, entity, logicalKey, record) == Ok(row) <==>
              && CanonicalBytes(record, p) == Ok(row.data) && row.sha == p.sha256(row.data)
              && row.entity == entity && row.logicalKey == logicalKey && row.schemaVersion == 1
              && NamedType(Field(record, 1), row.recordType)
  {
    hide Encode, Field, Validate;
    SelfCheckNeverFires(record, p);
    if CanonicalBytes(record, p).Ok? {
      EnvelopeInts(record, p);
    }
  }

  /** The next number and previous hash, from `ORDER BY seq DESC LIMIT 1`. */
  function NextLink(rows: seq<ChainRow>): (int, bytes) {
    if rows == [] then (1, GENESIS_PREV)
    else
      match EntryAt(rows, LastNumber(rows))
      case Some(entry) => (LastNumber(rows) + 1, entry)
      case None => assert false by { LastRowExists(rows); } (1, GENESIS_PREV)
  }

  lemma LastRowExists(rows: seq<ChainRow>)
    requires rows != []
    ensures EntryAt(rows, LastNumber(rows)).Some?
  {
    var i := LastNumberIndex(rows);
    EntryExists(rows, i);
  }

  function LinkFor(p: Platform, entity: int, canonicalId: int, sha: bytes, next: (int, bytes)): ChainRow {
    ChainRow(next.0, entity, canonicalId, next.1, p.sha256(next.1 + sha))
  }

  /** On an intact chain the row built from a current read is the one the trigger accepts, and the only one for this
      record. */
  lemma CurrentReadIsAccepted(w: World, t: Tables, entity: int, canonicalId: int, next: (int, bytes))
    requires Intact(w.platform, t.canonical, ChainOf(t.chain, entity)) && FitsInt(entity)
    requires canonicalId in t.canonical && t.canonical[canonicalId].entity == entity
    ensures var row := LinkFor(w.platform, entity, canonicalId, t.canonical[canonicalId].sha, next);
            AuditAppend(w, t, row).Ok? <==> next == NextLink(ChainOf(t.chain, entity))
    ensures NextLink(ChainOf(t.chain, entity)) == (|ChainOf(t.chain, entity)| + 1, Tip(ChainOf(t.chain, entity)))
  {
    hide AuditAppend, ChainOf;
    var rows := ChainOf(t.chain, entity);
    IntactEnd(w.platform, t.canonical, rows);
    AppendIsOneMoreLink(w, t, LinkFor(w.platform, entity, canonicalId, t.canonical[canonicalId].sha, next));
  }

  /** A chain starts with number 1 and 32 zero bytes; after that, with the row whose number is the largest. */
  lemma NextLinkReads(rows: seq<ChainRow>) returns (last: int)
    ensures rows == [] ==> NextLink(rows).0 == 1 && AllZero(NextLink(rows).1)
    ensures rows != [] ==>
              && 0 <= last < |rows| && NextLink(rows) == (rows[last].number + 1, rows[last].entry)
              && forall i :: 0 <= i < |rows| ==> rows[i].number <= rows[last].number
  {
    GenesisIsZero(GENESIS_PREV);
    last := 0;
    if rows != [] {
      var i := LastNumberIndex(rows);
      EntryExists(rows, i);
      last := EntryAtMember(rows, LastNumber(rows));
    }
  }

  // record_shared_address

  /** The arguments of `record_shared_address`, with the engine's output decoded from hex. */
  datatype SharedArgs = SharedArgs(entity: int, wallet: int, counterparty: int,
    entityUid: bytes, counterpartyUid: bytes, masterA: bytes, masterB: bytes, invoice: int, payment: int,
    pubkey: bytes, text: string, saltCommitment: bytes, createdAt: string, logicalKey: string)

  const KD_PAYMENT_ADDRESS := 1

  function Plain(fid: int, value: Value): Entry {
    Entry(Num(fid, true), value)
  }

  function KeyDerivationRecord(a: SharedArgs): Value {
    Map([
      Plain(SCHEMA_VERSION, Int(1)), Plain(RECORD_TYPE, Int(RT_KEY_DERIVATION)), Plain(ENTITY_UID, Blob(a.entityUid)),
      Plain(LOGICAL_KEY, Text(a.logicalKey)), Plain(CREATED_AT, Text(a.createdAt)),
      Plain(65, Int(KD_PAYMENT_ADDRESS)), Plain(66, Blob(a.masterA)), Plain(67, Blob(a.masterB)),
      Plain(69, Int(a.invoice)), Plain(70, Int(a.payment)), Plain(71, Blob(a.pubkey)),
      Plain(72, Blob(a.saltCommitment)), Plain(73, Text(a.text)), Plain(74, Blob(a.counterpartyUid))])
  }

  function Digit(n: int): char
    requires 0 <= n < 10
  {
    ['0', '1', '2', '3', '4', '5', '6', '7', '8', '9'][n]
  }

  /** `str(n)`. */
  function Decimal(n: int): string
    decreases n < 0, if n < 0 then -n else n
  {
    if n < 0 then "-" + Decimal(-n)
    else if n < 10 then [Digit(n)]
    else Decimal(n / 10) + [Digit(n % 10)]
  }

  function AddressFor(a: SharedArgs, canonicalId: int): AddressRow {
    AddressRow(a.wallet, a.entity, "shared/" + Decimal(a.invoice) + "/" + Decimal(a.payment), a.pubkey, a.text,
      "INVOICE", SHARED_ECDH, Some(a.counterparty), Some(1), Some(1),
      Some(a.invoice), Some(a.payment), Some(canonicalId), None, Some(a.saltCommitment))
  }

  /** The number a text of digits stands for. */
  function NumberOf(s: string): int {
    if s == "" then 0 else NumberOf(s[..|s| - 1]) * 10 + (s[|s| - 1] as int - '0' as int)
  }

  /** `str(n)`: the digits of the number, without a leading zero, after a minus sign if it is negative. */
  lemma {:induction false} DecimalIsNumeral(n: int)
    requires n >= 0
    ensures Decimal(n) != "" && NumberOf(Decimal(n)) == n && (n > 0 ==> Decimal(n)[0] != '0')
    ensures forall i :: 0 <= i < |Decimal(n)| ==> '0' <= Decimal(n)[i] <= '9'
    ensures n > 0 ==> Decimal(-n) == "-" + Decimal(n)
  {
    if n >= 10 {
      var front := Decimal(n / 10);
      DecimalIsNumeral(n / 10);
      assert Decimal(n)[..|Decimal(n)| - 1] == front;
    } else {
      assert Decimal(n) == [Digit(n)] && Decimal(n)[..0] == "";
    }
  }

  /** The address row, column by column. */
  lemma AddressColumns(a: SharedArgs, canonicalId: int)
    ensures var row := AddressFor(a, canonicalId);
            && row.wallet == a.wallet && row.entity == a.entity && row.pubkey == a.pubkey && row.text == a.text
            && row.path == "shared/" + Decimal(a.invoice) + "/" + Decimal(a.payment)
            && row.purpose == "INVOICE" && row.derivation == "SHARED_ECDH"
            && row.counterparty == Some(a.counterparty) && row.schemeVersion == Some(1) && row.domain == Some(1)
            && row.invoice == Some(a.invoice) && row.payment == Some(a.payment)
            && row.keyDerivationId == Some(canonicalId) && row.saltDet == None
            && row.saltCommitment == Some(a.saltCommitment)
  {
  }

  /** The decoded record and the address row carry the same public values, in fields 69 to 73. */
  predicate FieldsAgree(p: Platform, data: bytes, row: AddressRow) {
    && row.invoice.Some? && row.payment.Some? && row.saltCommitment.Some?
    && Decode(data, p.nfc).Ok?
    && var record := Decode(data, p.nfc).value;
       && Field(record, RECORD_TYPE) == Some(Int(RT_KEY_DERIVATION))
       && Field(record, 69) == Some(Int(row.invoice.value))
       && Field(record, 70) == Some(Int(row.payment.value))
       && Field(record, 71) == Some(Blob(row.pubkey))
       && Field(record, 72) == Some(Blob(row.saltCommitment.value))
       && Field(record, 73) == Some(Text(row.text))
  }

  /** The five columns that a chained record also shows. */
  predicate SamePublicValues(a: AddressRow, b: AddressRow) {
    && a.invoice == b.invoice && a.payment == b.payment && a.pubkey == b.pubkey
    && a.saltCommitment == b.saltCommitment && a.text == b.text
  }

  /** A row that agrees with a record still does after a change exactly when none of the five columns changed. */
  lemma AgreementAfterChange(p: Platform, data: bytes, before: AddressRow, after: AddressRow)
    requires FieldsAgree(p, data, before)
    ensures FieldsAgree(p, data, after) <==> SamePublicValues(before, after)
  {
  }

  lemma FieldAt(record: Value, i: int, fid: int, p: Platform)
    requires record.Map? && 0 <= i < |record.entries| && record.entries[i].key == Num(fid, true)
    requires Encodable(record, p.nfc)
    requires record.entries[i].value.Int? || record.entries[i].value.Blob? || record.entries[i].value.Text?
    ensures Field(record, fid) == Some(record.entries[i].value)
    ensures Field(Canon(record), fid) == Some(record.entries[i].value)
  {
    hide Canon;
    LookupMember(record.entries, i, Num(fid, true));
    FieldOfCanon(record, fid, p.nfc);
    CanonOfLeaf(record.entries[i].value);
  }

  lemma CanonOfLeaf(v: Value)
    requires v.Int? || v.Blob? || v.Text?
    ensures Canon(v) == v
  {
  }

  /** The chained bytes and the address row agree because both are built from one engine output: the bytes
      decode to the very values the row holds. */
  lemma SharedFieldsAgree(p: Platform, a: SharedArgs, data: bytes, canonicalId: int)
    requires CanonicalBytes(KeyDerivationRecord(a), p) == Ok(data)
    ensures FieldsAgree(p, data, AddressFor(a, canonicalId))
    ensures Field(KeyDerivationRecord(a), RECORD_TYPE) == Some(Int(RT_KEY_DERIVATION))
    ensures Field(KeyDerivationRecord(a), SCHEMA_VERSION) == Some(Int(1))
  {
    hide CanonicalBytes, Encode, Decode, Encodable, Canon, Decimal, Validate, Field;
    var record := KeyDerivationRecord(a);
    SelfCheckNeverFires(record, p);
    EncodeDomain(record, p.nfc);
    DecodeOfEncode(record, p.nfc);
    FieldAt(record, 0, SCHEMA_VERSION, p);
    FieldAt(record, 1, RECORD_TYPE, p);
    FieldAt(record, 8, 69, p);
    FieldAt(record, 9, 70, p);
    FieldAt(record, 10, 71, p);
    FieldAt(record, 11, 72, p);
    FieldAt(record, 12, 73, p);
  }
}
