/** The evidence and address tables, and the statements and triggers that guard their rows. */
module Tables {
  import opened Bytes
  import opened Results
  import opened Records

  /** A row of `evid.canonical_record`, without its id. */
  datatype CanonRow = CanonRow(entity: int, recordType: string, logicalKey: string,
    data: bytes, sha: bytes, schemaVersion: int)

  /** A row of `evid.audit_chain`; `number` is the column `seq`. */
  datatype ChainRow = ChainRow(number: int, entity: int, canonicalId: int, prev: bytes, entry: bytes)

  /** A row of `wallet.address`, without its id; NULL is None. */
  datatype AddressRow = AddressRow(wallet: int, entity: int, path: string, pubkey: bytes, text: string, purpose: string,
    derivation: string, counterparty: Option<int>, schemeVersion: Option<int>, domain: Option<int>,
    invoice: Option<int>, payment: Option<int>, keyDerivationId: Option<int>,
    saltDet: Option<bytes>, saltCommitment: Option<bytes>)

  /** The tables as one statement sees them; keyed tables are maps from their ids. */
  datatype Tables = Tables(canonical: map<int, CanonRow>, chain: seq<ChainRow>, addresses: map<int, AddressRow>)

  const EMPTY := Tables(map[], [], map[])

  /** The platform, and the rows other tables hold for foreign keys to point at. */
  datatype World = World(platform: Platform, entities: set<int>, wallets: set<int>, counterparties: set<int>)

  const KEY_DERIVATION := "KEY_DERIVATION"
  const SHARED_ECDH := "SHARED_ECDH"

  /** The CHECK on `record_type` after migrations 0005, 0023 and 0025. */
  const TYPE_NAMES: set<string> := {"INVOICE", "PAYMENT", "CREDIT_NOTE", "ADJUSTMENT", "STATEMENT",
    "MESSAGE", "WALLET_TRANSFER", "KEY_DERIVATION", "KEY_CERTIFICATE"}

  const PURPOSES: set<string> := {"RECEIVE", "CHANGE", "INVOICE", "FEE", "TOKEN"}
  const DERIVATIONS: set<string> := {"SINGLE_PARTY_HD", "SHARED_ECDH"}

  predicate FitsInt(n: int) {
    -0x8000_0000 <= n < 0x8000_0000
  }

  predicate FitsSmallint(n: int) {
    -0x8000 <= n < 0x8000
  }

  predicate FitsBigint(n: int) {
    -0x8000_0000_0000_0000 <= n < 0x8000_0000_0000_0000
  }

  /** A text value PostgreSQL can hold. */
  predicate Storable(s: string) {
    '\0' !in s
  }

  // Unique indexes

  /** No row but the one under `id` has this key; a key with a NULL in it (None) never clashes. */
  predicate Free<R, K(==)>(rows: map<int, R>, id: int, key: Option<K>, index: R -> Option<K>) {
    key.None? || forall j :: j in rows && j != id ==> index(rows[j]) != key
  }

  datatype CanonKey = CanonKey(entity: int, recordType: string, logicalKey: string, sha: bytes)
  datatype TextKey = TextKey(entity: int, text: string)
  datatype ContextKey = ContextKey(entity: int, counterparty: int, schemeVersion: int,
    domain: int, invoice: int, payment: int)

  /** `canonical_key_uniq`. */
  function CanonIndex(r: CanonRow): Option<CanonKey> {
    Some(CanonKey(r.entity, r.recordType, r.logicalKey, r.sha))
  }

  /** `addr_text_uniq`. */
  function TextIndex(r: AddressRow): Option<TextKey> {
    Some(TextKey(r.entity, r.text))
  }

  /** `addr_shared_ctx_uniq`: partial, and blind to a row with a NULL among its columns. */
  function ContextIndex(r: AddressRow): Option<ContextKey> {
    if r.derivation == SHARED_ECDH && r.counterparty.Some? && r.schemeVersion.Some? && r.domain.Some?
       && r.invoice.Some? && r.payment.Some?
    then Some(ContextKey(r.entity, r.counterparty.value, r.schemeVersion.value,
                         r.domain.value, r.invoice.value, r.payment.value))
    else None
  }

  predicate CanonFree(rows: map<int, CanonRow>, id: int, row: CanonRow) {
    Free(rows, id, CanonIndex(row), CanonIndex)
  }

  predicate TextFree(rows: map<int, AddressRow>, id: int, row: AddressRow) {
    Free(rows, id, TextIndex(row), TextIndex)
  }

  predicate ContextFree(rows: map<int, AddressRow>, id: int, row: AddressRow) {
    Free(rows, id, ContextIndex(row), ContextIndex)
  }

  // evid.canonical_record

  /** INSERT INTO evid.canonical_record, with `fn_canonical_check`. */
  function InsertCanonical(w: World, t: Tables, id: int, row: CanonRow): Result<Tables> {
    if !FitsInt(row.schemaVersion) then Err(IntegerRange)
    else if !Storable(row.logicalKey) then Err(NulInText)
    else if w.platform.sha256(row.data) != row.sha then Err(ShaMismatch)
    else if row.recordType !in TYPE_NAMES then Err(BadTypeName)
    else if !CanonFree(t.canonical, id, row) then Err(DuplicateRecord)
    else if row.entity !in w.entities then Err(NoSuchEntity)
    else Ok(t.(canonical := t.canonical[id := row]))
  }

  // evid.audit_chain

  /** The rows of one entity, in table order. */
  function ChainOf(chain: seq<ChainRow>, entity: int): seq<ChainRow> {
    if chain == [] then []
    else
      var front := ChainOf(chain[..|chain| - 1], entity);
      var last := chain[|chain| - 1];
      if last.entity == entity then front + [last] else front
  }

  /** `COALESCE(max(seq), 0)` over the rows given. */
  function LastNumber(rows: seq<ChainRow>): int {
    if rows == [] then 0
    else if |rows| == 1 then rows[0].number
    else
      var last := LastNumber(rows[..|rows| - 1]);
      if last < rows[|rows| - 1].number then rows[|rows| - 1].number else last
  }

  /** The entry hash of the row with this number, as `SELECT entry_hash` finds it. */
  function EntryAt(rows: seq<ChainRow>, number: int): Option<bytes> {
    if rows == [] then None
    else if rows[0].number == number then Some(rows[0].entry)
    else EntryAt(rows[1..], number)
  }

  /** What the trigger and the Python linkage both take as the previous hash; a NULL would compare as no mismatch. */
  function PreviousHash(rows: seq<ChainRow>): Option<bytes> {
    if LastNumber(rows) == 0 then Some(GENESIS_PREV) else EntryAt(rows, LastNumber(rows))
  }

  /** `fn_audit_append`, after its lock is held. */
  function AuditAppend(w: World, t: Tables, row: ChainRow): Result<()> {
    var rows := ChainOf(t.chain, row.entity);
    var expected := PreviousHash(rows);
    if !FitsInt(row.entity) then Err(IntegerRange)
    else if row.number != LastNumber(rows) + 1 then Err(WrongSeq)
    else if expected.Some? && row.prev != expected.value then Err(WrongPrev)
    else if row.canonicalId !in t.canonical then Err(MissingCanonical)
    else if t.canonical[row.canonicalId].entity != row.entity then Err(EntityMismatch)
    else if row.entry != w.platform.sha256(row.prev + t.canonical[row.canonicalId].sha) then Err(WrongEntryHash)
    else Ok(())
  }

  /** INSERT INTO evid.audit_chain: the trigger, the length CHECKs, the primary key and the foreign keys. */
  function InsertChain(w: World, t: Tables, row: ChainRow): Result<Tables> {
    var _ :- AuditAppend(w, t, row);
    if |row.prev| != 32 || |row.entry| != 32 then Err(BadLength)
    else if EntryAt(ChainOf(t.chain, row.entity), row.number).Some? then Err(DuplicateRecord)
    else if row.entity !in w.entities then Err(NoSuchEntity)
    else Ok(t.(chain := t.chain + [row]))
  }

  // wallet.address

  predicate Chained(chain: seq<ChainRow>, canonicalId: int) {
    exists i :: 0 <= i < |chain| && chain[i].canonicalId == canonicalId
  }

  /** `fn_shared_address_binding`. */
  function SharedBinding(t: Tables, row: AddressRow): Result<()> {
    if row.derivation != SHARED_ECDH then Ok(())
    else if row.keyDerivationId.None? || row.keyDerivationId.value !in t.canonical then Err(MissingCanonical)
    else
      var record := t.canonical[row.keyDerivationId.value];
      if record.recordType != KEY_DERIVATION then Err(NotKeyDerivation)
      else if record.entity != row.entity then Err(EntityMismatch)
      else if !Chained(t.chain, row.keyDerivationId.value) then Err(NotChained)
      else Ok(())
  }

  /** `addr_shared_ctx_complete`. */
  predicate ContextComplete(row: AddressRow) {
    row.derivation != SHARED_ECDH || (
      row.counterparty.Some? && row.schemeVersion.Some? && row.domain.Some? && row.invoice.Some? &&
      row.payment.Some? && row.keyDerivationId.Some? && row.saltCommitment.Some?)
  }

  predicate OptionalLength(b: Option<bytes>, length: nat) {
    b.None? || |b.value| == length
  }

  predicate OptionalIn(id: Option<int>, ids: set<int>) {
    id.None? || id.value in ids
  }

  predicate FitsColumns(row: AddressRow) {
    && (row.invoice.Some? ==> FitsBigint(row.invoice.value)) && (row.payment.Some? ==> FitsBigint(row.payment.value))
    && (row.schemeVersion.Some? ==> FitsInt(row.schemeVersion.value))
    && (row.domain.Some? ==> FitsSmallint(row.domain.value))
  }

  /** What a new version of the address row under `id` must pass, on INSERT and on UPDATE alike. */
  function CheckAddress(w: World, t: Tables, id: int, row: AddressRow): Result<()> {
    if !FitsColumns(row) then Err(IntegerRange)
    else if !(Storable(row.path) && Storable(row.text)) then Err(NulInText)
    else
      var _ :- SharedBinding(t, row);
      if row.purpose !in PURPOSES || row.derivation !in DERIVATIONS then Err(BadEnum)
      else if |row.pubkey| != 33 || !OptionalLength(row.saltDet, 32) || !OptionalLength(row.saltCommitment, 32)
      then Err(BadLength)
      else if !ContextComplete(row) then Err(IncompleteContext)
      else if !TextFree(t.addresses, id, row) then Err(DuplicateAddressText)
      else if !ContextFree(t.addresses, id, row) then Err(DuplicateContext)
      else if row.entity !in w.entities || row.wallet !in w.wallets || !OptionalIn(row.counterparty, w.counterparties)
              || !OptionalIn(row.keyDerivationId, t.canonical.Keys) then Err(NoSuchReference)
      else Ok(())
  }

  /** INSERT INTO wallet.address, under a fresh id, or UPDATE of the row under `id` to `row`. */
  function PutAddress(w: World, t: Tables, id: int, row: AddressRow): Result<Tables> {
    var _ :- CheckAddress(w, t, id, row);
    Ok(t.(addresses := t.addresses[id := row]))
  }
}
