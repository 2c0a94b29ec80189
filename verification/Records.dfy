/** Canonical records: the field registry, strict validation, canonical bytes and hashes. */
module Records {
  import opened Bytes
  import opened Results
  import opened CborModel
  import opened CborEncoder
  import opened CborDecoder

  function Zeros(count: nat): (b: bytes)
    ensures |b| == count
  {
    if count == 0 then [] else [0] + Zeros(count - 1)
  }

  type Digest = d: bytes | |d| == 32 witness Zeros(32)

  /** What the code calls but does not define: NFC, the timestamp pattern and SHA-256. */
  datatype Platform = Platform(nfc: Nfc, timeShape: string -> bool, sha256: bytes -> Digest)

  const GENESIS_PREV: Digest := Zeros(32)

  /** 32 bytes, all of them zero. */
  predicate AllZero(b: bytes) {
    |b| == 32 && forall i :: 0 <= i < |b| ==> b[i] == 0
  }

  lemma {:induction false} ZerosAre(count: nat)
    ensures forall i :: 0 <= i < count ==> Zeros(count)[i] == 0
  {
    if count > 0 {
      ZerosAre(count - 1);
    }
  }

  lemma GenesisIsZero(b: bytes)
    ensures AllZero(b) <==> b == GENESIS_PREV
  {
    ZerosAre(32);
    if AllZero(b) {
      assert forall i :: 0 <= i < 32 ==> b[i] == GENESIS_PREV[i];
    }
  }

  const SCHEMA_VERSION := 0
  const RECORD_TYPE := 1
  const ENTITY_UID := 2
  const LOGICAL_KEY := 3
  const CREATED_AT := 4

  const RT_INVOICE := 1
  const RT_PAYMENT := 2
  const RT_CREDIT_NOTE := 3
  const RT_ADJUSTMENT := 4
  const RT_STATEMENT := 5
  const RT_MESSAGE := 6
  const RT_WALLET_TRANSFER := 7
  const RT_KEY_DERIVATION := 8
  const RT_KEY_CERTIFICATE := 9

  /** The field validators `_uint`, `_int`, `_tstr`, `_time`, `_bstr(n)` and `_array`. */
  datatype FieldKind = UInt | AnyInt | TextField | TimeField | FixedBytes(length: nat) | ArrayField

  function Check(kind: FieldKind, v: Value, p: Platform): Result<()> {
    match kind
    case UInt => if v.Int? && v.n >= 0 then Ok(()) else Err(BadField)
    case AnyInt => if v.Int? then Ok(()) else Err(BadField)
    case TextField => CheckText(v, p)
    case TimeField =>
      var _ :- CheckText(v, p);
      if p.timeShape(v.s) then Ok(()) else Err(BadField)
    case FixedBytes(length) => if v.Blob? && |v.b| == length then Ok(()) else Err(BadField)
    case ArrayField => if v.Array? then Ok(()) else Err(BadField)
  }

  function CheckText(v: Value, p: Platform): (r: Result<()>)
    ensures r.Ok? <==> v.Text? && p.nfc(v.s)
  {
    if !v.Text? then Err(BadField) else if p.nfc(v.s) then Ok(()) else Err(TextNotNfc)
  }

  const ENVELOPE: map<int, FieldKind> := map[
    SCHEMA_VERSION := UInt, RECORD_TYPE := UInt, ENTITY_UID := FixedBytes(16),
    LOGICAL_KEY := TextField, CREATED_AT := TimeField]

  /** `_FIELDS`; a record type without a table has the empty one. */
  function Fields(rt: int): map<int, FieldKind> {
    if rt == RT_INVOICE then map[
      16 := TextField, 17 := FixedBytes(33), 18 := TextField, 19 := UInt, 20 := AnyInt, 21 := ArrayField,
      22 := TimeField, 23 := TextField, 24 := ArrayField, 25 := TextField]
    else if rt == RT_PAYMENT then map[
      32 := TextField, 33 := UInt, 34 := TextField, 35 := AnyInt, 36 := TextField, 37 := UInt,
      38 := UInt, 39 := FixedBytes(32), 40 := UInt]
    else if rt == RT_MESSAGE then map[
      48 := FixedBytes(16), 49 := FixedBytes(33), 50 := FixedBytes(32)]
    else if rt == RT_WALLET_TRANSFER then map[
      56 := FixedBytes(16), 57 := UInt, 58 := UInt, 59 := TextField, 60 := AnyInt, 61 := FixedBytes(32)]
    else if rt == RT_KEY_DERIVATION then map[
      65 := UInt, 66 := FixedBytes(33), 67 := FixedBytes(33), 69 := UInt, 70 := UInt, 71 := FixedBytes(33),
      72 := FixedBytes(32), 73 := TextField, 74 := FixedBytes(16)]
    else map[]
  }

  /** The kind of a field that a record of this type may have. */
  function KindOf(rt: int, fid: int): FieldKind
    requires fid in ENVELOPE || fid in Fields(rt)
  {
    if fid in ENVELOPE then ENVELOPE[fid] else Fields(rt)[fid]
  }

  function Required(rt: int): set<int> {
    if rt == RT_INVOICE then {16, 17, 18, 19, 20, 22, 24}
    else if rt == RT_PAYMENT then {32, 33, 35, 36, 37, 38, 40}
    else if rt == RT_MESSAGE then {48, 49, 50}
    else if rt == RT_WALLET_TRANSFER then {56, 57, 58, 60}
    else if rt == RT_KEY_DERIVATION then {65, 66, 67, 71, 72}
    else {}
  }

  predicate InRange(rt: int, fid: int) {
    if rt == RT_INVOICE || rt == RT_CREDIT_NOTE || rt == RT_STATEMENT then 16 <= fid < 32
    else if rt == RT_PAYMENT then 32 <= fid < 48
    else if rt == RT_MESSAGE then 48 <= fid < 56
    else if rt == RT_WALLET_TRANSFER then 56 <= fid < 64
    else if rt == RT_KEY_DERIVATION then 64 <= fid < 80
    else if rt == RT_KEY_CERTIFICATE then 80 <= fid < 96
    else rt == RT_ADJUSTMENT && 16 <= fid < 48
  }

  /** `record[fid]`, when the record is a dict that has it. */
  function Field(record: Value, fid: int): Option<Value> {
    if record.Map? then Lookup(record.entries, Num(fid, true)) else None
  }

  /** Python's `v == n` for an int `n`: True and 1.0 equal 1. */
  predicate EqualsInt(v: Value, n: int) {
    match v
    case Int(m) => m == n
    case Bool(truth) => n == if truth then 1 else 0
    case Float(f) => f == n as real
    case _ => false
  }

  /** The registered record type that the value equals. */
  function TypeOf(v: Value): (r: Option<int>)
    ensures r.Some? ==> 1 <= r.value <= 9 && EqualsInt(v, r.value)
  {
    if EqualsInt(v, 1) then Some(1) else if EqualsInt(v, 2) then Some(2) else if EqualsInt(v, 3) then Some(3)
    else if EqualsInt(v, 4) then Some(4) else if EqualsInt(v, 5) then Some(5) else if EqualsInt(v, 6) then Some(6)
    else if EqualsInt(v, 7) then Some(7) else if EqualsInt(v, 8) then Some(8) else if EqualsInt(v, 9) then Some(9)
    else None
  }

  /** The body of the loop over `record.items()` in `validate`. */
  function CheckEntry(e: Entry, rt: int, p: Platform): Result<()> {
    match e.key
    case OtherKey(_) => Err(FieldOutOfRange)
    case Num(fid, _) =>
      var table := Fields(rt);
      if fid in ENVELOPE then Check(ENVELOPE[fid], e.value, p)
      else if !InRange(rt, fid) then Err(FieldOutOfRange)
      else if table == map[] then Ok(())
      else if fid !in table then Err(UnknownField)
      else Check(table[fid], e.value, p)
  }

  function CheckEntries(entries: seq<Entry>, rt: int, p: Platform): Result<()> {
    if entries == [] then Ok(())
    else
      var _ :- CheckEntry(entries[0], rt, p);
      CheckEntries(entries[1..], rt, p)
  }

  /** `validate`. */
  function Validate(record: Value, p: Platform): Result<()> {
    if !record.Map? then Err(NotARecord)
    else if exists fid :: fid in ENVELOPE && Field(record, fid).None? then Err(MissingEnvelope)
    else
      EnvelopePresent(record);
      if !EqualsInt(Field(record, SCHEMA_VERSION).value, 1) then Err(WrongSchemaVersion)
      else
        match TypeOf(Field(record, RECORD_TYPE).value)
        case None => Err(UnknownRecordType)
        case Some(rt) =>
          var _ :- CheckEntries(record.entries, rt, p);
          if exists fid :: fid in Required(rt) && Field(record, fid).None? then Err(MissingRequired) else Ok(())
  }

  lemma EnvelopePresent(record: Value)
    requires forall fid :: fid in ENVELOPE ==> Field(record, fid).Some?
    ensures Field(record, SCHEMA_VERSION).Some? && Field(record, RECORD_TYPE).Some?
  {
    assert SCHEMA_VERSION in ENVELOPE && RECORD_TYPE in ENVELOPE;
  }

  /** `canonical_bytes`, with its round-trip self-check. */
  function CanonicalBytes(record: Value, p: Platform): Result<bytes> {
    var _ :- Validate(record, p);
    var data :- Encode(record, p.nfc);
    var back :- Decode(data, p.nfc);
    var again :- Encode(back, p.nfc);
    if again != data then Err(NoRoundTrip) else Ok(data)
  }

  /** `entry_hash`. */
  function EntryHash(prev: bytes, canonicalSha: bytes, p: Platform): Result<Digest> {
    if |prev| != 32 || |canonicalSha| != 32 then Err(HashInputLength)
    else Ok(p.sha256(prev + canonicalSha))
  }
}
