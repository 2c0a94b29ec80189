# Verification of the evidence core

A Dafny model of the part of the package that turns accounting records into evidence, with proofs about it:

- **Deterministic CBOR** (`tea/wire/cbor.py`): the encoder, the strict decoder, and the value model they share. The
  decoder accepts exactly the image of the encoder, at every depth, and the vectors of `tests/test_cbor.py:20-72` hold in both directions.
- **Canonical records** (`tea/wire/records.py`): the field registry, validation, canonical bytes and hashes.
- **The audit chain** (migrations 0005 and 0006, `tea/evid/lineage.py`): the tables, the triggers, the walking verifier,
  and any number of concurrent writers that read without a lock and insert under one.
- **Shared addresses** (`tea/evid/derivation.py`, migration 0022): the binding of an address row to a chained
  KEY_DERIVATION record, over whole runs of concurrent writers.

## How to read it

| files | content |
|---|---|
| `Results`, `Bytes`, `Utf8`, `Sorting` | results and faults, big-endian numbers and byte order, strict UTF-8, the stable sort |
| `CborHead`, `CborModel`, `CborEncoder`, `CborDecoder` | heads, values, encoder, decoder; the source's loops are methods proved equal to the functions |
| `CborRoundTrip`, `CborTheorems`, `CborVectors` | the two inductions, the promises to callers, the byte layout on the test vectors |
| `Records`, `RecordTheorems`, `RecordShapes` | registry and validation, that records survive the codec, and validity written out field by field |
| `Tables`, `Verifier`, `Integrity`, `TableInvariant` | statements and triggers on the tables, `fn_verify_chain`, the chain definition, what every statement keeps |
| `Guards` | what each guard of the tables lets through, column by column, on literal values |
| `Tamper` | the comparison of two chains that end alike |
| `Linkage`, `DerivationArgs`, `Session` | what the Python procedures compute, and one undisturbed connection running them |
| `Transactions`, `Writers` | concurrent transactions with arbitrary statements, and concurrent runs of the two procedures |
| `Waiting` | when a statement waits for another transaction, and what ends the waiting |
| `Bookkeeping` | over those runs: every record is chained once, and chains that end alike tell one history of records |
| `Serial` | interleaved writers commit what some serial order of calls by one connection does |
| `Undisturbed` | writers that are not in each other's way do not wait, and commit what one connection alone does |
| `Unbinding` | the UPDATE that no guard stops and that breaks the field-equality binding |

What the code calls but does not define is a parameter, so each theorem holds for every choice of it: `nfc` is the test
`unicodedata.normalize("NFC", s) == s`, `timeShape` is the timestamp pattern of `tea/wire/records.py:27`, and `sha256` is any total
function to 32 bytes. Nothing is assumed of it: where a cryptographer would say "unless SHA-256 collides", the theorem
returns the colliding inputs. UTF-8 is not a parameter but defined and proved to be a bijection. Text is Dafny's `string`,
that is Unicode scalar values, so text with lone surrogates does not occur.

The SQL side assumes READ COMMITTED: each statement of a trigger sees the committed rows and its own transaction's rows. The
lock of `fn_audit_append` is held to the end of the transaction, whatever the outcome. A step that has to wait is a step that
does not happen yet. The entity id is cast to a 32-bit integer for the lock key; an id that does not fit makes the trigger
raise, and the model does the same. In the model `number` is the column `seq`.

`Same` is Python's equality on values of the restricted model: dicts are compared as associations. `Canon` lists the entries of
every dict by ascending key, which is the order in which the decoder builds them. `heads` in the decoder's methods is a ghost
count of the calls of `_read_arg`.

Where the code and its words differ, the model follows the code. `tea/wire/records.py:89` describes the timestamp as a fixed
shape, but the pattern also admits a trailing newline and non-ASCII digits, so nothing is claimed of its length. `validate` compares
the schema version and the record type with Python's `==`, so True or 1.0 pass that comparison; they are then refused by the
envelope's field check.

## Model

| member | source | states |
|---|---|---|
| CborHead.ReadArg | tea/wire/cbor.py:129-167 | an accepted head ends after its start and within the data |
| CborHead.HeadDomain | tea/wire/cbor.py:32-47 | a head exists exactly for arguments from 0 to 2^64-1, takes one to nine bytes, and its first byte carries the major type |
| CborHead.ReadArgInvertsHead | tea/wire/cbor.py:129-167 | reading undoes writing for every major type and 64-bit argument, wherever the head stands |
| CborHead.HeadInvertsReadArg | tea/wire/cbor.py:129-167 | every head the reader accepts is byte for byte the shortest one the encoder writes |
| CborHead.KeyOrder | tea/wire/cbor.py:105-107 | encoded keys compare bytewise exactly as the keys compare numerically |
| Bytes.ByteLengthIsMinimal | tea/wire/cbor.py:56-57 | the bit-length formula gives enough bytes for a magnitude and never one too many |
| Bytes.MinimalContent | tea/wire/cbor.py:228-231 | content without a leading zero is as long as the formula says for its number |
| Bytes.LessIsNumeric | tea/wire/cbor.py:207 | on equal lengths, Python's order of bytes is the order of the big-endian numbers |
| Utf8.DecodeInvertsEncode | tea/wire/cbor.py:85-86 | strict UTF-8 decoding returns the text that was encoded |
| Utf8.EncodeInvertsDecode | tea/wire/cbor.py:186-189 | strict UTF-8 accepts no byte string but the encoding of the text it returns |
| Utf8.CharLayout | tea/wire/cbor.py:85-86 | the bits of every character stand in one to four bytes as RFC 3629 section 3 lays them out |
| CborEncoder.EncodeMap | tea/wire/cbor.py:96-112 | the loop, the in-place sort and the joining loop compute the map's encoding, with the first error in insertion order |
| CborDecoder.DecodeAt | tea/wire/cbor.py:170-216 | an item ends strictly after its start and never past the end of the data |
| CborDecoder.DecodeItem | tea/wire/cbor.py:170-216 | the recursive decoder with its loops computes `DecodeAt`, and pays for every head with a byte, one failing read aside |
| CborDecoder.DecodeArrayLoop | tea/wire/cbor.py:193-198 | the array loop collects the items in order, whatever count the header claims |
| CborDecoder.DecodeMapLoop | tea/wire/cbor.py:199-213 | the map loop collects the entries in order; assigning into the dict never overwrites |
| CborDecoder.EntryGoesLast | tea/wire/cbor.py:207-212 | a key accepted by the byte comparison is larger than every key already in the dict |
| CborDecoder.DecodeBignumAt | tea/wire/cbor.py:219-239 | the bignum branch, with its tag check before its one head |
| CborDecoder.DecodeBytes | tea/wire/cbor.py:119-126 | decoding halts on every input and reads at most one head more than there are bytes, even under headers claiming 2^64-1 items |
| CborRoundTrip.LoopCollects | tea/wire/cbor.py:97-105 | if the first loop raises nothing, the keys are distinct plain ints and each item encodes its entry |
| CborRoundTrip.LoopSucceeds | tea/wire/cbor.py:97-105 | the first loop raises nothing on distinct keys whose entries encode |
| CborRoundTrip.RoundTrip | tea/wire/cbor.py:170-216 | an encoding, wherever it stands in the data, is read as its value, ending where the encoding ends |
| CborRoundTrip.SortTogether | tea/wire/cbor.py:106-107 | sorting items by key bytes and sorting entries by key give the same order |
| CborRoundTrip.Canonical | tea/wire/cbor.py:170-216 | what is read at an offset re-encodes to exactly the bytes it was read from |
| CborTheorems.EncodeDomain | tea/wire/cbor.py:69-112 | the encoder succeeds exactly on values with every node in the restricted model |
| CborTheorems.RoundTripInContext | tea/wire/cbor.py:170-216 | between any prefix and suffix, the encoding of an encodable value is read back as an equal value |
| CborTheorems.DecodeIsExactInverse | tea/wire/cbor.py:119-126 | decoding yields a value on one byte string only: its encoding |
| CborTheorems.AcceptsExactlyTheImage | tea/wire/cbor.py:119-126 | the decoder accepts exactly the encoder's image, and accepted bytes re-encode to themselves |
| CborTheorems.EncodingDecidesEquality | tea/wire/cbor.py:69-112 | two encodable values share an encoding exactly when they are equal, so insertion order never shows |
| CborTheorems.PrefixFree | tea/wire/cbor.py:119-126 | no encoding is a proper prefix of another |
| CborTheorems.UniqueSplit | tea/wire/cbor.py:87-90 | a concatenation of encodings splits in one way only |
| CborTheorems.OneFormPerInteger | tea/wire/cbor.py:61-66 | each integer has one accepted form, and its size decides between uint, negint and bignum on both sides |
| CborTheorems.BignumContent | tea/wire/cbor.py:50-58 | a bignum's content has at least nine bytes, no leading zero, and the right magnitude |
| CborVectors.MapVectors | tests/test_cbor.py:64-72 | the byte layout of the two maps with keys given out of order, and of the nested map |
| CborVectors.VectorsDecode | tests/test_cbor.py:58-61 | whatever value gives some bytes is read back from them, its maps in key order, and gives the same bytes again |
| RecordTheorems.SelfCheckNeverFires | tea/wire/records.py:241-247 | validation and encoding alone decide `canonical_bytes`; its round-trip check never raises |
| RecordTheorems.RecordClosure | tea/wire/records.py:241-247 | canonical bytes decode to an equal record that validates again and has the same canonical bytes |
| RecordTheorems.BytesDecideRecords | tea/wire/records.py:241-247 | two records have the same canonical bytes exactly when they are equal |
| RecordTheorems.EnvelopeInts | tea/wire/records.py:218-227 | a valid record has schema version 1 and a registered type, both plain ints |
| RecordShapes.ValidIffShaped | tea/wire/records.py:30-238 | a record is valid exactly when it has, in literal ids, kinds, lengths and signs, the shape of one of the nine types and of the type it names |
| RecordShapes.ComparedAsNumbers | tea/wire/records.py:218-222 | the version and type comparisons are Python's `==`: exactly True, 1.0 and the like pass beside the ints, for the field check to refuse |
| RecordShapes.CanonicalDomain | tea/wire/records.py:241-247 | exactly the encodable records of such a shape have canonical bytes |
| RecordShapes.BytesHaveShape | tea/wire/records.py:211-247 | the field set is closed: canonical bytes decode to a record of the same type and shape |
| RecordTheorems.KeyDerivationFields | tea/wire/records.py:178-207 | a key derivation's bytes hold the envelope and a subset of ids 65-67 and 69-74 with the five required ones |
| Verifier.FnVerifyChain | migrations/0006_evid_audit_chain.sql:78-102 | the cursor loop computes the verifier's result |
| Guards.OneRowVerifies | migrations/0006_evid_audit_chain.sql:78-102 | a table of one row verifies exactly when the row has seq 1, 32 zero bytes before it, and the hash of those and its record's sha |
| Guards.FirstRowAccepted | migrations/0006_evid_audit_chain.sql:19-67 | the first row of an entity is accepted exactly with seq 1, 32 zero bytes, that hash, a present record of the entity, and an existing entity whose id fits |
| Verifier.WalkFindsFirstBreak | migrations/0006_evid_audit_chain.sql:92-99 | the loop stops at the first row that does not continue the rows before it |
| Verifier.VerifierIsExact | migrations/0006_evid_audit_chain.sql:78-102 | the verifier returns the least position where the chain rule fails, and NULL exactly when there is none |
| Verifier.NonPositiveIsBroken | migrations/0006_evid_audit_chain.sql:91-93 | a row numbered zero or less is reported as a break at 1 |
| Verifier.KeyDistinguishes | migrations/0006_evid_audit_chain.sql:13 | under the primary key the rows the verifier joins have distinct numbers |
| Integrity.TriggerTakesTheNextLink | migrations/0006_evid_audit_chain.sql:19-67 | in whatever order the rows stand, the trigger accepts exactly the row that follows the last one by the chain rule, over a present record of the entity |
| Integrity.AppendIsOneMoreLink | migrations/0006_evid_audit_chain.sql:32-63 | on a chain intact in table order the trigger accepts exactly the next link, and the longer chain is intact |
| Integrity.VerdictIsIntact | migrations/0006_evid_audit_chain.sql:78-102 | for every table, the verifier returns NULL exactly when the rows it joins, ordered by seq, satisfy the chain definition |
| Integrity.LocalCheckIsGlobalCheck | migrations/0006_evid_audit_chain.sql:32-63 | while the verifier returns NULL, the trigger accepts a row exactly when the entity id fits the lock key, the record is present and the entity's own, and the verifier returns NULL with the row added |
| Integrity.RemovalIsSeenUnlessTail | migrations/0006_evid_audit_chain.sql:86-100 | after any removal of rows the verifier still returns NULL exactly when what is left of the entity's chain is a beginning of it: every removal is seen but that of a tail |
| Integrity.EntryHashAgrees | tea/wire/records.py:254-258 | `entry_hash` gives the entry stored in every intact row, and its length check never fires |
| Guards.CanonicalAccepted | migrations/0005_evid_canonical.sql:6-30 | a record row goes in exactly with a right sha, a listed type, storable columns, an existing entity, and no row with its entity, type, logical key and sha |
| Guards.CanonicalRaises | migrations/0005_evid_canonical.sql:22-30 | storable columns given, the sha mismatch is raised exactly for a wrong sha |
| Guards.TriggerRaises | migrations/0006_evid_audit_chain.sql:29-63 | on a chain that verifies, which of the trigger's exceptions a refused row gets: that of the first check it fails |
| Guards.ChainAccepted | migrations/0006_evid_audit_chain.sql:5-16 | a chain row goes in exactly when the trigger passes it, both hashes have 32 bytes, its number is new in the chain and the entity exists |
| Guards.AddressAccepted | migrations/0022_address_shared_ecdh.sql:6-72 | an address row of either derivation is written exactly when its columns fit, no other row of the entity has its text, no other SHARED_ECDH row has its six context columns, and, if SHARED_ECDH, it is complete and bound |
| Guards.RefusedForItsKey | migrations/0022_address_shared_ecdh.sql:31-34 | an otherwise good row is refused as a duplicate text or context exactly when a row with those columns is there |
| Guards.BindingRaises | migrations/0022_address_shared_ecdh.sql:45-66 | which of the binding trigger's exceptions a refused row gets |
| TableInvariant.InsertCanonicalKeeps | migrations/0005_evid_canonical.sql:22-30 | an accepted canonical insert keeps the whole invariant |
| TableInvariant.InsertChainKeeps | migrations/0006_evid_audit_chain.sql:19-67 | an accepted chain insert keeps the whole invariant, every entity's chain included |
| TableInvariant.CheckedAddressIsOk | migrations/0022_address_shared_ecdh.sql:42-68 | an accepted SHARED_ECDH row is complete and bound to a chained KEY_DERIVATION record of its entity |
| TableInvariant.PutAddressKeeps | migrations/0022_address_shared_ecdh.sql:21-34 | an accepted address insert or update keeps the whole invariant |
| TableInvariant.AddressStaysOk | migrations/0022_address_shared_ecdh.sql:61-65 | evidence that is only added to never unbinds an address |
| TableInvariant.OneTimeAddresses | migrations/0022_address_shared_ecdh.sql:31-34 | no two SHARED_ECDH rows have the same derivation context |
| TableInvariant.IndexAdmitsTwinsIffIncomplete | migrations/0022_address_shared_ecdh.sql:21-34 | the unique index admits a twin of a row exactly when its context is incomplete, so the CHECK is needed |
| TableInvariant.MergeOk | migrations/0006_evid_audit_chain.sql:29-34 | two transactions that are each consistent with the committed tables, and do not clash, are consistent one after the other |
| Transactions.StepKeepsInv | migrations/0006_evid_audit_chain.sql:19-67 | every step of every transaction keeps the concurrent invariant |
| Transactions.ChainsAreSafe | migrations/0006_evid_audit_chain.sql:29-65 | after any interleaving of statements each committed chain is gap-free, unforked, correctly hashed and verifies; only the lock holder has uncommitted rows, and they continue it |
| Transactions.AddressesAreSafe | migrations/0022_address_shared_ecdh.sql:21-72 | after any interleaving of inserts and updates each SHARED_ECDH row is bound and its context is used once |
| Transactions.RunOnlyAddsEvidence | migrations/0006_evid_audit_chain.sql:19-67 | over any further run, each entity's committed chain at an earlier moment is a beginning of the later one, over the same records |
| Waiting.RecordWaits | migrations/0005_evid_canonical.sql:16 | a record waits exactly for an uncommitted one of another transaction with the same entity, type, key and sha; without one it goes in exactly when the tables take it |
| Waiting.LinkWaits | migrations/0006_evid_audit_chain.sql:29-30 | a chain row waits exactly for the entity's lock, and its transaction then holds it, even when the row is refused |
| Waiting.AddressWaits | migrations/0022_address_shared_ecdh.sql:31-34 | an address waits exactly for another transaction that has written it or a row with its text or context, old or new version |
| Waiting.LocksAreHeld | migrations/0006_evid_audit_chain.sql:29-30 | over any run, a transaction that has not ended has every lock it had |
| Waiting.EndOf | migrations/0006_evid_audit_chain.sql:29-30 | the end of a transaction frees its locks and leaves the others alone; its rows are committed exactly by a COMMIT after no refusal |
| Waiting.FailedOnlyEnds | migrations/0006_evid_audit_chain.sql:35-48 | after a refused statement a transaction changes nothing any more, and can only end |
| Tamper.EqualEndsTell | migrations/0006_evid_audit_chain.sql:32-63 | two intact chains over sha-checked records with the same last hash hold one history, or two of their own hash inputs collide, or, if lengths differ, one hashes to zero |
| Tamper.VerdictSeals | migrations/0005_evid_canonical.sql:22-30 | a NULL verdict with the sha check says exactly that the chain is intact over records that hash to their shas |
| Tamper.VerifiedTablesTell | migrations/0006_evid_audit_chain.sql:78-102 | for any two tables, whatever was done to them: NULL verdicts, passing sha checks and equal last hashes make one history with equal records, or return a collision or a zero preimage |
| Tamper.RunsAreSealed | migrations/0006_evid_audit_chain.sql:19-67 | in every reachable state the verdict is NULL and the sha checks pass, so any two can be so compared |
| Tamper.EqualEndsEqualRecords | tea/wire/records.py:241-258 | equal ends make the records behind each row equal, by injectivity of the encoding |
| Linkage.RowForDomain | tea/evid/lineage.py:32-41 | a record reaches the database exactly when it has canonical bytes and its type a name, and the row carries their sha |
| Linkage.RowForColumns | tea/evid/lineage.py:21-41 | the inserted row, column by column: the canonical bytes, their sha, schema version 1, and the name of each record type |
| Linkage.CurrentReadIsAccepted | tea/evid/lineage.py:44-55 | the row the Python linkage builds is accepted exactly when its read is current |
| Linkage.NextLinkReads | tea/evid/lineage.py:44-50 | the Python linkage starts at 1 with 32 zero bytes, and goes on from the row with the largest seq |
| Linkage.SharedFieldsAgree | tea/evid/derivation.py:27-62 | the bytes of the key derivation decode to the address row's invoice number, payment index, pubkey, commitment and text |
| Linkage.AddressColumns | tea/evid/derivation.py:52-62 | the address row, column by column, with its path, purpose, scheme and domain |
| Linkage.DecimalIsNumeral | tea/evid/derivation.py:59 | the numbers in the path are decimal numerals without a leading zero |
| DerivationArgs.ArgsAreStored | tea/evid/derivation.py:33-48 | the canonical bytes decode to fourteen fields that show each argument under its own id |
| DerivationArgs.KeyDerivationValidates | tea/evid/derivation.py:33-48 | the record of `record_shared_address` validates exactly for arguments of the registered lengths, signs, NFC and timestamp shape |
| Session.Connection.InsertRecord | migrations/0005_evid_canonical.sql:22-45 | the guarded insert adds the row or changes nothing, and keeps the invariant |
| Session.Connection.InsertLink | migrations/0006_evid_audit_chain.sql:104-106 | the guarded append adds the row or changes nothing, and keeps the invariant |
| Session.Connection.InsertAddress | migrations/0022_address_shared_ecdh.sql:70-72 | the guarded insert adds the row or changes nothing, and keeps the invariant |
| Session.Connection.UpdateAddress | migrations/0022_address_shared_ecdh.sql:70-72 | the guarded update replaces the row or changes nothing, and keeps the invariant |
| Session.Connection.RecordCanonicalAndChain | tea/evid/lineage.py:29-56 | undisturbed, it succeeds exactly on a recordable record, adds one record and one link to that entity's chain, changes nothing else, and every chain verifies; when it raises nothing changed, except exactly when only the entity id is too wide: then the record alone was added |
| Session.Connection.RecordSharedAddress | tea/evid/derivation.py:16-71 | undisturbed, it succeeds exactly when record and address can go in; then the stored bytes decode to every argument in its own field, the new row shows the same, and the ids, seq and hash are returned; when it raises, the tables are as before, with the record, or with record and link, each under its exact condition |
| Writers.StepKeepsWriters | tea/evid/lineage.py:36-55 | every database call of every writer, guarded direct writes of addresses included, keeps the writers' invariant |
| Writers.SharedAddressesShowTheirRecords | tea/evid/derivation.py:27-62 | in every state any interleaving of the procedures and guarded direct writes reaches, a SHARED_ECDH row equals the decoded fields of its chained record |
| Writers.WriteKeepsBindingIff | migrations/0022_address_shared_ecdh.sql:42-72 | an INSERT or UPDATE of any row keeps the binding of the table exactly when the row is not SHARED_ECDH or shows what the record it points at says |
| Writers.UpdateKeepsBindingIff | migrations/0022_address_shared_ecdh.sql:42-72 | an UPDATE that leaves a bound row's pointer alone keeps the binding exactly when the row leaves SHARED_ECDH or keeps the five columns |
| Unbinding.DirectUpdateUnbinds | migrations/0022_address_shared_ecdh.sql:42-72 | after any successful `record_shared_address`, changing the pubkey to any other 33 bytes passes every guard and breaks the binding |
| Unbinding.ExampleUnbinds | DECISIONS.md:117-126 | the same on one input written out, starting from empty tables, for every hash function and every platform that takes its texts and timestamp |
| Bookkeeping.EveryRecordIsChainedOnce | tea/evid/lineage.py:36-55 | in every state the writers reach, each committed record is chained at exactly one place, by its own entity, and is the row a call inserts for some record |
| Bookkeeping.RunsTellRecords | tea/wire/records.py:241-258 | chains of any two runs with the same last hash were written from equal records at equal places, or the comparison returns a collision or a zero preimage |
| Serial.RunIsSerial | tea/evid/lineage.py:29-56 | whatever the interleaving, the committed evidence is what one connection alone makes of empty tables by some list of calls, none refused, one for each chain row |
| Undisturbed.UndisturbedIsSession | tea/evid/lineage.py:29-56 | whatever other transactions are open, a writer commits exactly what the connection alone makes of the tables, if none of them holds the entity's lock or an uncommitted record with the same key |
| Undisturbed.UndisturbedSharedIsSession | tea/evid/derivation.py:16-71 | the same for a shared address, if besides none has written a row with its text or context |
| Undisturbed.DirectWrites | migrations/0022_address_shared_ecdh.sql:70-72 | a direct INSERT or UPDATE of an address that shows its record goes in when the tables take it and nothing is in its way |
| Undisturbed.OutcomeMovesTheWriter | tea/evid/lineage.py:36-55 | a refused call leaves its procedure with the transaction failed; one that waited is where it was |
| Undisturbed.WriterEnds | tea/evid/lineage.py:29-56 | a rollback, or a COMMIT after a refusal, commits nothing; in the midst of a procedure there is no COMMIT |
| Writers.StaleReadIsRefused | migrations/0006_evid_audit_chain.sql:32-48 | a writer's link goes in exactly when the lock is free, its entity id fits the lock key, and its unlocked read is still current |
| Writers.StaleWriterChangesNoRow | migrations/0006_evid_audit_chain.sql:32-48 | a stale writer changes no row, committed or uncommitted; it waits exactly when the lock is taken, and otherwise its transaction has failed |
| Writers.RunIsDbRun | tea/evid/lineage.py:36-55 | what the writers' calls do to the database, a run of plain statements does |
| Writers.WritersAreSafe | migrations/0006_evid_audit_chain.sql:29-65 | in every state the writers with their unlocked reads reach, the chains are safe as above, for the lock holder's uncommitted rows too |
| Writers.AcceptedIffNobodyCameBetween | tea/evid/lineage.py:44-55 | between the unlocked read and the insert any calls of others may come; the insert is accepted exactly when the lock is free and none committed to the chain |

## Left out

- Writers.SharedAddressesShowTheirRecords: covers the two procedures and direct INSERTs and UPDATEs of rows that show what their record says. No guard of the database checks that: `Writers.WriteKeepsBindingIff` gives the exact condition for any write, and `Unbinding` accepted writes that break the binding.
- Serial.RunIsSerial: speaks of records and chains. Address rows may be updated by many transactions, and the order of their intermediate versions is not modelled.
- Integrity.VerdictIsIntact: `fn_verify_chain` trusts the stored canonical sha; only the insert trigger hashes the bytes, which is why `Tamper.VerdictSeals` asks for the sha check besides.
- Session.Connection.RecordCanonicalAndChain: rows left by a call that raises are stated as one connection would see them; the caller's rollback is the `Abort` step of `Transactions`.
- `fn_canonical_immutable` and `fn_audit_immutable` (migrations 0005 and 0006): an UPDATE or DELETE of evidence is the step `ChangeEvidence`, which by definition only fails its transaction.
- Session.Connection.RecordSharedAddress: PostgreSQL refuses index keys above its row-size limit; for very long logical keys or address texts (`canonical_key_uniq`, `addr_text_uniq`) the model succeeds where the database raises.
- `link_lineage` (tea/evid/lineage.py:59-70): one INSERT whose `audit_seq` no constraint checks.
- Record types without a field table (CREDIT_NOTE, ADJUSTMENT, STATEMENT, KEY_CERTIFICATE): validated by id range only, as in the code.
- Which of several simultaneous violations is named: the model raises exactly when the code does, and names the branch, but a TypeError (an unhashable record type) and the database driver's errors appear as faults of the model.
- `_money` (tea/wire/records.py:111-116): no field uses it.
- bytes and bytearray are one constructor, and subclasses of the built-in types are not distinguished.
- Columns that no modelled guard reads (`created_at`, `used`, `invoice_canonical_id`) and overflow of the BIGINT sequence columns.
- DELETE on `wallet.address`, savepoints, deadlock detection, and isolation levels above READ COMMITTED.
- Rows of `core.entity`, `wallet.wallet` and `core.counterparty` are fixed sets for foreign keys to point at.
- Hex decoding of the engine's output: `SharedArgs` holds the bytes.
- The engine bridge, notes and Merkle anchoring, GL posting, the REST API, the prohibition gate, key certificates and message keys.
- Python's recursion limit and SQL privileges.
