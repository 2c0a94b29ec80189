/** One connection working alone: the Python procedures as a sequence of statements on the tables. */
module Session {
  import opened Bytes
  import opened Results
  import opened CborModel
  import opened CborEncoder
  import opened Records
  import opened RecordTheorems
  import opened Tables
  import opened Verifier
  import opened Integrity
  import opened Guards
  import opened TableInvariant
  import opened Linkage
  import opened DerivationArgs

  /** What `record_canonical_and_chain` returns. */
  datatype Recorded = Recorded(canonicalId: int, number: int, entry: bytes)

  /** What `record_shared_address` returns, besides the values it was given. */
  datatype Shared = Shared(recorded: Recorded, addressId: int)

  /** Everything `record_canonical_and_chain` needs of its arguments and of the tables. */
  predicate Recordable(w: World, t: Tables, id: int, entity: int, logicalKey: string, record: Value) {
    var row := RowFor(w.platform, entity, logicalKey, record);
    && row.Ok? && Storable(logicalKey) && FitsInt(entity) && entity in w.entities
    && !RecordTaken(t.canonical, id, row.value)
  }

  /** Only the entity id is wrong: the record goes in, and then the trigger on its link raises. */
  predicate Stranded(w: World, t: Tables, id: int, entity: int, logicalKey: string, record: Value) {
    var row := RowFor(w.platform, entity, logicalKey, record);
    && row.Ok? && Storable(logicalKey) && !FitsInt(entity) && entity in w.entities
    && !RecordTaken(t.canonical, id, row.value)
  }

  /** The tables after one more record without a link. */
  function WithStranded(t: Tables, id: int, row: CanonRow): Tables {
    t.(canonical := t.canonical[id := row])
  }

  /** The link that continues its entity's chain with this record. */
  function NextRow(w: World, chain: seq<ChainRow>, id: int, row: CanonRow): ChainRow {
    var rows := ChainOf(chain, row.entity);
    ChainRow(|rows| + 1, row.entity, id, Tip(rows), w.platform.sha256(Tip(rows) + row.sha))
  }

  /** The tables after one more record and the link for it. */
  function WithRecord(w: World, t: Tables, id: int, row: CanonRow): Tables {
    t.(canonical := t.canonical[id := row], chain := t.chain + [NextRow(w, t.chain, id, row)])
  }

  /** What `record_shared_address` needs for its address row, beyond a recordable record: columns that fit, and no
      other row of the entity with the text, or SHARED_ECDH row with the counterparty, invoice and payment index. */
  predicate Placeable(w: World, t: Tables, addressId: int, a: SharedArgs) {
    && FitsBigint(a.invoice) && FitsBigint(a.payment) && Storable(a.text)
    && a.wallet in w.wallets && a.counterparty in w.counterparties
    && (forall j :: j in t.addresses && j != addressId && t.addresses[j].entity == a.entity ==>
          && t.addresses[j].text != a.text && !HasContext(t.addresses[j], a))
  }

  predicate HasContext(row: AddressRow, a: SharedArgs) {
    && row.derivation == "SHARED_ECDH" && row.counterparty == Some(a.counterparty)
    && row.schemeVersion == Some(1) && row.domain == Some(1)
    && row.invoice == Some(a.invoice) && row.payment == Some(a.payment)
  }

  /** The tables as `record_shared_address` leaves them. */
  function WithShared(w: World, t: Tables, cid: int, aid: int, a: SharedArgs): Tables
    requires RowFor(w.platform, a.entity, a.logicalKey, KeyDerivationRecord(a)).Ok?
  {
    var row := RowFor(w.platform, a.entity, a.logicalKey, KeyDerivationRecord(a)).value;
    WithRecord(w, t, cid, row).(addresses := t.addresses[aid := AddressFor(a, cid)])
  }

  class Connection {
    const w: World
    var canonical: map<int, CanonRow>
    var chain: seq<ChainRow>
    var addresses: map<int, AddressRow>
    var nextCanonical: int
    var nextAddress: int

    constructor (w: World)
      ensures Valid() && this.w == w && Now() == EMPTY
    {
      this.w := w;
      canonical, chain, addresses := map[], [], map[];
      nextCanonical, nextAddress := 1, 1;
      new;
      EmptyOk(w);
    }

    function Now(): Tables
      reads this
    {
      Tables(canonical, chain, addresses)
    }

    ghost predicate Valid()
      reads this
    {
      && TablesOk(w, Now())
      && (forall id :: id in canonical ==> id < nextCanonical)
      && (forall id :: id in addresses ==> id < nextAddress)
    }

    /** INSERT INTO evid.canonical_record ... RETURNING id. */
    method InsertRecord(row: CanonRow) returns (r: Result<int>)
      requires Valid()
      modifies this`canonical, this`nextCanonical
      ensures Valid()
      ensures match InsertCanonical(w, old(Now()), old(nextCanonical), row)
              case Ok(after) => r == Ok(old(nextCanonical)) && Now() == after
              case Err(fault) => r == Err(fault) && Now() == old(Now())
    {
      hide TablesOk, InsertCanonical;
      var id := nextCanonical;
      nextCanonical := nextCanonical + 1;
      var after := InsertCanonical(w, Now(), id, row);
      if after.Err? {
        return Err(after.fault);
      }
      InsertCanonicalKeeps(w, Now(), id, row);
      InsertCanonicalRow(w, Now(), id, row);
      canonical := canonical[id := row];
      return Ok(id);
    }

    /** INSERT INTO evid.audit_chain, through `fn_audit_append`. */
    method InsertLink(row: ChainRow) returns (r: Result<()>)
      requires Valid()
      modifies this`chain
      ensures Valid()
      ensures match InsertChain(w, old(Now()), row)
              case Ok(after) => r == Ok(()) && Now() == after
              case Err(fault) => r == Err(fault) && Now() == old(Now())
    {
      hide TablesOk, AuditAppend;
      var after := InsertChain(w, Now(), row);
      if after.Err? {
        return Err(after.fault);
      }
      InsertChainKeeps(w, Now(), row);
      chain := chain + [row];
      return Ok(());
    }

    /** INSERT INTO wallet.address ... RETURNING id. */
    method InsertAddress(row: AddressRow) returns (r: Result<int>)
      requires Valid()
      modifies this`addresses, this`nextAddress
      ensures Valid()
      ensures match PutAddress(w, old(Now()), old(nextAddress), row)
              case Ok(after) => r == Ok(old(nextAddress)) && Now() == after
              case Err(fault) => r == Err(fault) && Now() == old(Now())
    {
      hide TablesOk, CheckAddress;
      var id := nextAddress;
      nextAddress := nextAddress + 1;
      var after := PutAddress(w, Now(), id, row);
      if after.Err? {
        return Err(after.fault);
      }
      PutAddressKeeps(w, Now(), id, row);
      addresses := addresses[id := row];
      return Ok(id);
    }

    /** UPDATE wallet.address SET ... WHERE id = `id`; no row, no effect. */
    method UpdateAddress(id: int, row: AddressRow) returns (r: Result<()>)
      requires Valid()
      modifies this`addresses
      ensures Valid()
      ensures id !in old(addresses) ==> r == Ok(()) && Now() == old(Now())
      ensures id in old(addresses) ==>
                match PutAddress(w, old(Now()), id, row)
                case Ok(after) => r == Ok(()) && Now() == after
                case Err(fault) => r == Err(fault) && Now() == old(Now())
    {
      hide TablesOk, CheckAddress;
      if id !in addresses {
        return Ok(());
      }
      var after := PutAddress(w, Now(), id, row);
      if after.Err? {
        return Err(after.fault);
      }
      PutAddressKeeps(w, Now(), id, row);
      addresses := addresses[id := row];
      return Ok(());
    }

    /** `record_canonical_and_chain`. Undisturbed, its own linkage is the one the trigger recomputes: it succeeds
        exactly on a recordable record, adds one record and one link, and leaves every chain verifying.
        When it raises, the tables are as they were, but for the record of an entity whose id does not fit. */
    method RecordCanonicalAndChain(entity: int, logicalKey: string, record: Value) returns (r: Result<Recorded>)
      requires Valid()
      modifies this`canonical, this`chain, this`nextCanonical
      ensures Valid()
      ensures r.Ok? <==> Recordable(w, old(Now()), old(nextCanonical), entity, logicalKey, record)
      ensures r.Ok? ==>
                var id, rows := old(nextCanonical), ChainOf(old(chain), entity);
                && Now() == WithRecord(w, old(Now()), id, RowFor(w.platform, entity, logicalKey, record).value)
                && r.value == Recorded(id, |rows| + 1, Tip(ChainOf(chain, entity)))
      ensures r.Err? ==>
                var id := old(nextCanonical);
                Now() == if Stranded(w, old(Now()), id, entity, logicalKey, record)
                         then WithStranded(old(Now()), id, RowFor(w.platform, entity, logicalKey, record).value)
                         else old(Now())
      ensures forall e :: VerifyChain(w.platform, Now(), e) == None
    {
      hide TablesOk, InsertCanonical, InsertChain, ChainOf, VerifyChain, RowFor, RecordTaken, LinkFor;
      ghost var before := Now();
      var row := RowFor(w.platform, entity, logicalKey, record);
      if row.Err? {
        ChainsVerify(w, Now());
        return Err(row.fault);
      }
      RecordGoesIn(w, before, nextCanonical, entity, logicalKey, record);
      var inserted := InsertRecord(row.value);
      if inserted.Err? {
        ChainsVerify(w, Now());
        return Err(inserted.fault);
      }
      var id := inserted.value;
      var next := NextLink(ChainOf(chain, entity));
      var link := LinkFor(w.platform, entity, id, row.value.sha, next);
      LinkGoesIn(w, Now(), id, next);
      var linked := InsertLink(link);
      ChainsVerify(w, Now());
      if linked.Err? {
        return Err(linked.fault);
      }
      return Ok(Recorded(id, link.number, link.entry));
    }

    /** `record_shared_address`. It succeeds exactly when the record is recordable and the address placeable; then the
        address row is bound to the new chained record, whose bytes decode to the row's own values. When it raises
        over an address that cannot be placed, the record and its link stand, for the caller to roll back. */
    method RecordSharedAddress(a: SharedArgs) returns (r: Result<Shared>)
      requires Valid()
      modifies this
      ensures Valid()
      ensures r.Ok? <==>
                && Recordable(w, old(Now()), old(nextCanonical), a.entity, a.logicalKey, KeyDerivationRecord(a))
                && Placeable(w, old(Now()), old(nextAddress), a)
      ensures r.Ok? ==>
                var cid, aid := old(nextCanonical), old(nextAddress);
                var row := RowFor(w.platform, a.entity, a.logicalKey, KeyDerivationRecord(a)).value;
                && Now() == WithRecord(w, old(Now()), cid, row).(addresses := old(addresses)[aid := AddressFor(a, cid)])
                && FieldsAgree(w.platform, canonical[cid].data, addresses[aid])
                && ShowsArgs(w.platform, canonical[cid].data, a)
                && r.value.addressId == aid
                && r.value.recorded
                   == Recorded(cid, |ChainOf(old(chain), a.entity)| + 1, Tip(ChainOf(chain, a.entity)))
      ensures r.Err? ==>
                var cid, record := old(nextCanonical), KeyDerivationRecord(a);
                var row := RowFor(w.platform, a.entity, a.logicalKey, record);
                Now() == if Recordable(w, old(Now()), cid, a.entity, a.logicalKey, record)
                         then WithRecord(w, old(Now()), cid, row.value)
                         else if Stranded(w, old(Now()), cid, a.entity, a.logicalKey, record)
                         then WithStranded(old(Now()), cid, row.value)
                         else old(Now())
    {
      hide TablesOk, AuditAppend, ChainOf, VerifyChain, RowFor, FieldsAgree, CheckAddress, Placeable;
      hide KeyDerivationRecord, ShowsArgs, Tip;
      ghost var before, aid := Now(), nextAddress;
      var record := KeyDerivationRecord(a);
      var recorded := RecordCanonicalAndChain(a.entity, a.logicalKey, record);
      if recorded.Err? {
        return Err(recorded.fault);
      }
      var cid := recorded.value.canonicalId;
      ghost var row := RowFor(w.platform, a.entity, a.logicalKey, record).value;
      AddressGoesIn(w, before, cid, aid, a);
      var inserted := InsertAddress(AddressFor(a, cid));
      if inserted.Err? {
        return Err(inserted.fault);
      }
      RowForDomain(w.platform, a.entity, a.logicalKey, record);
      SharedFieldsAgree(w.platform, a, row.data, cid);
      ArgsAreStored(w.platform, a, row.data);
      return Ok(Shared(recorded.value, inserted.value));
    }
  }

  /** The tables take the row of a recordable record; only the entity id's width is left to the trigger on the chain. */
  lemma RecordGoesIn(w: World, t: Tables, id: int, entity: int, logicalKey: string, record: Value)
    requires RowFor(w.platform, entity, logicalKey, record).Ok?
    ensures var row := RowFor(w.platform, entity, logicalKey, record).value;
            && row.entity == entity
            && (Recordable(w, t, id, entity, logicalKey, record) <==>
                  FitsInt(entity) && InsertCanonical(w, t, id, row).Ok?)
            && (Stranded(w, t, id, entity, logicalKey, record) <==>
                  !FitsInt(entity) && InsertCanonical(w, t, id, row).Ok?)
            && (InsertCanonical(w, t, id, row).Ok? ==>
                  InsertCanonical(w, t, id, row) == Ok(t.(canonical := t.canonical[id := row])))
  {
    hide RowFor, CanonFree, RecordTaken;
    RecordIndex(t.canonical, id, RowFor(w.platform, entity, logicalKey, record).value);
    RowForDomain(w.platform, entity, logicalKey, record);
  }

  lemma InsertCanonicalRow(w: World, t: Tables, id: int, row: CanonRow)
    requires InsertCanonical(w, t, id, row).Ok?
    ensures InsertCanonical(w, t, id, row) == Ok(t.(canonical := t.canonical[id := row]))
  {
  }

  lemma ChainsVerify(w: World, t: Tables)
    requires TablesOk(w, t)
    ensures forall entity :: VerifyChain(w.platform, t, entity) == None
  {
    hide VerifyChain, ChainOf;
    forall entity ensures VerifyChain(w.platform, t, entity) == None {
      IntactVerifies(w.platform, t, entity);
    }
  }

  /** The link for a present record of an existing entity, built from a current read, is accepted if the entity id
      fits. */
  lemma LinkGoesIn(w: World, t: Tables, id: int, next: (int, bytes))
    requires TablesOk(w, t) && id in t.canonical && next == NextLink(ChainOf(t.chain, t.canonical[id].entity))
    ensures var entity := t.canonical[id].entity;
            var link := LinkFor(w.platform, entity, id, t.canonical[id].sha, next);
            && (InsertChain(w, t, link).Ok? <==> FitsInt(entity))
            && (InsertChain(w, t, link).Ok? ==> InsertChain(w, t, link) == Ok(t.(chain := t.chain + [link])))
            && link == NextRow(w, t.chain, id, t.canonical[id])
            && Tip(ChainOf(t.chain + [link], entity)) == link.entry
  {
    hide ChainOf, AuditAppend;
    var entity := t.canonical[id].entity;
    var rows := ChainOf(t.chain, entity);
    IntactEnd(w.platform, t.canonical, rows);
    assert RecordOk(w, t.canonical[id]);
    AppendIsOneMoreLink(w, t, LinkFor(w.platform, entity, id, t.canonical[id].sha, next));
    ChainOfAppend(t.chain, LinkFor(w.platform, entity, id, t.canonical[id].sha, next), entity);
  }

  lemma {:induction false} DecimalStorable(n: int)
    ensures Storable(Decimal(n))
    decreases n < 0, if n < 0 then -n else n
  {
    if n < 0 {
      DecimalStorable(-n);
    } else if n >= 10 {
      DecimalStorable(n / 10);
    }
  }

  /** After the record is chained, the address row goes in exactly when it was placeable before. */
  lemma AddressGoesIn(w: World, before: Tables, cid: int, aid: int, a: SharedArgs)
    requires RowFor(w.platform, a.entity, a.logicalKey, KeyDerivationRecord(a)).Ok? && a.entity in w.entities
    ensures var row := RowFor(w.platform, a.entity, a.logicalKey, KeyDerivationRecord(a)).value;
            PutAddress(w, WithRecord(w, before, cid, row), aid, AddressFor(a, cid)).Ok? <==>
              Placeable(w, before, aid, a)
  {
    hide ChainOf, RowFor, CanonicalBytes, FieldsAgree, Decimal, KeyDerivationRecord;
    var record := KeyDerivationRecord(a);
    var row := RowFor(w.platform, a.entity, a.logicalKey, record).value;
    var t := WithRecord(w, before, cid, row);
    var address := AddressFor(a, cid);
    RowForDomain(w.platform, a.entity, a.logicalKey, record);
    SharedFieldsAgree(w.platform, a, row.data, cid);
    SharedLengths(w.platform, a);
    DecimalStorable(a.invoice);
    DecimalStorable(a.payment);
    assert t.chain[|t.chain| - 1].canonicalId == cid;
    assert SharedBinding(t, address).Ok?;
    AddressTextIndex(t.addresses, aid, address);
    SharedContextIndex(t.addresses, aid, address);
  }

  /** Validation has already measured the key and the commitment. */
  lemma SharedLengths(p: Platform, a: SharedArgs)
    requires CanonicalBytes(KeyDerivationRecord(a), p).Ok?
    ensures |a.pubkey| == 33 && |a.saltCommitment| == 32
  {
    hide Encode, Validate, KeyDerivationRecord;
    SelfCheckNeverFires(KeyDerivationRecord(a), p);
    KeyDerivationValidates(p, a);
  }
}
