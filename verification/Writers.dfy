/** Concurrent Python writers: each runs its procedures one database call at a time, between other writers' calls. */
module Writers {
  import opened Bytes
  import opened Results
  import opened CborModel
  import opened Records
  import opened Tables
  import opened Integrity
  import opened TableInvariant
  import opened Transactions
  import opened Linkage

  /** A call of `record_canonical_and_chain`, or of `record_shared_address` when `shared` is given. */
  datatype Call = Call(entity: int, logicalKey: string, record: Value, shared: Option<SharedArgs>)

  function PlainCall(entity: int, logicalKey: string, record: Value): Call {
    Call(entity, logicalKey, record, None)
  }

  function SharedCall(a: SharedArgs): Call {
    Call(a.entity, a.logicalKey, KeyDerivationRecord(a), Some(a))
  }

  /** Where a writer stands in its procedure: nothing running, the record inserted, the last row read, the link
      inserted. */
  datatype Pc =
    | Idle
    | Recorded(call: Call, canonicalId: int)
    | LastRead(call: Call, canonicalId: int, next: (int, bytes))
    | Linked(call: Call, canonicalId: int)

  /** The database, and the place of each writer; a writer that is not listed is idle. */
  datatype System = System(db: State, pcs: map<int, Pc>)

  const START_SYSTEM := System(START, map[])

  /** One call to the database by the writer `t`. */
  datatype DbCall =
    | Open(t: int)
    | StartPlain(t: int, entity: int, logicalKey: string, record: Value)
    | StartShared(t: int, args: SharedArgs)
    | ReadLast(t: int)
    | InsertLink(t: int)
    | InsertShared(t: int)
    | AddAddress(t: int, row: AddressRow)
    | ChangeAddress(t: int, id: int, row: AddressRow)
    | Close(t: int)
    | Drop(t: int)

  /** A SHARED_ECDH row shows the public values of the record it points to. */
  predicate RowBound(p: Platform, canonical: map<int, CanonRow>, row: AddressRow) {
    row.derivation == SHARED_ECDH ==>
      && row.keyDerivationId.Some? && row.keyDerivationId.value in canonical
      && FieldsAgree(p, canonical[row.keyDerivationId.value].data, row)
  }

  function PcOf(s: System, t: int): Pc {
    if t in s.pcs then s.pcs[t] else Idle
  }

  /** After a statement: on with the procedure, or out of it with the exception, or the same call again. */
  function Proceed(s: System, t: int, db: State, outcome: Outcome, pc: Pc): System {
    match outcome
    case Waits => System(db, s.pcs)
    case Refused(_) => System(db, s.pcs[t := Idle])
    case Done(_) => System(db, s.pcs[t := pc])
  }

  /** `record_canonical_and_chain` up to its first INSERT. An exception before it touches nothing. */
  function Start(w: World, s: System, t: int, call: Call): System {
    if !Active(s.db, t) || !PcOf(s, t).Idle? then s
    else
      match RowFor(w.platform, call.entity, call.logicalKey, call.record)
      case Err(_) => s
      case Ok(row) =>
        Proceed(s, t, Next(w, s.db, InsertRecord(t, row)), RunInsertRecord(w, s.db, t, row),
                Recorded(call, s.db.nextCanonical))
  }

  /** The row the writer at this place inserts into the chain. */
  function LinkOf(w: World, s: System, t: int): ChainRow
    requires t in s.db.txns && PcOf(s, t).LastRead? && PcOf(s, t).canonicalId in Visible(s.db, t).canonical
  {
    var pc := PcOf(s, t);
    LinkFor(w.platform, pc.call.entity, pc.canonicalId, Visible(s.db, t).canonical[pc.canonicalId].sha, pc.next)
  }

  /** The guard of a direct INSERT or UPDATE of an address, between procedures: the row shows what its record says. */
  predicate MayWrite(w: World, s: System, t: int, row: AddressRow) {
    Active(s.db, t) && PcOf(s, t).Idle? && RowBound(w.platform, Visible(s.db, t).canonical, row)
  }

  function NextSystem(w: World, s: System, step: DbCall): System {
    match step
    case Open(t) => if t in s.db.txns then s else System(Next(w, s.db, Begin(t)), s.pcs[t := Idle])
    case StartPlain(t, entity, logicalKey, record) => Start(w, s, t, PlainCall(entity, logicalKey, record))
    case StartShared(t, args) => Start(w, s, t, SharedCall(args))
    case ReadLast(t) =>
      var pc := PcOf(s, t);
      if !Active(s.db, t) || !pc.Recorded? then s
      else
        var next := NextLink(ChainOf(Visible(s.db, t).chain, pc.call.entity));
        s.(pcs := s.pcs[t := LastRead(pc.call, pc.canonicalId, next)])
    case InsertLink(t) =>
      var pc := PcOf(s, t);
      if !Active(s.db, t) || !pc.LastRead? || pc.canonicalId !in Visible(s.db, t).canonical then s
      else
        var row := LinkOf(w, s, t);
        Proceed(s, t, Next(w, s.db, AppendChain(t, row)), RunAppendChain(w, s.db, t, row),
                if pc.call.shared.Some? then Linked(pc.call, pc.canonicalId) else Idle)
    case InsertShared(t) =>
      var pc := PcOf(s, t);
      if !Active(s.db, t) || !pc.Linked? || pc.call.shared.None? then s
      else
        var row := AddressFor(pc.call.shared.value, pc.canonicalId);
        Proceed(s, t, Next(w, s.db, InsertAddress(t, row)), RunPutAddress(w, s.db, t, s.db.nextAddress, row), Idle)
    case AddAddress(t, row) =>
      if !MayWrite(w, s, t, row) then s else s.(db := Next(w, s.db, InsertAddress(t, row)))
    case ChangeAddress(t, id, row) =>
      if !MayWrite(w, s, t, row) || id !in Visible(s.db, t).addresses then s
      else s.(db := Next(w, s.db, UpdateAddress(t, id, row)))
    case Close(t) => if !PcOf(s, t).Idle? then s else System(Next(w, s.db, Commit(t)), s.pcs - {t})
    case Drop(t) => System(Next(w, s.db, Abort(t)), s.pcs - {t})
  }

  function RunSystem(w: World, s: System, steps: seq<DbCall>): System {
    if steps == [] then s else NextSystem(w, RunSystem(w, s, steps[..|steps| - 1]), steps[|steps| - 1])
  }

  // The writers' invariant

  /** Each SHARED_ECDH address shows the public values of the record it points to. */
  ghost predicate FieldsBound(p: Platform, t: Tables) {
    forall id :: id in t.addresses ==> RowBound(p, t.canonical, t.addresses[id])
  }

  ghost predicate CallOk(call: Call) {
    call.shared.Some? ==> call == SharedCall(call.shared.value)
  }

  /** The record under way is among the writer's own uncommitted rows, as built from the call. */
  ghost predicate PcOk(w: World, own: Tables, pc: Pc) {
    pc.Idle? || (
      && CallOk(pc.call) && pc.canonicalId in own.canonical
      && RowFor(w.platform, pc.call.entity, pc.call.logicalKey, pc.call.record) == Ok(own.canonical[pc.canonicalId]))
  }

  ghost predicate WritersOk(w: World, s: System) {
    && Inv(w, s.db)
    && FieldsBound(w.platform, s.db.committed)
    && (forall t :: t in s.db.txns ==> FieldsBound(w.platform, Visible(s.db, t)))
    && (forall t :: t in s.db.txns ==> PcOk(w, s.db.txns[t].own, PcOf(s, t)))
    && (forall t :: t in s.pcs ==> t in s.db.txns)
  }

  lemma StartWritersOk(w: World)
    ensures WritersOk(w, START_SYSTEM)
  {
    StartInv(w);
  }

  /** What a step of `t` may do to the database for the writers' invariant to survive. */
  ghost predicate OwnStep(w: World, s: System, s': System, t: int) {
    && s'.db.committed == s.db.committed && t in s.db.txns && s'.db.txns.Keys == s.db.txns.Keys
    && (forall u :: u in s.db.txns && u != t ==> s'.db.txns[u].own == s.db.txns[u].own)
    && (forall u :: u in s.db.txns && u != t ==> PcOf(s', u) == PcOf(s, u))
    && (forall u :: u in s'.pcs ==> u in s'.db.txns)
  }

  lemma OwnStepKeeps(w: World, s: System, s': System, t: int)
    requires WritersOk(w, s) && Inv(w, s'.db) && OwnStep(w, s, s', t)
    requires FieldsBound(w.platform, Visible(s'.db, t)) && PcOk(w, s'.db.txns[t].own, PcOf(s', t))
    ensures WritersOk(w, s')
  {
    hide Inv, FieldsBound, PcOk;
    forall u | u in s'.db.txns
      ensures FieldsBound(w.platform, Visible(s'.db, u)) && PcOk(w, s'.db.txns[u].own, PcOf(s', u))
    {
      if u != t {
        assert Visible(s'.db, u) == Visible(s.db, u);
      }
    }
  }

  lemma StartKeeps(w: World, s: System, t: int, call: Call)
    requires WritersOk(w, s) && CallOk(call)
    ensures WritersOk(w, Start(w, s, t, call))
  {
    hide Inv, Next, RowFor, RunInsertRecord, FieldsBound, CallOk;
    var s' := Start(w, s, t, call);
    if Active(s.db, t) && PcOf(s, t).Idle? && RowFor(w.platform, call.entity, call.logicalKey, call.record).Ok? {
      var row := RowFor(w.platform, call.entity, call.logicalKey, call.record).value;
      StepKeepsInv(w, s.db, InsertRecord(t, row));
      StatementIsPrivate(w, s.db, InsertRecord(t, row));
      StatementEffect(w, s.db, InsertRecord(t, row));
      RecordKeepsBound(w, s.db, t, row);
      OwnStepKeeps(w, s, s', t);
    }
  }

  lemma RecordKeepsBound(w: World, db: State, t: int, row: CanonRow)
    requires Inv(w, db) && t in db.txns && FieldsBound(w.platform, Visible(db, t))
    ensures var r := RunInsertRecord(w, db, t, row);
            r.Done? ==>
              && r.own.canonical == db.txns[t].own.canonical[db.nextCanonical := row]
              && FieldsBound(w.platform, View(db.committed, r.own))
  {
    hide Inv, FieldsAgree, RecordPending;
    FreshRecordId(w, db, t);
  }

  lemma FreshRecordId(w: World, db: State, t: int)
    requires Inv(w, db) && t in db.txns
    ensures db.nextCanonical !in Visible(db, t).canonical
  {
    hide TablesOk;
    assert TxnOk(w, db, db.txns[t]);
  }

  lemma ReadLastKeeps(w: World, s: System, t: int)
    requires WritersOk(w, s)
    ensures WritersOk(w, NextSystem(w, s, ReadLast(t)))
  {
    hide Inv, RowFor, FieldsBound, CallOk, NextLink;
    if Active(s.db, t) && PcOf(s, t).Recorded? {
      OwnStepKeeps(w, s, NextSystem(w, s, ReadLast(t)), t);
    }
  }

  lemma InsertLinkKeeps(w: World, s: System, t: int)
    requires WritersOk(w, s)
    ensures WritersOk(w, NextSystem(w, s, InsertLink(t)))
  {
    hide Inv, Next, RowFor, FieldsAgree, InsertChain, CallOk, LinkOf;
    var s' := NextSystem(w, s, InsertLink(t));
    var pc := PcOf(s, t);
    if Active(s.db, t) && pc.LastRead? && pc.canonicalId in Visible(s.db, t).canonical {
      StepKeepsInv(w, s.db, AppendChain(t, LinkOf(w, s, t)));
      StatementIsPrivate(w, s.db, AppendChain(t, LinkOf(w, s, t)));
      StatementEffect(w, s.db, AppendChain(t, LinkOf(w, s, t)));
      OwnStepKeeps(w, s, s', t);
    }
  }

  lemma InsertSharedKeeps(w: World, s: System, t: int)
    requires WritersOk(w, s)
    ensures WritersOk(w, NextSystem(w, s, InsertShared(t)))
  {
    hide Inv, Next, RowFor, FieldsBound, PutAddress, AddressPending, AddressFor, KeyDerivationRecord;
    var s' := NextSystem(w, s, InsertShared(t));
    var pc := PcOf(s, t);
    if Active(s.db, t) && pc.Linked? && pc.call.shared.Some? {
      var a := pc.call.shared.value;
      var row := AddressFor(a, pc.canonicalId);
      StepKeepsInv(w, s.db, InsertAddress(t, row));
      StatementIsPrivate(w, s.db, InsertAddress(t, row));
      StatementEffect(w, s.db, InsertAddress(t, row));
      assert FieldsBound(w.platform, Visible(s'.db, t)) by {
        SharedRowIsBound(w, s.db, t, pc);
        PutIsVisible(s.db.committed, s.db.txns[t].own, s.db.nextAddress, row);
      }
      OwnStepKeeps(w, s, s', t);
    }
  }

  lemma AddAddressKeeps(w: World, s: System, t: int, row: AddressRow)
    requires WritersOk(w, s)
    ensures WritersOk(w, NextSystem(w, s, AddAddress(t, row)))
  {
    hide Inv, Next, RowFor, FieldsBound, PutAddress, AddressPending, CallOk, RowBound;
    var s' := NextSystem(w, s, AddAddress(t, row));
    if MayWrite(w, s, t, row) {
      StepKeepsInv(w, s.db, InsertAddress(t, row));
      StatementIsPrivate(w, s.db, InsertAddress(t, row));
      StatementEffect(w, s.db, InsertAddress(t, row));
      assert FieldsBound(w.platform, Visible(s'.db, t)) by {
        WriteKeepsBindingIff(w.platform, Visible(s.db, t), s.db.nextAddress, row);
        PutIsVisible(s.db.committed, s.db.txns[t].own, s.db.nextAddress, row);
      }
      OwnStepKeeps(w, s, s', t);
    }
  }

  lemma ChangeAddressKeeps(w: World, s: System, t: int, id: int, row: AddressRow)
    requires WritersOk(w, s)
    ensures WritersOk(w, NextSystem(w, s, ChangeAddress(t, id, row)))
  {
    hide Inv, Next, RowFor, FieldsBound, PutAddress, AddressPending, CallOk, RowBound;
    var s' := NextSystem(w, s, ChangeAddress(t, id, row));
    if MayWrite(w, s, t, row) && id in Visible(s.db, t).addresses {
      StepKeepsInv(w, s.db, UpdateAddress(t, id, row));
      StatementIsPrivate(w, s.db, UpdateAddress(t, id, row));
      StatementEffect(w, s.db, UpdateAddress(t, id, row));
      assert FieldsBound(w.platform, Visible(s'.db, t)) by {
        WriteKeepsBindingIff(w.platform, Visible(s.db, t), id, row);
        PutIsVisible(s.db.committed, s.db.txns[t].own, id, row);
      }
      OwnStepKeeps(w, s, s', t);
    }
  }

  /** The guard is exact: writing any row under any id, new or old, keeps the binding of a bound table exactly when
      the row is not SHARED_ECDH or shows what the record it points at says. No trigger checks that. */
  lemma WriteKeepsBindingIff(p: Platform, t: Tables, id: int, row: AddressRow)
    requires FieldsBound(p, t)
    ensures FieldsBound(p, t.(addresses := t.addresses[id := row])) <==> RowBound(p, t.canonical, row)
  {
    hide RowBound;
    var t' := t.(addresses := t.addresses[id := row]);
    assert id in t'.addresses && t'.addresses[id] == row;
  }

  /** The same for an UPDATE that leaves a bound row's pointer alone, said without decoding: the row leaves
      SHARED_ECDH, or keeps the five columns that the record shows. */
  lemma UpdateKeepsBindingIff(p: Platform, t: Tables, id: int, row: AddressRow)
    requires FieldsBound(p, t) && id in t.addresses && t.addresses[id].derivation == SHARED_ECDH
    requires row.keyDerivationId == t.addresses[id].keyDerivationId
    ensures FieldsBound(p, t.(addresses := t.addresses[id := row])) <==>
              row.derivation != SHARED_ECDH || SamePublicValues(t.addresses[id], row)
  {
    hide FieldsAgree;
    WriteKeepsBindingIff(p, t, id, row);
    assert RowBound(p, t.canonical, t.addresses[id]);
    AgreementAfterChange(p, t.canonical[row.keyDerivationId.value].data, t.addresses[id], row);
  }

  lemma PutIsVisible(committed: Tables, own: Tables, id: int, row: AddressRow)
    ensures var visible := View(committed, own);
            View(committed, own.(addresses := own.addresses[id := row]))
            == visible.(addresses := visible.addresses[id := row])
  {
    assert committed.addresses + own.addresses[id := row] == (committed.addresses + own.addresses)[id := row];
  }

  /** The address row built from the call shows the record that the call put in the chain. */
  lemma SharedRowIsBound(w: World, db: State, t: int, pc: Pc)
    requires t in db.txns && PcOk(w, db.txns[t].own, pc) && pc.Linked? && pc.call.shared.Some?
    requires FieldsBound(w.platform, Visible(db, t))
    ensures var row := AddressFor(pc.call.shared.value, pc.canonicalId);
            var visible := Visible(db, t);
            FieldsBound(w.platform, visible.(addresses := visible.addresses[db.nextAddress := row]))
  {
    hide RowFor, FieldsAgree, KeyDerivationRecord;
    var a := pc.call.shared.value;
    OwnRecordIsVisible(w, db, t, pc.canonicalId);
    RowForDomain(w.platform, a.entity, a.logicalKey, KeyDerivationRecord(a));
    SharedFieldsAgree(w.platform, a, Visible(db, t).canonical[pc.canonicalId].data, pc.canonicalId);
    AddressPointsAt(a, pc.canonicalId);
  }

  lemma AddressPointsAt(a: SharedArgs, canonicalId: int)
    ensures AddressFor(a, canonicalId).keyDerivationId == Some(canonicalId)
  {
  }

  lemma OwnRecordIsVisible(w: World, db: State, t: int, id: int)
    requires t in db.txns && id in db.txns[t].own.canonical
    ensures id in Visible(db, t).canonical && Visible(db, t).canonical[id] == db.txns[t].own.canonical[id]
  {
  }

  lemma MergeBound(p: Platform, c: Tables, a: Tables, b: Tables)
    requires FieldsBound(p, View(c, a)) && FieldsBound(p, View(c, b))
    requires b.canonical.Keys !! (c.canonical + a.canonical).Keys && a.canonical.Keys !! c.canonical.Keys
    ensures FieldsBound(p, View(View(c, a), b))
  {
    hide FieldsAgree;
    var ca, cb, cab := View(c, a), View(c, b), View(View(c, a), b);
    MergeExtends(c, a, b);
    forall id | id in cab.addresses && cab.addresses[id].derivation == SHARED_ECDH
      ensures && cab.addresses[id].keyDerivationId.Some? && cab.addresses[id].keyDerivationId.value in cab.canonical
              && FieldsAgree(p, cab.canonical[cab.addresses[id].keyDerivationId.value].data, cab.addresses[id])
    {
      if id in b.addresses {
        assert cab.addresses[id] == cb.addresses[id];
      } else {
        assert cab.addresses[id] == ca.addresses[id];
      }
    }
  }

  lemma CloseKeeps(w: World, s: System, t: int)
    requires WritersOk(w, s)
    ensures WritersOk(w, NextSystem(w, s, Close(t)))
  {
    hide TablesOk, FieldsBound, PcOk, Compatible, LocksCover;
    if PcOf(s, t).Idle? {
      var s' := NextSystem(w, s, Close(t));
      StepKeepsInv(w, s.db, Commit(t));
      forall u | u in s'.db.txns
        ensures FieldsBound(w.platform, Visible(s'.db, u)) && PcOk(w, s'.db.txns[u].own, PcOf(s', u))
      {
        assert PcOf(s', u) == PcOf(s, u);
        if t in s.db.txns && !s.db.txns[t].failed {
          var a, b := s.db.txns[t], s.db.txns[u];
          assert TxnOk(w, s.db, a) && TxnOk(w, s.db, b) && PairOk(a, b);
          KeysApart(a.own, b.own);
          assert Visible(s.db, t) == View(s.db.committed, a.own) && Visible(s.db, u) == View(s.db.committed, b.own);
          MergeBound(w.platform, s.db.committed, a.own, b.own);
        } else {
          assert Visible(s'.db, u) == Visible(s.db, u);
        }
      }
    }
  }

  lemma OpenKeeps(w: World, s: System, t: int)
    requires WritersOk(w, s)
    ensures WritersOk(w, NextSystem(w, s, Open(t)))
  {
    hide Inv, FieldsBound, RowFor, CallOk;
    StepKeepsInv(w, s.db, Begin(t));
    if t !in s.db.txns {
      var s' := NextSystem(w, s, Open(t));
      assert View(s.db.committed, EMPTY) == s.db.committed;
      forall u | u in s'.db.txns
        ensures FieldsBound(w.platform, Visible(s'.db, u)) && PcOk(w, s'.db.txns[u].own, PcOf(s', u))
      {
        if u != t {
          assert Visible(s'.db, u) == Visible(s.db, u);
        }
      }
    }
  }

  lemma DropKeeps(w: World, s: System, t: int)
    requires WritersOk(w, s)
    ensures WritersOk(w, NextSystem(w, s, Drop(t)))
  {
    hide Inv, FieldsBound, PcOk;
    var s' := NextSystem(w, s, Drop(t));
    StepKeepsInv(w, s.db, Abort(t));
    forall u | u in s'.db.txns
      ensures FieldsBound(w.platform, Visible(s'.db, u)) && PcOk(w, s'.db.txns[u].own, PcOf(s', u))
    {
      assert Visible(s'.db, u) == Visible(s.db, u) && PcOf(s', u) == PcOf(s, u);
    }
  }

  lemma StepKeepsWriters(w: World, s: System, step: DbCall)
    requires WritersOk(w, s)
    ensures WritersOk(w, NextSystem(w, s, step))
  {
    hide WritersOk, NextSystem;
    match step
    case Open(t) => OpenKeeps(w, s, t);
    case StartPlain(t, entity, logicalKey, record) =>
      StartStep(w, s, step, PlainCall(entity, logicalKey, record));
      StartKeeps(w, s, t, PlainCall(entity, logicalKey, record));
    case StartShared(t, args) =>
      StartStep(w, s, step, SharedCall(args));
      StartKeeps(w, s, t, SharedCall(args));
    case ReadLast(t) => ReadLastKeeps(w, s, t);
    case InsertLink(t) => InsertLinkKeeps(w, s, t);
    case InsertShared(t) => InsertSharedKeeps(w, s, t);
    case AddAddress(t, row) => AddAddressKeeps(w, s, t, row);
    case ChangeAddress(t, id, row) => ChangeAddressKeeps(w, s, t, id, row);
    case Close(t) => CloseKeeps(w, s, t);
    case Drop(t) => DropKeeps(w, s, t);
  }

  lemma StartStep(w: World, s: System, step: DbCall, call: Call)
    requires (step.StartPlain? && call == PlainCall(step.entity, step.logicalKey, step.record))
             || (step.StartShared? && call == SharedCall(step.args))
    ensures NextSystem(w, s, step) == Start(w, s, step.t, call) && CallOk(call)
  {
  }

  lemma {:induction false} RunKeepsWriters(w: World, s: System, steps: seq<DbCall>)
    requires WritersOk(w, s)
    ensures WritersOk(w, RunSystem(w, s, steps))
  {
    hide WritersOk, NextSystem;
    if steps != [] {
      RunKeepsWriters(w, s, steps[..|steps| - 1]);
      StepKeepsWriters(w, RunSystem(w, s, steps[..|steps| - 1]), steps[|steps| - 1]);
    }
  }

  // What the writers guarantee

  /** One call of a writer is at most one step of the database. */
  lemma CallIsStep(w: World, s: System, step: DbCall) returns (db: seq<Step>)
    ensures |db| <= 1 && NextSystem(w, s, step).db == if db == [] then s.db else Next(w, s.db, db[0])
    ensures db != [] ==> db[0].t == step.t
  {
    hide Next, RowFor, RunInsertRecord, RunAppendChain, RunPutAddress, NextLink, AddressFor, KeyDerivationRecord;
    var s' := NextSystem(w, s, step);
    if s'.db == s.db {
      return [];
    }
    match step
    case Open(t) => db := [Begin(t)];
    case StartPlain(t, entity, logicalKey, record) => db := StartIsStep(w, s, t, PlainCall(entity, logicalKey, record));
    case StartShared(t, args) => db := StartIsStep(w, s, t, SharedCall(args));
    case ReadLast(t) => db := [];
    case InsertLink(t) => db := [AppendChain(t, LinkOf(w, s, t))];
    case InsertShared(t) => db := [InsertAddress(t, AddressFor(PcOf(s, t).call.shared.value, PcOf(s, t).canonicalId))];
    case AddAddress(t, row) => db := [InsertAddress(t, row)];
    case ChangeAddress(t, id, row) => db := [UpdateAddress(t, id, row)];
    case Close(t) => db := [Commit(t)];
    case Drop(t) => db := [Abort(t)];
  }

  lemma StartIsStep(w: World, s: System, t: int, call: Call) returns (db: seq<Step>)
    ensures |db| <= 1 && Start(w, s, t, call).db == if db == [] then s.db else Next(w, s.db, db[0])
    ensures db != [] ==> db[0].t == t
  {
    hide Next, RowFor, RunInsertRecord;
    var row := RowFor(w.platform, call.entity, call.logicalKey, call.record);
    db := if Active(s.db, t) && PcOf(s, t).Idle? && row.Ok? then [InsertRecord(t, row.value)] else [];
  }

  /** The writers refine the database: what their calls do to it, a run of plain statements does. */
  lemma {:induction false} RunIsDbRun(w: World, steps: seq<DbCall>) returns (db: seq<Step>)
    ensures RunSystem(w, START_SYSTEM, steps).db == Run(w, START, db)
  {
    hide NextSystem, Next;
    if steps == [] {
      db := [];
    } else {
      var front := steps[..|steps| - 1];
      var before := RunIsDbRun(w, front);
      var last := CallIsStep(w, RunSystem(w, START_SYSTEM, front), steps[|steps| - 1]);
      db := before + last;
      assert last != [] ==> db[..|db| - 1] == before;
      assert last == [] ==> db == before;
    }
  }

  /** Concurrent safety of the writers with their unlocked reads: what `ChainsAreSafe` says of the database holds in
      every state that any interleaving of their calls reaches. */
  lemma WritersAreSafe(w: World, steps: seq<DbCall>, entity: int)
    ensures ChainSafe(w, RunSystem(w, START_SYSTEM, steps).db, entity)
  {
    hide ChainSafe, RunSystem, Run;
    var db := RunIsDbRun(w, steps);
    ChainsAreSafe(w, db, entity);
  }

  /** Field-equality binding. In every state that any interleaving of the two procedures and of guarded UPDATEs
      reaches, each committed SHARED_ECDH address points at a chained KEY_DERIVATION record of its own entity, whose
      bytes decode to a record with fields 69 to 73 equal to the row's invoice number, payment index, pubkey, salt
      commitment and text. */
  lemma SharedAddressesShowTheirRecords(w: World, steps: seq<DbCall>, id: int)
    requires id in RunSystem(w, START_SYSTEM, steps).db.committed.addresses
    requires RunSystem(w, START_SYSTEM, steps).db.committed.addresses[id].derivation == SHARED_ECDH
    ensures var c := RunSystem(w, START_SYSTEM, steps).db.committed;
            var row := c.addresses[id];
            && row.keyDerivationId.Some? && row.keyDerivationId.value in c.canonical
            && var record := c.canonical[row.keyDerivationId.value];
               && record.recordType == KEY_DERIVATION && record.entity == row.entity
               && (exists link :: link in c.chain && link.entity == row.entity
                     && link.canonicalId == row.keyDerivationId.value)
               && FieldsAgree(w.platform, record.data, row)
  {
    hide FieldsAgree, ChainsIntact;
    StartWritersOk(w);
    RunKeepsWriters(w, START_SYSTEM, steps);
    var c := RunSystem(w, START_SYSTEM, steps).db.committed;
    assert AddressOk(c, c.addresses[id]);
  }

  /** The writer's link goes in exactly when the lock is free, its read is still current and the entity id fits the
      lock key. */
  lemma StaleReadIsRefused(w: World, s: System, t: int)
    requires WritersOk(w, s) && Active(s.db, t) && PcOf(s, t).LastRead?
    ensures PcOf(s, t).canonicalId in Visible(s.db, t).canonical
    ensures var pc := PcOf(s, t);
            RunAppendChain(w, s.db, t, LinkOf(w, s, t)).Done? <==>
              && FitsInt(pc.call.entity) && !LockHeldElsewhere(s.db, t, pc.call.entity)
              && pc.next == NextLink(ChainOf(Visible(s.db, t).chain, pc.call.entity))
  {
    hide ChainOf, AuditAppend, CallOk, FieldsBound, Unique;
    var pc, visible := PcOf(s, t), Visible(s.db, t);
    OwnRecordIsVisible(w, s.db, t, pc.canonicalId);
    assert TxnOk(w, s.db, s.db.txns[t]);
    RowForDomain(w.platform, pc.call.entity, pc.call.logicalKey, pc.call.record);
    var rows := ChainOf(visible.chain, pc.call.entity);
    IntactEnd(w.platform, visible.canonical, rows);
    assert RecordOk(w, visible.canonical[pc.canonicalId]);
    LinkIsCurrent(w, visible, pc.call.entity, pc.canonicalId, pc.next);
  }

  /** A writer whose read is stale is rejected, or has to wait for the lock; in either case no row of any table
      changes, committed or uncommitted, and a rejection leaves its transaction unable to commit. */
  lemma StaleWriterChangesNoRow(w: World, s: System, t: int)
    requires WritersOk(w, s) && Active(s.db, t) && PcOf(s, t).LastRead?
    requires PcOf(s, t).next != NextLink(ChainOf(Visible(s.db, t).chain, PcOf(s, t).call.entity))
    ensures var s', entity := NextSystem(w, s, InsertLink(t)), PcOf(s, t).call.entity;
            && s'.db.committed == s.db.committed && s'.db.txns.Keys == s.db.txns.Keys
            && (forall u :: u in s.db.txns ==> s'.db.txns[u].own == s.db.txns[u].own)
            && (s'.db.txns[t].failed <==> !(FitsInt(entity) && LockHeldElsewhere(s.db, t, entity)))
  {
    hide WritersOk, Next, NextLink, ChainOf, Visible, LinkOf, InsertChain;
    StaleReadIsRefused(w, s, t);
    var row := LinkOf(w, s, t);
    LinkEntity(w, s, t);
    RefusalChangesNoRow(w, s.db, t, row);
    StatementEffect(w, s.db, AppendChain(t, row));
  }

  lemma LinkEntity(w: World, s: System, t: int)
    requires t in s.db.txns && PcOf(s, t).LastRead? && PcOf(s, t).canonicalId in Visible(s.db, t).canonical
    ensures LinkOf(w, s, t).entity == PcOf(s, t).call.entity
  {
  }

  lemma LinkIsCurrent(w: World, t: Tables, entity: int, id: int, next: (int, bytes))
    requires Intact(w.platform, t.canonical, ChainOf(t.chain, entity))
    requires id in t.canonical && t.canonical[id].entity == entity && entity in w.entities
    ensures InsertChain(w, t, LinkFor(w.platform, entity, id, t.canonical[id].sha, next)).Ok? <==>
              FitsInt(entity) && next == NextLink(ChainOf(t.chain, entity))
  {
    hide ChainOf, AuditAppend;
    var row := LinkFor(w.platform, entity, id, t.canonical[id].sha, next);
    AppendIsOneMoreLink(w, t, row);
    IntactEnd(w.platform, t.canonical, ChainOf(t.chain, entity));
  }

  /** While other writers move, `t` keeps its place and its rows, and the committed chain only grows at its end. */
  lemma {:induction false} OthersLeaveItAlone(w: World, s: System, steps: seq<DbCall>, t: int)
    requires WritersOk(w, s) && t in s.db.txns && forall i :: 0 <= i < |steps| ==> steps[i].t != t
    ensures var s' := RunSystem(w, s, steps);
            && t in s'.db.txns && s'.db.txns[t] == s.db.txns[t] && PcOf(s', t) == PcOf(s, t)
            && s.db.committed.chain <= s'.db.committed.chain
  {
    hide WritersOk;
    if steps != [] {
      var front, last := steps[..|steps| - 1], steps[|steps| - 1];
      OthersLeaveItAlone(w, s, front, t);
      RunKeepsWriters(w, s, front);
      OneOtherStep(w, RunSystem(w, s, front), last, t);
    }
  }

  lemma OneOtherDbStep(w: World, db: State, step: Step, t: int)
    requires Inv(w, db) && t in db.txns && step.t != t
    ensures var db' := Next(w, db, step);
            t in db'.txns && db'.txns[t] == db.txns[t] && db.committed.chain <= db'.committed.chain
  {
    hide Inv, RunInsertRecord, RunAppendChain, RunPutAddress;
    StepOnlyAddsEvidence(w, db, step);
  }

  lemma OtherPlace(w: World, s: System, step: DbCall, t: int)
    requires step.t != t
    ensures PcOf(NextSystem(w, s, step), t) == PcOf(s, t)
  {
    hide Next, RowFor, RunInsertRecord, RunAppendChain, RunPutAddress, LinkOf, NextLink, AddressFor, MayWrite, Visible;
    hide KeyDerivationRecord, Active;
  }

  lemma OneOtherStep(w: World, s: System, step: DbCall, t: int)
    requires WritersOk(w, s) && t in s.db.txns && step.t != t
    ensures var s' := NextSystem(w, s, step);
            && t in s'.db.txns && s'.db.txns[t] == s.db.txns[t] && PcOf(s', t) == PcOf(s, t)
            && s.db.committed.chain <= s'.db.committed.chain
  {
    hide Next, NextSystem, Inv, FieldsBound, PcOk, PcOf;
    OtherPlace(w, s, step, t);
    var db := CallIsStep(w, s, step);
    if db != [] {
      OneOtherDbStep(w, s.db, db[0], t);
    }
  }

  /** Optimistic linkage over whole runs: between a writer's read and its insert, any calls of other writers may come.
      The insert is accepted exactly when the lock is free and no row was committed to the entity's chain in between. */
  lemma AcceptedIffNobodyCameBetween(w: World, s: System, t: int, others: seq<DbCall>)
    requires WritersOk(w, s) && Active(s.db, t) && PcOf(s, t).Recorded? && FitsInt(PcOf(s, t).call.entity)
    requires forall i :: 0 <= i < |others| ==> others[i].t != t
    ensures var entity := PcOf(s, t).call.entity;
            var s' := RunSystem(w, NextSystem(w, s, ReadLast(t)), others);
            && Active(s'.db, t) && PcOf(s', t).LastRead? && PcOf(s', t).canonicalId in Visible(s'.db, t).canonical
            && (RunAppendChain(w, s'.db, t, LinkOf(w, s', t)).Done? <==>
                  && !LockHeldElsewhere(s'.db, t, entity)
                  && ChainOf(s'.db.committed.chain, entity) == ChainOf(s.db.committed.chain, entity))
  {
    hide WritersOk, ChainOf, NextLink, RunAppendChain, NextSystem, RunSystem, Visible, LockHeldElsewhere, LinkOf;
    var entity := PcOf(s, t).call.entity;
    var s1 := NextSystem(w, s, ReadLast(t));
    var s' := RunSystem(w, s1, others);
    ReadLastKeeps(w, s, t);
    ReadLastEffect(w, s, t);
    OthersLeaveItAlone(w, s1, others, t);
    RunKeepsWriters(w, s1, others);
    StaleReadIsRefused(w, s', t);
    SameLinkSameChain(w, s, s', t, entity);
  }

  lemma ReadLastEffect(w: World, s: System, t: int)
    requires Active(s.db, t) && PcOf(s, t).Recorded?
    ensures var s' := NextSystem(w, s, ReadLast(t));
            && s'.db == s.db
            && PcOf(s', t) == LastRead(PcOf(s, t).call, PcOf(s, t).canonicalId,
                                       NextLink(ChainOf(Visible(s.db, t).chain, PcOf(s, t).call.entity)))
  {
  }

  /** The chain has grown exactly when the next link differs. */
  lemma SameLinkSameChain(w: World, s: System, s': System, t: int, entity: int)
    requires WritersOk(w, s) && WritersOk(w, s') && t in s.db.txns && t in s'.db.txns
    requires s'.db.txns[t].own == s.db.txns[t].own && s.db.committed.chain <= s'.db.committed.chain
    ensures NextLink(ChainOf(Visible(s.db, t).chain, entity)) == NextLink(ChainOf(Visible(s'.db, t).chain, entity))
            <==> ChainOf(s'.db.committed.chain, entity) == ChainOf(s.db.committed.chain, entity)
  {
    hide ChainOf, FieldsBound, PcOk, Unique, NextLink;
    var before, after := s.db.committed.chain, s'.db.committed.chain;
    var own := s.db.txns[t].own.chain;
    assert after == before + after[|before|..];
    ChainOfConcat(before, after[|before|..], entity);
    ChainOfConcat(before, own, entity);
    ChainOfConcat(after, own, entity);
    assert TxnOk(w, s.db, s.db.txns[t]) && TxnOk(w, s'.db, s'.db.txns[t]);
    NextLinkOfIntact(w.platform, Visible(s.db, t).canonical, ChainOf(Visible(s.db, t).chain, entity));
    NextLinkOfIntact(w.platform, Visible(s'.db, t).canonical, ChainOf(Visible(s'.db, t).chain, entity));
  }

  lemma NextLinkOfIntact(p: Platform, canonical: map<int, CanonRow>, rows: seq<ChainRow>)
    requires Intact(p, canonical, rows)
    ensures NextLink(rows) == (|rows| + 1, Tip(rows))
  {
    IntactEnd(p, canonical, rows);
  }
}
