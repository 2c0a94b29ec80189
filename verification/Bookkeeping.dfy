/** The books balance: every committed record is chained exactly once, and holds the bytes of a record. */
module Bookkeeping {
  import opened Results
  import opened CborModel
  import opened Records
  import opened Tables
  import opened Verifier
  import opened Integrity
  import opened TableInvariant
  import opened Transactions
  import opened Linkage
  import opened Writers
  import opened Tamper

  /** How many rows of the chains point at this record. */
  function Times(chain: seq<ChainRow>, id: int): nat {
    if chain == [] then 0
    else Times(chain[..|chain| - 1], id) + if chain[|chain| - 1].canonicalId == id then 1 else 0
  }

  lemma {:induction false} TimesConcat(a: seq<ChainRow>, b: seq<ChainRow>, id: int)
    ensures Times(a + b, id) == Times(a, id) + Times(b, id)
  {
    if b == [] {
      assert a + b == a;
    } else {
      TimesConcat(a, b[..|b| - 1], id);
      assert (a + b)[..|a + b| - 1] == a + b[..|b| - 1];
    }
  }

  lemma TimesAppend(chain: seq<ChainRow>, row: ChainRow, id: int)
    ensures Times(chain + [row], id) == Times(chain, id) + if row.canonicalId == id then 1 else 0
  {
    assert (chain + [row])[..|chain + [row]| - 1] == chain;
  }

  lemma {:induction false} NotChained(chain: seq<ChainRow>, id: int)
    requires Times(chain, id) == 0
    ensures forall i :: 0 <= i < |chain| ==> chain[i].canonicalId != id
  {
    if chain != [] {
      NotChained(chain[..|chain| - 1], id);
      assert forall i :: 0 <= i < |chain| - 1 ==> chain[i] == chain[..|chain| - 1][i];
    }
  }

  /** A record that is chained once has one place. */
  lemma {:induction false} ThePlace(chain: seq<ChainRow>, id: int) returns (place: int)
    requires Times(chain, id) == 1
    ensures 0 <= place < |chain| && forall i :: 0 <= i < |chain| ==> (chain[i].canonicalId == id <==> i == place)
  {
    var front := chain[..|chain| - 1];
    assert forall i :: 0 <= i < |front| ==> chain[i] == front[i];
    if chain[|chain| - 1].canonicalId == id {
      NotChained(front, id);
      place := |chain| - 1;
    } else {
      place := ThePlace(front, id);
    }
  }

  /** The row is what `record_canonical_and_chain` inserts for some record. */
  ghost predicate HasRecord(p: Platform, row: CanonRow) {
    exists record :: RowFor(p, row.entity, row.logicalKey, record) == Ok(row)
  }

  /** Every record is chained once, but for the one still to be linked. */
  ghost predicate Balanced(p: Platform, t: Tables, pending: Option<int>) {
    && (forall id :: Times(t.chain, id) == if id in t.canonical && pending != Some(id) then 1 else 0)
    && (forall id :: id in t.canonical ==> HasRecord(p, t.canonical[id]))
  }

  /** The record that the writer at this place has inserted and not linked yet. */
  function PendingId(pc: Pc): Option<int> {
    match pc
    case Recorded(_, id) => Some(id)
    case LastRead(_, id, _) => Some(id)
    case _ => None
  }

  /** The committed tables balance, and so do the changes of each writer that can still commit. */
  ghost predicate BooksOk(w: World, s: System) {
    && Balanced(w.platform, s.db.committed, None)
    && forall t :: t in s.db.txns && !s.db.txns[t].failed ==>
         Balanced(w.platform, s.db.txns[t].own, PendingId(PcOf(s, t)))
  }

  /** A step of `t` that leaves the committed tables and the other writers alone. */
  lemma OwnStepBalances(w: World, s: System, s': System, t: int)
    requires BooksOk(w, s) && OwnStep(w, s, s', t)
    requires forall u :: u in s.db.txns && u != t ==> s'.db.txns[u] == s.db.txns[u]
    requires !s'.db.txns[t].failed ==> Balanced(w.platform, s'.db.txns[t].own, PendingId(PcOf(s', t)))
    ensures BooksOk(w, s')
  {
    hide Balanced;
  }

  lemma RecordBalances(p: Platform, own: Tables, id: int, row: CanonRow)
    requires Balanced(p, own, None) && id !in own.canonical && HasRecord(p, row)
    ensures Balanced(p, own.(canonical := own.canonical[id := row]), Some(id))
  {
    hide HasRecord;
  }

  lemma LinkBalances(p: Platform, own: Tables, row: ChainRow)
    requires row.canonicalId in own.canonical && Balanced(p, own, Some(row.canonicalId))
    ensures Balanced(p, own.(chain := own.chain + [row]), None)
  {
    hide HasRecord;
    forall id ensures Times(own.chain + [row], id) == if id in own.canonical then 1 else 0 {
      TimesAppend(own.chain, row, id);
    }
  }

  lemma CommitBalances(p: Platform, committed: Tables, own: Tables)
    requires Balanced(p, committed, None) && Balanced(p, own, None)
    requires own.canonical.Keys !! committed.canonical.Keys
    ensures Balanced(p, View(committed, own), None)
  {
    hide HasRecord;
    var t := View(committed, own);
    forall id ensures Times(t.chain, id) == if id in t.canonical then 1 else 0 {
      TimesConcat(committed.chain, own.chain, id);
    }
  }

  lemma StartBalances(w: World, s: System, t: int, call: Call)
    requires WritersOk(w, s) && BooksOk(w, s)
    ensures BooksOk(w, Start(w, s, t, call))
  {
    hide Inv, Next, RowFor, RunInsertRecord, FieldsBound, Balanced, HasRecord, Visible;
    var s' := Start(w, s, t, call);
    if Active(s.db, t) && PcOf(s, t).Idle? && RowFor(w.platform, call.entity, call.logicalKey, call.record).Ok? {
      var row := RowFor(w.platform, call.entity, call.logicalKey, call.record).value;
      StatementIsPrivate(w, s.db, InsertRecord(t, row));
      StatementEffect(w, s.db, InsertRecord(t, row));
      RecordEffect(w, s.db, t, row);
      CallHasRecord(w.platform, call, row);
      if RunInsertRecord(w, s.db, t, row).Done? {
        RecordBalances(w.platform, s.db.txns[t].own, s.db.nextCanonical, row);
      }
      OwnStepBalances(w, s, s', t);
    }
  }

  lemma CallHasRecord(p: Platform, call: Call, row: CanonRow)
    requires RowFor(p, call.entity, call.logicalKey, call.record) == Ok(row)
    ensures HasRecord(p, row)
  {
    hide RowFor;
    RowForDomain(p, call.entity, call.logicalKey, call.record);
  }

  lemma RecordEffect(w: World, db: State, t: int, row: CanonRow)
    requires Inv(w, db) && t in db.txns
    ensures var r, own := RunInsertRecord(w, db, t, row), db.txns[t].own;
            && db.nextCanonical !in own.canonical
            && (r.Done? ==> r.own == own.(canonical := own.canonical[db.nextCanonical := row]))
  {
    hide RecordPending, InsertCanonical, Inv;
    FreshRecordId(w, db, t);
  }

  lemma LinkEffect(w: World, db: State, t: int, row: ChainRow)
    requires t in db.txns
    ensures var r, own := RunAppendChain(w, db, t, row), db.txns[t].own;
            r.Done? ==> r.own == own.(chain := own.chain + [row])
  {
    hide InsertChain;
  }

  lemma AddressEffect(w: World, db: State, t: int, id: int, row: AddressRow)
    requires t in db.txns
    ensures var r, own := RunPutAddress(w, db, t, id, row), db.txns[t].own;
            r.Done? ==> r.own == own.(addresses := own.addresses[id := row])
  {
    hide PutAddress, AddressPending;
  }

  lemma AddressBalances(p: Platform, own: Tables, addresses: map<int, AddressRow>, pending: Option<int>)
    requires Balanced(p, own, pending)
    ensures Balanced(p, own.(addresses := addresses), pending)
  {
  }

  lemma InsertLinkBalances(w: World, s: System, t: int)
    requires WritersOk(w, s) && BooksOk(w, s)
    ensures BooksOk(w, NextSystem(w, s, InsertLink(t)))
  {
    hide Inv, Next, RowFor, RunAppendChain, FieldsBound, Balanced, CallOk;
    var s', pc := NextSystem(w, s, InsertLink(t)), PcOf(s, t);
    if Active(s.db, t) && pc.LastRead? && pc.canonicalId in Visible(s.db, t).canonical {
      var row := LinkOf(w, s, t);
      StatementIsPrivate(w, s.db, AppendChain(t, row));
      StatementEffect(w, s.db, AppendChain(t, row));
      LinkEffect(w, s.db, t, row);
      if RunAppendChain(w, s.db, t, row).Done? {
        LinkBalances(w.platform, s.db.txns[t].own, row);
      }
      OwnStepBalances(w, s, s', t);
    }
  }

  lemma InsertSharedBalances(w: World, s: System, t: int)
    requires WritersOk(w, s) && BooksOk(w, s)
    ensures BooksOk(w, NextSystem(w, s, InsertShared(t)))
  {
    hide Inv, Next, RowFor, RunPutAddress, FieldsBound, Balanced, CallOk, AddressFor;
    var s', pc := NextSystem(w, s, InsertShared(t)), PcOf(s, t);
    if Active(s.db, t) && pc.Linked? && pc.call.shared.Some? {
      var row, own := AddressFor(pc.call.shared.value, pc.canonicalId), s.db.txns[t].own;
      StatementIsPrivate(w, s.db, InsertAddress(t, row));
      StatementEffect(w, s.db, InsertAddress(t, row));
      AddressEffect(w, s.db, t, s.db.nextAddress, row);
      AddressBalances(w.platform, own, own.addresses[s.db.nextAddress := row], None);
      OwnStepBalances(w, s, s', t);
    }
  }

  lemma AddAddressBalances(w: World, s: System, t: int, row: AddressRow)
    requires WritersOk(w, s) && BooksOk(w, s)
    ensures BooksOk(w, NextSystem(w, s, AddAddress(t, row)))
  {
    hide Inv, Next, RowFor, RunPutAddress, FieldsBound, Balanced, CallOk, RowBound;
    var s' := NextSystem(w, s, AddAddress(t, row));
    if MayWrite(w, s, t, row) {
      var own := s.db.txns[t].own;
      StatementIsPrivate(w, s.db, InsertAddress(t, row));
      StatementEffect(w, s.db, InsertAddress(t, row));
      AddressEffect(w, s.db, t, s.db.nextAddress, row);
      AddressBalances(w.platform, own, own.addresses[s.db.nextAddress := row], None);
      OwnStepBalances(w, s, s', t);
    }
  }

  lemma ChangeAddressBalances(w: World, s: System, t: int, id: int, row: AddressRow)
    requires WritersOk(w, s) && BooksOk(w, s)
    ensures BooksOk(w, NextSystem(w, s, ChangeAddress(t, id, row)))
  {
    hide Inv, Next, RowFor, RunPutAddress, FieldsBound, Balanced, CallOk, RowBound;
    var s' := NextSystem(w, s, ChangeAddress(t, id, row));
    if MayWrite(w, s, t, row) && id in Visible(s.db, t).addresses {
      var own := s.db.txns[t].own;
      StatementIsPrivate(w, s.db, UpdateAddress(t, id, row));
      StatementEffect(w, s.db, UpdateAddress(t, id, row));
      AddressEffect(w, s.db, t, id, row);
      AddressBalances(w.platform, own, own.addresses[id := row], None);
      OwnStepBalances(w, s, s', t);
    }
  }

  lemma CloseBalances(w: World, s: System, t: int)
    requires WritersOk(w, s) && BooksOk(w, s)
    ensures BooksOk(w, NextSystem(w, s, Close(t)))
  {
    hide TablesOk, FieldsBound, PcOk, LocksCover, Compatible, Balanced;
    if PcOf(s, t).Idle? {
      var s' := NextSystem(w, s, Close(t));
      if t in s.db.txns && !s.db.txns[t].failed {
        assert TxnOk(w, s.db, s.db.txns[t]);
        CommitBalances(w.platform, s.db.committed, s.db.txns[t].own);
      }
      forall u | u in s'.db.txns ensures u != t && s'.db.txns[u] == s.db.txns[u] && PcOf(s', u) == PcOf(s, u) {
      }
    }
  }

  lemma StepBalances(w: World, s: System, step: DbCall)
    requires WritersOk(w, s) && BooksOk(w, s)
    ensures BooksOk(w, NextSystem(w, s, step))
  {
    hide WritersOk, Balanced;
    match step
    case Open(t) => assert Balanced(w.platform, EMPTY, None) by { EmptyBalances(w.platform); }
    case StartPlain(t, entity, logicalKey, record) => StartBalances(w, s, t, PlainCall(entity, logicalKey, record));
    case StartShared(t, args) => StartBalances(w, s, t, SharedCall(args));
    case ReadLast(t) =>
    case InsertLink(t) => InsertLinkBalances(w, s, t);
    case InsertShared(t) => InsertSharedBalances(w, s, t);
    case AddAddress(t, row) => AddAddressBalances(w, s, t, row);
    case ChangeAddress(t, id, row) => ChangeAddressBalances(w, s, t, id, row);
    case Close(t) => CloseBalances(w, s, t);
    case Drop(t) =>
  }

  lemma EmptyBalances(p: Platform)
    ensures Balanced(p, EMPTY, None)
  {
  }

  lemma {:induction false} RunBalances(w: World, steps: seq<DbCall>)
    ensures var s := RunSystem(w, START_SYSTEM, steps); WritersOk(w, s) && BooksOk(w, s)
  {
    hide WritersOk, Balanced;
    if steps == [] {
      StartWritersOk(w);
      EmptyBalances(w.platform);
    } else {
      hide BooksOk, NextSystem;
      var front := steps[..|steps| - 1];
      RunBalances(w, front);
      StepKeepsWriters(w, RunSystem(w, START_SYSTEM, front), steps[|steps| - 1]);
      StepBalances(w, RunSystem(w, START_SYSTEM, front), steps[|steps| - 1]);
    }
  }

  // What the books guarantee

  /** In every state that any interleaving of the procedures reaches, a committed record stands at exactly one place
      of the chains, in the chain of its own entity, and is the row that a call inserts for some record. */
  lemma EveryRecordIsChainedOnce(w: World, steps: seq<DbCall>, id: int) returns (place: int, record: Value)
    requires id in RunSystem(w, START_SYSTEM, steps).db.committed.canonical
    ensures var c := RunSystem(w, START_SYSTEM, steps).db.committed;
            && 0 <= place < |c.chain| && c.chain[place].entity == c.canonical[id].entity
            && (forall i :: 0 <= i < |c.chain| ==> (c.chain[i].canonicalId == id <==> i == place))
            && RowFor(w.platform, c.canonical[id].entity, c.canonical[id].logicalKey, record) == Ok(c.canonical[id])
  {
    hide RowFor, ChainsIntact, FieldsBound;
    RunBalances(w, steps);
    var c := RunSystem(w, START_SYSTEM, steps).db.committed;
    place := ThePlace(c.chain, id);
    assert HasRecord(w.platform, c.canonical[id]);
    var row := c.canonical[id];
    record :| RowFor(w.platform, row.entity, row.logicalKey, record) == Ok(row);
  }

  /** Both rows hold the bytes of a record, and of no two different ones. */
  ghost predicate OneRecord(p: Platform, x: CanonRow, y: CanonRow) {
    && HasRecord(p, x) && HasRecord(p, y)
    && forall r, s :: StandsFor(p, r, x) && StandsFor(p, s, y) ==> Same(r, s)
  }

  /** Tamper evidence between any two runs, down to the records: chains that end alike were written from equal
      records at equal places, unless the comparison returns a collision or a preimage. */
  lemma RunsTellRecords(w: World, one: seq<DbCall>, e: int, two: seq<DbCall>, f: int)
    requires Tip(ChainOf(RunSystem(w, START_SYSTEM, one).db.committed.chain, e))
             == Tip(ChainOf(RunSystem(w, START_SYSTEM, two).db.committed.chain, f))
    ensures var a := HistoryOf(RunSystem(w, START_SYSTEM, one).db.committed, e);
            var b := HistoryOf(RunSystem(w, START_SYSTEM, two).db.committed, f);
            && Tells(w.platform, a, b)
            && (Compare(a, b) == OneHistory ==>
                  && |a.rows| == |b.rows|
                  && forall i :: 0 <= i < |a.rows| ==> OneRecord(w.platform, RecordOf(a, i), RecordOf(b, i)))
  {
    hide WritersOk, Audited, StandsFor, Same, ChainOf, ShasPass, VerifyChain, Tells, RunSystem, Tip;
    var c, d := RunSystem(w, START_SYSTEM, one).db.committed, RunSystem(w, START_SYSTEM, two).db.committed;
    RunIsSealed(w, one, e);
    RunIsSealed(w, two, f);
    VerifiedTablesTell(w.platform, c, e, d, f);
    if Compare(HistoryOf(c, e), HistoryOf(d, f)) == OneHistory {
      SameLength(w.platform, HistoryOf(c, e), HistoryOf(d, f));
    }
  }

  lemma SameLength(p: Platform, a: History, b: History)
    requires Whole(a) && Whole(b) && Tells(p, a, b) && Compare(a, b) == OneHistory
    ensures |a.rows| == |b.rows|
  {
  }

  lemma RunIsSealed(w: World, steps: seq<DbCall>, entity: int)
    ensures var c := RunSystem(w, START_SYSTEM, steps).db.committed;
            && VerifyChain(w.platform, c, entity) == None && ShasPass(w.platform, HistoryOf(c, entity))
            && Audited(c, entity) == ChainOf(c.chain, entity)
            && (forall id :: id in c.canonical ==> HasRecord(w.platform, c.canonical[id]))
  {
    hide TablesOk, HasRecord, ShasPass, VerifyChain, Audited, ChainOf, FieldsBound;
    RunBalances(w, steps);
    OkTablesAreSealed(w, RunSystem(w, START_SYSTEM, steps).db.committed, entity);
  }
}
