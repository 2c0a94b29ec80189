/** A writer whom no other writer gets in the way of commits what one connection alone does, whoever else is at work. */
module Undisturbed {
  import opened Bytes
  import opened Results
  import opened Records
  import opened Tables
  import opened TableInvariant
  import opened Guards
  import opened Transactions
  import opened Waiting
  import opened Linkage
  import opened Session
  import opened Writers
  import opened Bookkeeping
  import opened Serial

  /** The writer `t` stands at `pc` with these uncommitted changes, and the rest of the database is as in `s`. */
  predicate At(s: System, s': System, t: int, own: Tables, pc: Pc) {
    && s'.db.committed == s.db.committed && t in s'.db.txns && s'.db.txns - {t} == s.db.txns - {t}
    && !s'.db.txns[t].failed && s'.db.txns[t].own == own && PcOf(s', t) == pc
  }

  /** No other open transaction holds the entity's lock, or has an uncommitted record with the key of this one. */
  predicate OutOfTheWay(s: State, t: int, row: CanonRow) {
    !KeyPending(s, t, row) && !LockTaken(s, t, row.entity)
  }

  lemma SameOthers(s: System, s': System, t: int, own: Tables, pc: Pc, row: CanonRow)
    requires At(s, s', t, own, pc) && OutOfTheWay(s.db, t, row)
    ensures OutOfTheWay(s'.db, t, row)
  {
    forall u | u in s'.db.txns && u != t ensures u in s.db.txns && s'.db.txns[u] == s.db.txns[u] {
      assert u in s'.db.txns - {t};
      assert (s'.db.txns - {t})[u] == s'.db.txns[u] && (s.db.txns - {t})[u] == s.db.txns[u];
    }
  }

  lemma Opens(w: World, s: System, t: int)
    requires t !in s.db.txns
    ensures var s' := NextSystem(w, s, Open(t));
            At(s, s', t, EMPTY, Idle) && s'.db.nextCanonical == s.db.nextCanonical
            && s'.db.nextAddress == s.db.nextAddress
  {
  }

  lemma Starts(w: World, s: System, s1: System, t: int, call: Call, row: CanonRow)
    requires At(s, s1, t, EMPTY, Idle) && WritersOk(w, s1) && OutOfTheWay(s.db, t, row)
    requires RowFor(w.platform, call.entity, call.logicalKey, call.record) == Ok(row)
    requires Recordable(w, s.db.committed, s1.db.nextCanonical, call.entity, call.logicalKey, call.record)
    ensures var s' := Start(w, s1, t, call);
            && At(s, s', t, EMPTY.(canonical := map[s1.db.nextCanonical := row]),
                  Pc.Recorded(call, s1.db.nextCanonical))
            && s'.db.nextCanonical == s1.db.nextCanonical + 1 && s'.db.nextAddress == s1.db.nextAddress
  {
    hide RowFor, RecordTaken, InsertCanonical, WritersOk, Inv;
    SameOthers(s, s1, t, EMPTY, Idle, row);
    RecordGoesIn(w, s.db.committed, s1.db.nextCanonical, call.entity, call.logicalKey, call.record);
    assert View(s.db.committed, EMPTY) == s.db.committed;
    InvOf(w, s1);
    RecordWaits(w, s1.db, t, row);
  }

  lemma InvOf(w: World, s: System)
    requires WritersOk(w, s)
    ensures Inv(w, s.db)
  {
  }

  lemma Reads(w: World, s: System, s2: System, t: int, own: Tables, call: Call, id: int)
    requires At(s, s2, t, own, Pc.Recorded(call, id))
    ensures var s' := NextSystem(w, s2, ReadLast(t));
            && At(s, s', t, own, LastRead(call, id, NextLink(ChainOf(Visible(s2.db, t).chain, call.entity))))
            && s'.db == s2.db
  {
    hide NextLink, ChainOf;
  }

  /** The place after the link: on to the address, or out of the procedure. */
  function AfterLink(call: Call, id: int): Pc {
    if call.shared.Some? then Linked(call, id) else Idle
  }

  lemma Links(w: World, s: System, s3: System, t: int, call: Call, id: int, row: CanonRow, pc: Pc)
    requires WritersOk(w, s3) && FitsInt(call.entity) && OutOfTheWay(s.db, t, row)
    requires RowFor(w.platform, call.entity, call.logicalKey, call.record) == Ok(row)
    requires At(s, s3, t, EMPTY.(canonical := map[id := row]), pc)
    requires pc == LastRead(call, id, NextLink(ChainOf(Visible(s3.db, t).chain, call.entity)))
    ensures var s' := NextSystem(w, s3, InsertLink(t));
            && At(s, s', t, Tables(map[id := row], [NextRow(w, s.db.committed.chain, id, row)], map[]),
                  AfterLink(call, id))
            && s'.db.nextAddress == s3.db.nextAddress
  {
    hide RowFor, RunAppendChain, ChainOf, WritersOk, TablesOk, NextLink, NextRow, LinkFor, OutOfTheWay, FitsInt;
    RowForDomain(w.platform, call.entity, call.logicalKey, call.record);
    VisibleIsOk(w, s3, t);
    SameOthers(s, s3, t, EMPTY.(canonical := map[id := row]), pc, row);
    LinkIsAppended(w, s3.db, t, id, row, pc.next);
  }

  lemma VisibleIsOk(w: World, s: System, t: int)
    requires WritersOk(w, s) && t in s.db.txns
    ensures TablesOk(w, Visible(s.db, t))
  {
    hide TablesOk;
    assert TxnOk(w, s.db, s.db.txns[t]);
  }

  lemma LinkIsAppended(w: World, db: State, t: int, id: int, row: CanonRow, next: (int, bytes))
    requires Active(db, t) && db.txns[t].own == EMPTY.(canonical := map[id := row]) && FitsInt(row.entity)
    requires OutOfTheWay(db, t, row)
    requires TablesOk(w, Visible(db, t)) && next == NextLink(ChainOf(Visible(db, t).chain, row.entity))
    ensures Visible(db, t).canonical[id] == row && Visible(db, t).chain == db.committed.chain
    ensures RunAppendChain(w, db, t, LinkFor(w.platform, row.entity, id, row.sha, next))
            == Done(Tables(map[id := row], [NextRow(w, db.committed.chain, id, row)], map[]))
  {
    hide InsertChain, ChainOf, TablesOk, NextLink, NextRow, LinkFor, KeyPending;
    var link := LinkFor(w.platform, row.entity, id, row.sha, next);
    assert Visible(db, t).chain == db.committed.chain;
    LinkGoesIn(w, Visible(db, t), id, next);
    EntityOfLink(w.platform, row.entity, id, row.sha, next);
    assert [] + [link] == [link];
  }

  lemma EntityOfLink(p: Platform, entity: int, id: int, sha: bytes, next: (int, bytes))
    ensures LinkFor(p, entity, id, sha, next).entity == entity
  {
  }

  lemma Closes(w: World, s: System, s4: System, t: int, own: Tables)
    requires At(s, s4, t, own, Idle) && t !in s.db.txns
    ensures var s' := NextSystem(w, s4, Close(t));
            s'.db.committed == View(s.db.committed, own) && s'.db.txns == s.db.txns
  {
    assert s.db.txns - {t} == s.db.txns;
  }

  /** The calls of a writer that makes one record and commits. */
  function OneCall(t: int, job: Job): seq<DbCall> {
    [Open(t), StartPlain(t, job.entity, job.logicalKey, job.record), ReadLast(t), InsertLink(t), Close(t)]
  }

  lemma RunPush(w: World, s: System, steps: seq<DbCall>, step: DbCall)
    ensures RunSystem(w, s, steps + [step]) == NextSystem(w, RunSystem(w, s, steps), step)
  {
    assert (steps + [step])[..|steps + [step]| - 1] == steps;
  }

  /** Progress. Whatever other transactions are open, in the midst of whatever they do, a writer commits exactly the
      record and the link that a connection alone would, as long as none of them holds its entity's lock or has an
      uncommitted record with the same key; and they are left as they were. */
  lemma UndisturbedIsSession(w: World, s: System, t: int, job: Job)
    requires WritersOk(w, s) && t !in s.db.txns && job.id == s.db.nextCanonical && Fits(w, s.db.committed, job)
    requires OutOfTheWay(s.db, t, RowFor(w.platform, job.entity, job.logicalKey, job.record).value)
    ensures var s' := RunSystem(w, s, OneCall(t, job));
            s'.db.committed == AfterJob(w, s.db.committed, job) && s'.db.txns == s.db.txns
  {
    hide WritersOk, NextSystem, RowFor, Recordable, ChainOf, NextRow, OutOfTheWay, At, NextLink;
    var call := PlainCall(job.entity, job.logicalKey, job.record);
    var row := RowOfJob(w, s.db.committed, job);
    var a, b := Open(t), StartPlain(t, job.entity, job.logicalKey, job.record);
    var s1 := NextSystem(w, s, a);
    var s2 := NextSystem(w, s1, b);
    var s3 := NextSystem(w, s2, ReadLast(t));
    var s4 := NextSystem(w, s3, InsertLink(t));
    FiveSteps(w, s, a, b, ReadLast(t), InsertLink(t), Close(t));
    Opens(w, s, t);
    StepKeepsWriters(w, s, a);
    StartStep(w, s1, b, call);
    Starts(w, s, s1, t, call, row);
    StepKeepsWriters(w, s1, b);
    Reads(w, s, s2, t, EMPTY.(canonical := map[job.id := row]), call, job.id);
    StepKeepsWriters(w, s2, ReadLast(t));
    Links(w, s, s3, t, call, job.id, row,
          LastRead(call, job.id, NextLink(ChainOf(Visible(s3.db, t).chain, call.entity))));
    Closes(w, s, s4, t, Tables(map[job.id := row], [NextRow(w, s.db.committed.chain, job.id, row)], map[]));
    SeenTogether(w, s.db.committed, job.id, row);
  }

  /** No other open transaction has written an address that the write of this row must wait for. */
  predicate AddressOutOfTheWay(s: State, t: int, id: int, row: AddressRow) {
    forall u :: u in s.txns && u != t ==> !AddressInTheWay(s, u, id, row)
  }

  lemma SameAddressWay(s: System, s': System, t: int, own: Tables, pc: Pc, id: int, row: AddressRow)
    requires At(s, s', t, own, pc) && AddressOutOfTheWay(s.db, t, id, row)
    ensures AddressOutOfTheWay(s'.db, t, id, row)
  {
    hide SameText, SameSharedContext;
    forall u | u in s'.db.txns && u != t ensures u in s.db.txns && s'.db.txns[u] == s.db.txns[u] {
      assert u in s'.db.txns - {t};
      assert (s'.db.txns - {t})[u] == s'.db.txns[u] && (s.db.txns - {t})[u] == s.db.txns[u];
    }
  }

  lemma Places(w: World, s: System, s4: System, t: int, a: SharedArgs, cid: int, row: CanonRow)
    requires RowFor(w.platform, a.entity, a.logicalKey, KeyDerivationRecord(a)) == Ok(row) && a.entity in w.entities
    requires At(s, s4, t, Tables(map[cid := row], [NextRow(w, s.db.committed.chain, cid, row)], map[]),
                Linked(SharedCall(a), cid))
    requires Placeable(w, s.db.committed, s4.db.nextAddress, a)
    requires AddressOutOfTheWay(s.db, t, s4.db.nextAddress, AddressFor(a, cid))
    ensures var s' := NextSystem(w, s4, InsertShared(t));
            At(s, s', t, Tables(map[cid := row], [NextRow(w, s.db.committed.chain, cid, row)],
                                map[s4.db.nextAddress := AddressFor(a, cid)]), Idle)
  {
    hide RowFor, KeyDerivationRecord, AddressFor, Placeable, NextRow, PutAddress, AddressPending, AddressInTheWay;
    var own := Tables(map[cid := row], [NextRow(w, s.db.committed.chain, cid, row)], map[]);
    AddressGoesIn(w, s.db.committed, cid, s4.db.nextAddress, a);
    SeenTogether(w, s.db.committed, cid, row);
    SameAddressWay(s, s4, t, own, Linked(SharedCall(a), cid), s4.db.nextAddress, AddressFor(a, cid));
    AddressWaits(w, s4.db, t, s4.db.nextAddress, AddressFor(a, cid));
  }

  /** The calls of a writer that records one shared address and commits. */
  function OneSharedCall(t: int, a: SharedArgs): seq<DbCall> {
    [Open(t), StartShared(t, a), ReadLast(t), InsertLink(t), InsertShared(t), Close(t)]
  }

  /** The same for a shared address: record, link and address row are committed together. */
  lemma UndisturbedSharedIsSession(w: World, s: System, t: int, a: SharedArgs)
    requires WritersOk(w, s) && t !in s.db.txns
    requires Recordable(w, s.db.committed, s.db.nextCanonical, a.entity, a.logicalKey, KeyDerivationRecord(a))
    requires Placeable(w, s.db.committed, s.db.nextAddress, a)
    requires OutOfTheWay(s.db, t, RowFor(w.platform, a.entity, a.logicalKey, KeyDerivationRecord(a)).value)
    requires AddressOutOfTheWay(s.db, t, s.db.nextAddress, AddressFor(a, s.db.nextCanonical))
    ensures var s' := RunSystem(w, s, OneSharedCall(t, a));
            && s'.db.committed == WithShared(w, s.db.committed, s.db.nextCanonical, s.db.nextAddress, a)
            && s'.db.txns == s.db.txns
  {
    hide WritersOk, NextSystem, RowFor, ChainOf, NextRow, OutOfTheWay, At, NextLink, Placeable, AddressOutOfTheWay;
    hide KeyDerivationRecord, AddressFor, RecordTaken;
    var cid, aid, call := s.db.nextCanonical, s.db.nextAddress, SharedCall(a);
    var row := RowFor(w.platform, a.entity, a.logicalKey, KeyDerivationRecord(a)).value;
    var link := NextRow(w, s.db.committed.chain, cid, row);
    var s1 := NextSystem(w, s, Open(t));
    var s2 := NextSystem(w, s1, StartShared(t, a));
    var s3 := NextSystem(w, s2, ReadLast(t));
    var s4 := NextSystem(w, s3, InsertLink(t));
    var s5 := NextSystem(w, s4, InsertShared(t));
    var five := [Open(t), StartShared(t, a), ReadLast(t), InsertLink(t), InsertShared(t)];
    FiveSteps(w, s, Open(t), StartShared(t, a), ReadLast(t), InsertLink(t), InsertShared(t));
    RunPush(w, s, five, Close(t));
    assert five + [Close(t)] == OneSharedCall(t, a);
    Opens(w, s, t);
    StepKeepsWriters(w, s, Open(t));
    StartStep(w, s1, StartShared(t, a), call);
    Starts(w, s, s1, t, call, row);
    StepKeepsWriters(w, s1, StartShared(t, a));
    Reads(w, s, s2, t, EMPTY.(canonical := map[cid := row]), call, cid);
    StepKeepsWriters(w, s2, ReadLast(t));
    Links(w, s, s3, t, call, cid, row, LastRead(call, cid, NextLink(ChainOf(Visible(s3.db, t).chain, a.entity))));
    Places(w, s, s4, t, a, cid, row);
    Closes(w, s, s5, t, Tables(map[cid := row], [link], map[aid := AddressFor(a, cid)]));
    SharedSeenTogether(w, s.db.committed, cid, aid, a, row);
  }

  lemma SharedSeenTogether(w: World, c: Tables, cid: int, aid: int, a: SharedArgs, row: CanonRow)
    requires RowFor(w.platform, a.entity, a.logicalKey, KeyDerivationRecord(a)) == Ok(row)
    ensures View(c, Tables(map[cid := row], [NextRow(w, c.chain, cid, row)], map[aid := AddressFor(a, cid)]))
            == WithShared(w, c, cid, aid, a)
  {
    hide RowFor, KeyDerivationRecord, AddressFor, NextRow;
    assert c.canonical + map[cid := row] == c.canonical[cid := row];
    assert c.addresses + map[aid := AddressFor(a, cid)] == c.addresses[aid := AddressFor(a, cid)];
  }

  lemma RowOfJob(w: World, t: Tables, job: Job) returns (row: CanonRow)
    requires Fits(w, t, job)
    ensures RowFor(w.platform, job.entity, job.logicalKey, job.record) == Ok(row) && FitsInt(job.entity)
    ensures AfterJob(w, t, job) == WithRecord(w, t, job.id, row)
  {
    row := RowFor(w.platform, job.entity, job.logicalKey, job.record).value;
  }

  lemma SeenTogether(w: World, c: Tables, id: int, row: CanonRow)
    ensures View(c, Tables(map[id := row], [NextRow(w, c.chain, id, row)], map[])) == WithRecord(w, c, id, row)
  {
    assert c.canonical + map[id := row] == c.canonical[id := row] && c.addresses + map[] == c.addresses;
  }

  lemma FiveSteps(w: World, s: System, a: DbCall, b: DbCall, c: DbCall, d: DbCall, e: DbCall)
    ensures RunSystem(w, s, [a, b, c, d, e])
            == NextSystem(w, NextSystem(w, NextSystem(w, NextSystem(w, NextSystem(w, s, a), b), c), d), e)
  {
    hide NextSystem;
    RunPush(w, s, [], a);
    RunPush(w, s, [a], b);
    RunPush(w, s, [a, b], c);
    RunPush(w, s, [a, b, c], d);
    RunPush(w, s, [a, b, c, d], e);
    assert [] + [a] == [a] && [a] + [b] == [a, b] && [a, b] + [c] == [a, b, c];
    assert [a, b, c] + [d] == [a, b, c, d] && [a, b, c, d] + [e] == [a, b, c, d, e];
  }

  // Direct writes, exceptions and ends

  /** Between procedures a writer may write any address row that shows its record: nothing in the way, it goes in. */
  lemma DirectWrites(w: World, s: System, t: int, id: int, row: AddressRow)
    requires Active(s.db, t) && PcOf(s, t).Idle? && RowBound(w.platform, Visible(s.db, t).canonical, row)
    requires AddressOutOfTheWay(s.db, t, id, row) && PutAddress(w, Visible(s.db, t), id, row).Ok?
    ensures var own, written := s.db.txns[t].own, s.db.txns[t].own.(addresses := s.db.txns[t].own.addresses[id := row]);
            && (id == s.db.nextAddress ==> At(s, NextSystem(w, s, AddAddress(t, row)), t, written, Idle))
            && (id in Visible(s.db, t).addresses ==>
                  At(s, NextSystem(w, s, ChangeAddress(t, id, row)), t, written, Idle))
  {
    hide RowBound, PutAddress, AddressPending, AddressInTheWay;
    AddressWaits(w, s.db, t, id, row);
  }

  /** A writer whose statement is refused has left its procedure with its transaction failed; one whose statement
      changed no row, and was not refused, is where it was and may repeat the call. */
  lemma OutcomeMovesTheWriter(w: World, s: System, step: DbCall)
    requires WritersOk(w, s) && Active(s.db, step.t) && !step.ReadLast? && !step.Close? && !step.Drop?
    ensures var s', t := NextSystem(w, s, step), step.t;
            && t in s'.db.txns
            && (s'.db.txns[t].failed ==> PcOf(s', t).Idle? && s'.db.txns[t].own == s.db.txns[t].own)
            && (!s'.db.txns[t].failed && s'.db.txns[t].own == s.db.txns[t].own && !PcOf(s', t).Idle? ==>
                  PcOf(s', t) == PcOf(s, t))
  {
    hide Inv, RowFor, RunInsertRecord, RunAppendChain, RunPutAddress, NextLink, AddressFor;
    hide KeyDerivationRecord, FieldsBound, PcOk, LinkOf, RowBound;
    var t, pc := step.t, PcOf(s, step.t);
    match step
    case StartPlain(_, entity, logicalKey, record) => StartMoves(w, s, t, PlainCall(entity, logicalKey, record));
    case StartShared(_, args) => StartMoves(w, s, t, SharedCall(args));
    case InsertLink(_) =>
      if pc.LastRead? && pc.canonicalId in Visible(s.db, t).canonical {
        var row, own := LinkOf(w, s, t), s.db.txns[t].own;
        LinkEffect(w, s.db, t, row);
        assert RunAppendChain(w, s.db, t, row).Done? ==> |RunAppendChain(w, s.db, t, row).own.chain| == |own.chain| + 1;
      }
    case _ =>
  }

  lemma StartMoves(w: World, s: System, t: int, call: Call)
    requires WritersOk(w, s) && Active(s.db, t)
    ensures var s' := Start(w, s, t, call);
            && t in s'.db.txns
            && (s'.db.txns[t].failed ==> PcOf(s', t).Idle? && s'.db.txns[t].own == s.db.txns[t].own)
            && (!s'.db.txns[t].failed && s'.db.txns[t].own == s.db.txns[t].own ==> PcOf(s', t) == PcOf(s, t))
  {
    hide Inv, RowFor, RunInsertRecord, FieldsBound, PcOk;
    var row := RowFor(w.platform, call.entity, call.logicalKey, call.record);
    if row.Ok? {
      var own := s.db.txns[t].own;
      RecordEffect(w, s.db, t, row.value);
      assert s.db.nextCanonical in own.canonical[s.db.nextCanonical := row.value];
    }
  }

  /** A writer's end: a rollback, or a COMMIT after a refusal, leaves the committed tables and the other writers alone;
      in the midst of a procedure there is no COMMIT. */
  lemma WriterEnds(w: World, s: System, t: int)
    requires t in s.db.txns
    ensures var s' := NextSystem(w, s, Drop(t)); s'.db.committed == s.db.committed && s'.db.txns == s.db.txns - {t}
    ensures PcOf(s, t).Idle? && s.db.txns[t].failed ==>
              var s' := NextSystem(w, s, Close(t));
              s'.db.committed == s.db.committed && s'.db.txns == s.db.txns - {t}
    ensures !PcOf(s, t).Idle? ==> NextSystem(w, s, Close(t)) == s
  {
  }
}
