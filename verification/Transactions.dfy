/** Any number of concurrent transactions over the tables, under READ COMMITTED and the per-entity lock. */
module Transactions {
  import opened Results
  import opened Tables
  import opened Verifier
  import opened Integrity
  import opened TableInvariant

  /** An open transaction: its uncommitted rows, the chains it has locked, and whether a statement was refused. */
  datatype Txn = Txn(own: Tables, locks: set<int>, failed: bool)

  /** The committed tables, the open transactions, and the identity sequences, which never hand out an id twice. */
  datatype State = State(committed: Tables, txns: map<int, Txn>, nextCanonical: int, nextAddress: int)

  const START := State(EMPTY, map[], 1, 1)

  datatype Step =
    | Begin(t: int)
    | InsertRecord(t: int, record: CanonRow)
    | AppendChain(t: int, link: ChainRow)
    | ChangeEvidence(t: int)
    | InsertAddress(t: int, address: AddressRow)
    | UpdateAddress(t: int, id: int, address: AddressRow)
    | Commit(t: int)
    | Abort(t: int)

  /** A statement takes effect, raises, or waits for another transaction. */
  datatype Outcome = Done(own: Tables) | Refused(fault: Fault) | Waits

  function Visible(s: State, t: int): Tables
    requires t in s.txns
  {
    View(s.committed, s.txns[t].own)
  }

  // When a statement must wait

  /** Another open transaction holds the lock on the entity's chain. */
  predicate LockHeldElsewhere(s: State, t: int, entity: int) {
    exists u :: u in s.txns && u != t && entity in s.txns[u].locks
  }

  /** Another open transaction has inserted a record with this key and may yet commit it. */
  predicate RecordPending(s: State, t: int, row: CanonRow) {
    exists u :: u in s.txns && u != t && !CanonFree(s.txns[u].own.canonical, s.nextCanonical, row)
  }

  /** Another open transaction has written this address, or one with a key of `row`. */
  predicate AddressPending(s: State, t: int, id: int, row: AddressRow) {
    exists u :: u in s.txns && u != t && (
      id in s.txns[u].own.addresses
      || !TextFree(s.txns[u].own.addresses, id, row)
      || !ContextFree(s.txns[u].own.addresses, id, row)
      || exists k :: k in s.txns[u].own.addresses && k in s.committed.addresses && k != id &&
           (TextIndex(s.committed.addresses[k]) == TextIndex(row)
            || (ContextIndex(row).Some? && ContextIndex(s.committed.addresses[k]) == ContextIndex(row))))
  }

  // The statements, run by an open transaction that has not failed

  function RunInsertRecord(w: World, s: State, t: int, row: CanonRow): Outcome
    requires t in s.txns
  {
    if RecordPending(s, t, row) then Waits
    else
      match InsertCanonical(w, Visible(s, t), s.nextCanonical, row)
      case Err(fault) => Refused(fault)
      case Ok(_) => var own := s.txns[t].own; Done(own.(canonical := own.canonical[s.nextCanonical := row]))
  }

  function RunAppendChain(w: World, s: State, t: int, row: ChainRow): Outcome
    requires t in s.txns
  {
    if FitsInt(row.entity) && LockHeldElsewhere(s, t, row.entity) then Waits
    else
      match InsertChain(w, Visible(s, t), row)
      case Err(fault) => Refused(fault)
      case Ok(_) => var own := s.txns[t].own; Done(own.(chain := own.chain + [row]))
  }

  function RunPutAddress(w: World, s: State, t: int, id: int, row: AddressRow): Outcome
    requires t in s.txns
  {
    if AddressPending(s, t, id, row) then Waits
    else
      match PutAddress(w, Visible(s, t), id, row)
      case Err(fault) => Refused(fault)
      case Ok(_) => var own := s.txns[t].own; Done(own.(addresses := own.addresses[id := row]))
  }

  /** The effect of a statement's outcome on the state; a refusal leaves the transaction failed. */
  function After(s: State, t: int, outcome: Outcome): State
    requires t in s.txns
  {
    match outcome
    case Waits => s
    case Refused(_) => s.(txns := s.txns[t := s.txns[t].(failed := true)])
    case Done(own) => s.(txns := s.txns[t := s.txns[t].(own := own)])
  }

  /** The trigger takes its lock first and holds it to the end of the transaction, even when it then raises. */
  function WithLock(s: State, t: int, entity: int): State
    requires t in s.txns
  {
    if FitsInt(entity) then s.(txns := s.txns[t := s.txns[t].(locks := s.txns[t].locks + {entity})]) else s
  }

  predicate Active(s: State, t: int) {
    t in s.txns && !s.txns[t].failed
  }

  /** One step of one transaction. A step that cannot be taken, or must wait, changes no row. */
  function Next(w: World, s: State, step: Step): State {
    match step
    case Begin(t) =>
      if t in s.txns then s else s.(txns := s.txns[t := Txn(EMPTY, {}, false)])
    case InsertRecord(t, row) =>
      if !Active(s, t) then s
      else
        var outcome := RunInsertRecord(w, s, t, row);
        After(s, t, outcome).(nextCanonical := s.nextCanonical + 1)
    case AppendChain(t, row) =>
      if !Active(s, t) then s
      else
        var outcome := RunAppendChain(w, s, t, row);
        if outcome.Waits? then s else After(WithLock(s, t, row.entity), t, outcome)
    case ChangeEvidence(t) =>
      if !Active(s, t) then s else s.(txns := s.txns[t := s.txns[t].(failed := true)])
    case InsertAddress(t, row) =>
      if !Active(s, t) then s
      else
        var outcome := RunPutAddress(w, s, t, s.nextAddress, row);
        After(s, t, outcome).(nextAddress := s.nextAddress + 1)
    case UpdateAddress(t, id, row) =>
      if !Active(s, t) || id !in Visible(s, t).addresses then s
      else After(s, t, RunPutAddress(w, s, t, id, row))
    case Commit(t) =>
      if t !in s.txns then s
      else if s.txns[t].failed then s.(txns := s.txns - {t})
      else s.(committed := Visible(s, t), txns := s.txns - {t})
    case Abort(t) =>
      s.(txns := s.txns - {t})
  }

  function Run(w: World, s: State, steps: seq<Step>): State {
    if steps == [] then s else Next(w, Run(w, s, steps[..|steps| - 1]), steps[|steps| - 1])
  }

  // The invariant

  /** A transaction with uncommitted chain rows of an entity holds the entity's lock. */
  ghost predicate LocksCover(txn: Txn) {
    forall entity :: ChainOf(txn.own.chain, entity) != [] ==> entity in txn.locks
  }

  /** Ids come from the sequences. */
  predicate IdsBelow(t: Tables, nextCanonical: int, nextAddress: int) {
    && (forall id :: id in t.canonical ==> id < nextCanonical)
    && (forall id :: id in t.addresses ==> id < nextAddress)
  }

  ghost predicate TxnOk(w: World, s: State, txn: Txn) {
    && TablesOk(w, View(s.committed, txn.own))
    && txn.own.canonical.Keys !! s.committed.canonical.Keys
    && IdsBelow(txn.own, s.nextCanonical, s.nextAddress)
    && LocksCover(txn)
  }

  ghost predicate PairOk(a: Txn, b: Txn) {
    Compatible(a.own, b.own) && a.locks !! b.locks
  }

  ghost predicate Inv(w: World, s: State) {
    && TablesOk(w, s.committed)
    && IdsBelow(s.committed, s.nextCanonical, s.nextAddress)
    && (forall t :: t in s.txns ==> TxnOk(w, s, s.txns[t]))
    && (forall t, u :: t in s.txns && u in s.txns && t != u ==> PairOk(s.txns[t], s.txns[u]))
  }

  lemma StartInv(w: World)
    ensures Inv(w, START)
  {
    EmptyOk(w);
  }

  lemma CompatibleSymmetric(a: Tables, b: Tables)
    requires Compatible(a, b)
    ensures Compatible(b, a)
  {
  }

  /** Replacing one transaction keeps the invariant when the new one fits the committed tables and the others. */
  lemma ReplaceTxn(w: World, s: State, t: int, txn: Txn, nextCanonical: int, nextAddress: int)
    requires Inv(w, s) && nextCanonical >= s.nextCanonical && nextAddress >= s.nextAddress
    requires TxnOk(w, s.(nextCanonical := nextCanonical, nextAddress := nextAddress), txn)
    requires forall u :: u in s.txns && u != t ==> PairOk(txn, s.txns[u])
    ensures Inv(w, s.(txns := s.txns[t := txn], nextCanonical := nextCanonical, nextAddress := nextAddress))
  {
    hide TablesOk, Compatible, LocksCover;
    var s' := s.(txns := s.txns[t := txn], nextCanonical := nextCanonical, nextAddress := nextAddress);
    forall a, b | a in s'.txns && b in s'.txns && a != b ensures PairOk(s'.txns[a], s'.txns[b]) {
      if b == t {
        CompatibleSymmetric(txn.own, s.txns[a].own);
      }
    }
    forall u | u in s'.txns ensures TxnOk(w, s', s'.txns[u]) {
      if u != t {
        assert TxnOk(w, s, s.txns[u]);
      }
    }
  }

  lemma BeginKeeps(w: World, s: State, t: int)
    requires Inv(w, s) && t !in s.txns
    ensures Inv(w, Next(w, s, Begin(t)))
  {
    hide TablesOk;
    var txn := Txn(EMPTY, {}, false);
    assert View(s.committed, EMPTY) == s.committed;
    ReplaceTxn(w, s, t, txn, s.nextCanonical, s.nextAddress);
  }

  lemma FailKeeps(w: World, s: State, t: int, nextCanonical: int, nextAddress: int)
    requires Inv(w, s) && t in s.txns && nextCanonical >= s.nextCanonical && nextAddress >= s.nextAddress
    ensures Inv(w, s.(txns := s.txns[t := s.txns[t].(failed := true)],
                      nextCanonical := nextCanonical, nextAddress := nextAddress))
    ensures Inv(w, s.(nextCanonical := nextCanonical, nextAddress := nextAddress))
  {
    hide TablesOk, Compatible;
    var txn := s.txns[t];
    ReplaceTxn(w, s, t, txn.(failed := true), nextCanonical, nextAddress);
    ReplaceTxn(w, s, t, txn, nextCanonical, nextAddress);
    assert s.txns[t := txn] == s.txns;
  }

  lemma InsertRecordKeeps(w: World, s: State, t: int, row: CanonRow)
    requires Inv(w, s) && Active(s, t)
    ensures Inv(w, Next(w, s, InsertRecord(t, row)))
  {
    hide TablesOk, Compatible, InsertCanonical;
    var outcome, id, txn := RunInsertRecord(w, s, t, row), s.nextCanonical, s.txns[t];
    if outcome.Done? {
      var before, own := Visible(s, t), outcome.own;
      InsertCanonicalKeeps(w, before, id, row);
      InsertedRecordIsVisible(w, s.committed, txn.own, id, row);
      forall u | u in s.txns && u != t ensures PairOk(txn.(own := own), s.txns[u]) {
        assert CanonFree(s.txns[u].own.canonical, id, row);
        RecordCompatible(txn.own, s.txns[u].own, id, row);
      }
      ReplaceTxn(w, s, t, txn.(own := own), id + 1, s.nextAddress);
    } else {
      FailKeeps(w, s, t, id + 1, s.nextAddress);
    }
  }

  lemma InsertedRecordIsVisible(w: World, committed: Tables, own: Tables, id: int, row: CanonRow)
    requires InsertCanonical(w, View(committed, own), id, row).Ok?
    ensures InsertCanonical(w, View(committed, own), id, row)
            == Ok(View(committed, own.(canonical := own.canonical[id := row])))
  {
    hide CanonFree, Storable;
    assert committed.canonical + own.canonical[id := row] == (committed.canonical + own.canonical)[id := row];
  }

  lemma RecordCompatible(a: Tables, b: Tables, id: int, row: CanonRow)
    requires Compatible(a, b) && id !in b.canonical && CanonFree(b.canonical, id, row)
    ensures Compatible(a.(canonical := a.canonical[id := row]), b)
  {
  }

  lemma AppendChainKeeps(w: World, s: State, t: int, row: ChainRow)
    requires Inv(w, s) && Active(s, t)
    ensures Inv(w, Next(w, s, AppendChain(t, row)))
  {
    hide TablesOk, Compatible, InsertChain;
    var outcome, txn := RunAppendChain(w, s, t, row), s.txns[t];
    if !outcome.Waits? {
      var locks := if FitsInt(row.entity) then txn.locks + {row.entity} else txn.locks;
      forall u | u in s.txns && u != t ensures locks !! s.txns[u].locks {
        assert PairOk(txn, s.txns[u]);
      }
      if outcome.Done? {
        InsertChainKeeps(w, Visible(s, t), row);
        AppendedRowIsVisible(w, s.committed, txn.own, row);
        var own := outcome.own;
        LockCoversAppend(txn, row);
        forall u | u in s.txns && u != t ensures PairOk(txn.(own := own, locks := locks), s.txns[u]) {
          assert PairOk(txn, s.txns[u]) && LocksCover(s.txns[u]);
          ChainCompatible(txn.own, s.txns[u], row);
        }
        var txn' := txn.(own := own, locks := locks);
        ReplaceTxn(w, s, t, txn', s.nextCanonical, s.nextAddress);
        assert Next(w, s, AppendChain(t, row)) == s.(txns := s.txns[t := txn']);
      } else {
        ReplaceTxn(w, s, t, txn.(locks := locks, failed := true), s.nextCanonical, s.nextAddress);
      }
    }
  }

  lemma AppendedRowIsVisible(w: World, committed: Tables, own: Tables, row: ChainRow)
    requires InsertChain(w, View(committed, own), row).Ok?
    ensures FitsInt(row.entity)
    ensures InsertChain(w, View(committed, own), row) == Ok(View(committed, own.(chain := own.chain + [row])))
  {
    assert committed.chain + (own.chain + [row]) == (committed.chain + own.chain) + [row];
  }

  lemma LockCoversAppend(txn: Txn, row: ChainRow)
    requires LocksCover(txn)
    ensures LocksCover(txn.(own := txn.own.(chain := txn.own.chain + [row]), locks := txn.locks + {row.entity}))
  {
    hide ChainOf;
    forall entity | ChainOf(txn.own.chain + [row], entity) != [] ensures entity in txn.locks + {row.entity} {
      ChainOfAppend(txn.own.chain, row, entity);
    }
  }

  lemma ChainCompatible(a: Tables, u: Txn, row: ChainRow)
    requires Compatible(a, u.own) && LocksCover(u) && row.entity !in u.locks
    ensures Compatible(a.(chain := a.chain + [row]), u.own)
  {
    hide ChainOf;
    forall entity ensures ChainOf(a.chain + [row], entity) == [] || ChainOf(u.own.chain, entity) == [] {
      ChainOfAppend(a.chain, row, entity);
    }
  }

  lemma PutAddressInv(w: World, s: State, t: int, id: int, row: AddressRow, nextAddress: int)
    requires Inv(w, s) && Active(s, t) && s.nextAddress <= nextAddress && id < nextAddress
    ensures Inv(w, After(s, t, RunPutAddress(w, s, t, id, row)).(nextAddress := nextAddress))
  {
    hide TablesOk, Compatible, PutAddress;
    var outcome, txn := RunPutAddress(w, s, t, id, row), s.txns[t];
    if outcome.Done? {
      PutAddressKeeps(w, Visible(s, t), id, row);
      PutAddressIsVisible(w, s.committed, txn.own, id, row);
      var own := outcome.own;
      forall u | u in s.txns && u != t ensures PairOk(txn.(own := own), s.txns[u]) {
        assert TextFree(s.txns[u].own.addresses, id, row) && ContextFree(s.txns[u].own.addresses, id, row);
        assert PairOk(txn, s.txns[u]);
        AddressCompatible(txn.own, s.txns[u].own, id, row);
      }
      ReplaceTxn(w, s, t, txn.(own := own), s.nextCanonical, nextAddress);
    } else {
      FailKeeps(w, s, t, s.nextCanonical, nextAddress);
    }
  }

  lemma PutAddressIsVisible(w: World, committed: Tables, own: Tables, id: int, row: AddressRow)
    requires PutAddress(w, View(committed, own), id, row).Ok?
    ensures PutAddress(w, View(committed, own), id, row)
            == Ok(View(committed, own.(addresses := own.addresses[id := row])))
  {
    hide CheckAddress;
    assert committed.addresses + own.addresses[id := row] == (committed.addresses + own.addresses)[id := row];
  }

  lemma AddressCompatible(a: Tables, b: Tables, id: int, row: AddressRow)
    requires Compatible(a, b) && id !in b.addresses
    requires TextFree(b.addresses, id, row) && ContextFree(b.addresses, id, row)
    ensures Compatible(a.(addresses := a.addresses[id := row]), b)
  {
  }

  lemma CommitKeeps(w: World, s: State, t: int)
    requires Inv(w, s) && t in s.txns
    ensures Inv(w, Next(w, s, Commit(t)))
  {
    hide TablesOk, Compatible, LocksCover;
    var s' := Next(w, s, Commit(t));
    var txn := s.txns[t];
    assert TxnOk(w, s, txn);
    if !txn.failed {
      forall u | u in s'.txns ensures TxnOk(w, s', s'.txns[u]) {
        assert TxnOk(w, s, s.txns[u]) && PairOk(txn, s.txns[u]);
        KeysApart(txn.own, s.txns[u].own);
        MergeOk(w, s.committed, txn.own, s.txns[u].own);
      }
    } else {
      forall u | u in s'.txns ensures TxnOk(w, s', s'.txns[u]) {
        assert TxnOk(w, s, s.txns[u]);
      }
    }
  }

  lemma KeysApart(a: Tables, b: Tables)
    requires Compatible(a, b)
    ensures a.canonical.Keys !! b.canonical.Keys
  {
  }

  lemma AbortKeeps(w: World, s: State, t: int)
    requires Inv(w, s)
    ensures Inv(w, Next(w, s, Abort(t)))
  {
    hide TablesOk, Compatible, LocksCover;
    forall u | u in (s.txns - {t}) ensures TxnOk(w, Next(w, s, Abort(t)), s.txns[u]) {
      assert TxnOk(w, s, s.txns[u]);
    }
  }

  lemma StepKeepsInv(w: World, s: State, step: Step)
    requires Inv(w, s)
    ensures Inv(w, Next(w, s, step))
  {
    hide Inv, RunInsertRecord, RunAppendChain, RunPutAddress;
    match step
    case Begin(t) =>
      if t !in s.txns {
        BeginKeeps(w, s, t);
      }
    case InsertRecord(t, row) =>
      if Active(s, t) {
        InsertRecordKeeps(w, s, t, row);
      }
    case AppendChain(t, row) =>
      if Active(s, t) {
        AppendChainKeeps(w, s, t, row);
      }
    case ChangeEvidence(t) =>
      if Active(s, t) {
        FailKeeps(w, s, t, s.nextCanonical, s.nextAddress);
      }
    case InsertAddress(t, row) =>
      if Active(s, t) {
        PutAddressInv(w, s, t, s.nextAddress, row, s.nextAddress + 1);
      }
    case UpdateAddress(t, id, row) =>
      if Active(s, t) && id in Visible(s, t).addresses {
        VisibleIdsBelow(w, s, t, id);
        PutAddressInv(w, s, t, id, row, s.nextAddress);
      }
    case Commit(t) =>
      if t in s.txns {
        CommitKeeps(w, s, t);
      }
    case Abort(t) => AbortKeeps(w, s, t);
  }

  lemma VisibleIdsBelow(w: World, s: State, t: int, id: int)
    requires Inv(w, s) && t in s.txns && id in Visible(s, t).addresses
    ensures id < s.nextAddress
  {
    hide TablesOk;
    assert TxnOk(w, s, s.txns[t]);
  }

  lemma {:induction false} RunKeepsInv(w: World, s: State, steps: seq<Step>)
    requires Inv(w, s)
    ensures Inv(w, Run(w, s, steps))
  {
    hide Inv, Next;
    if steps != [] {
      RunKeepsInv(w, s, steps[..|steps| - 1]);
      StepKeepsInv(w, Run(w, s, steps[..|steps| - 1]), steps[|steps| - 1]);
    }
  }

  // What every run guarantees

  /** The committed rows of an entity form one gap-free, correctly hashed chain that verifies; its uncommitted rows
      belong to the one transaction that holds its lock, and continue the committed chain. */
  ghost predicate ChainSafe(w: World, s: State, entity: int) {
    && Intact(w.platform, s.committed.canonical, ChainOf(s.committed.chain, entity))
    && VerifyChain(w.platform, s.committed, entity) == None
    && (forall t :: t in s.txns && ChainOf(s.txns[t].own.chain, entity) != [] ==>
          entity in s.txns[t].locks && !LockHeldElsewhere(s, t, entity))
    && (forall t :: t in s.txns ==>
          Intact(w.platform, Visible(s, t).canonical,
                 ChainOf(s.committed.chain, entity) + ChainOf(s.txns[t].own.chain, entity)))
  }

  /** Concurrent safety, after any interleaving of any number of transactions. */
  lemma ChainsAreSafe(w: World, steps: seq<Step>, entity: int)
    ensures ChainSafe(w, Run(w, START, steps), entity)
  {
    hide ChainOf, Intact, VerifyChain, Unique;
    StartInv(w);
    RunKeepsInv(w, START, steps);
    var s := Run(w, START, steps);
    IntactVerifies(w.platform, s.committed, entity);
    forall t | t in s.txns
      ensures Intact(w.platform, Visible(s, t).canonical,
                     ChainOf(s.committed.chain, entity) + ChainOf(s.txns[t].own.chain, entity))
    {
      ChainOfConcat(s.committed.chain, s.txns[t].own.chain, entity);
    }
    forall t | t in s.txns && ChainOf(s.txns[t].own.chain, entity) != []
      ensures entity in s.txns[t].locks && !LockHeldElsewhere(s, t, entity)
    {
      assert TxnOk(w, s, s.txns[t]);
    }
  }

  /** One-time addresses and their binding, after any interleaving of inserts and updates: every SHARED_ECDH row is
      complete and bound to a chained KEY_DERIVATION record of its entity, and no two share a context. */
  lemma AddressesAreSafe(w: World, steps: seq<Step>)
    ensures var c := Run(w, START, steps).committed;
            && (forall id :: id in c.addresses ==> AddressOk(c, c.addresses[id]))
            && (forall i, j | i in c.addresses && j in c.addresses && i != j
                  && c.addresses[i].derivation == SHARED_ECDH && c.addresses[j].derivation == SHARED_ECDH ::
                  ContextOf(c.addresses[i]) != ContextOf(c.addresses[j]))
  {
    hide TablesOk;
    StartInv(w);
    RunKeepsInv(w, START, steps);
    var c := Run(w, START, steps).committed;
    forall i, j | i in c.addresses && j in c.addresses && i != j
      && c.addresses[i].derivation == SHARED_ECDH && c.addresses[j].derivation == SHARED_ECDH
      ensures ContextOf(c.addresses[i]) != ContextOf(c.addresses[j])
    {
      OneTimeAddresses(w, c, i, j);
    }
    forall id | id in c.addresses ensures AddressOk(c, c.addresses[id]) {
      AddressIsOk(w, c, id);
    }
  }

  lemma AddressIsOk(w: World, t: Tables, id: int)
    requires TablesOk(w, t) && id in t.addresses
    ensures AddressOk(t, t.addresses[id])
  {
  }

  /** An auditor's view: whatever further steps any transactions take, each entity's committed chain at an earlier
      moment is a beginning of its chain at a later one, over the very same records. */
  lemma {:induction false} RunOnlyAddsEvidence(w: World, s: State, steps: seq<Step>, entity: int)
    requires Inv(w, s)
    ensures var c, c' := s.committed, Run(w, s, steps).committed;
            && ChainOf(c.chain, entity) <= ChainOf(c'.chain, entity) && c.chain <= c'.chain
            && (forall id :: id in c.canonical ==> id in c'.canonical && c'.canonical[id] == c.canonical[id])
  {
    hide Inv, Next, ChainOf;
    if steps != [] {
      var front := steps[..|steps| - 1];
      RunOnlyAddsEvidence(w, s, front, entity);
      RunKeepsInv(w, s, front);
      StepOnlyAddsEvidence(w, Run(w, s, front), steps[|steps| - 1]);
    }
    var now, later := s.committed.chain, Run(w, s, steps).committed.chain;
    assert later == now + later[|now|..];
    ChainOfConcat(now, later[|now|..], entity);
  }

  /** The committed evidence is append-only: a step keeps every record, and only adds rows at the end of the chain. */
  lemma StepOnlyAddsEvidence(w: World, s: State, step: Step)
    requires Inv(w, s)
    ensures var c, c' := s.committed, Next(w, s, step).committed;
            && c.chain <= c'.chain
            && (forall id :: id in c.canonical ==> id in c'.canonical && c'.canonical[id] == c.canonical[id])
  {
    hide TablesOk, RunInsertRecord, RunAppendChain, RunPutAddress;
    if step.Commit? && step.t in s.txns {
      assert TxnOk(w, s, s.txns[step.t]);
    }
  }

  /** A statement touches no committed row and no other transaction. */
  lemma StatementIsPrivate(w: World, s: State, step: Step)
    requires Active(s, step.t) && !step.Begin? && !step.Commit? && !step.Abort?
    ensures var s' := Next(w, s, step);
            && s'.committed == s.committed && s'.txns.Keys == s.txns.Keys
            && forall u :: u in s.txns && u != step.t ==> s'.txns[u] == s.txns[u]
  {
    hide RunInsertRecord, RunAppendChain, RunPutAddress;
  }

  /** What a statement does to the transaction that runs it. */
  lemma StatementEffect(w: World, s: State, step: Step)
    requires Active(s, step.t)
    requires || step.InsertRecord? || step.AppendChain? || step.InsertAddress?
             || (step.UpdateAddress? && step.id in Visible(s, step.t).addresses)
    ensures var outcome := match step
                           case InsertRecord(t, row) => RunInsertRecord(w, s, t, row)
                           case AppendChain(t, row) => RunAppendChain(w, s, t, row)
                           case InsertAddress(t, row) => RunPutAddress(w, s, t, s.nextAddress, row)
                           case UpdateAddress(t, id, row) => RunPutAddress(w, s, t, id, row)
                           case _ => Waits;
            && step.t in Next(w, s, step).txns
            && Next(w, s, step).txns[step.t].own == (if outcome.Done? then outcome.own else s.txns[step.t].own)
            && Next(w, s, step).txns[step.t].failed == outcome.Refused?
  {
    hide RunInsertRecord, RunAppendChain, RunPutAddress;
  }

  /** A refused or waiting statement leaves every table as it was, committed and uncommitted. */
  lemma RefusalChangesNoRow(w: World, s: State, t: int, row: ChainRow)
    requires Active(s, t) && !RunAppendChain(w, s, t, row).Done?
    ensures var s' := Next(w, s, AppendChain(t, row));
            s'.committed == s.committed && s'.txns.Keys == s.txns.Keys
            && forall u :: u in s.txns ==> s'.txns[u].own == s.txns[u].own
  {
    hide InsertChain;
  }
}
