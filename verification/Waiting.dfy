/** When a statement waits for another transaction, what it takes to go in, and what ends the waiting. */
module Waiting {
  import opened Tables
  import opened TableInvariant
  import opened Guards
  import opened Transactions

  /** Another open transaction has an uncommitted record with this key. */
  predicate KeyPending(s: State, t: int, row: CanonRow) {
    exists u, j :: u in s.txns && u != t && j in s.txns[u].own.canonical &&
                   SameRecordKey(s.txns[u].own.canonical[j], row)
  }

  /** A record waits exactly for an uncommitted one with the same entity, type, logical key and sha; it goes in
      exactly when there is none and the tables, as its transaction sees them, take it. */
  lemma RecordWaits(w: World, s: State, t: int, row: CanonRow)
    requires Inv(w, s) && Active(s, t)
    ensures RunInsertRecord(w, s, t, row).Waits? <==> KeyPending(s, t, row)
    ensures RunInsertRecord(w, s, t, row).Done? <==>
              !KeyPending(s, t, row) && InsertCanonical(w, Visible(s, t), s.nextCanonical, row).Ok?
  {
    hide TablesOk, InsertCanonical, CanonFree, PairOk;
    forall u | u in s.txns
      ensures !CanonFree(s.txns[u].own.canonical, s.nextCanonical, row) <==>
                exists j :: j in s.txns[u].own.canonical && SameRecordKey(s.txns[u].own.canonical[j], row)
    {
      assert TxnOk(w, s, s.txns[u]);
      RecordIndex(s.txns[u].own.canonical, s.nextCanonical, row);
    }
  }

  /** Another open transaction holds the lock on this entity's chain. */
  predicate LockTaken(s: State, t: int, entity: int) {
    exists u :: u in s.txns && u != t && entity in s.txns[u].locks
  }

  /** A chain row waits exactly for the lock; it goes in exactly when the lock is free and the tables take it. Once it
      does not wait, its transaction holds the lock besides those it had, even when the row is refused. */
  lemma LinkWaits(w: World, s: State, t: int, row: ChainRow)
    requires Active(s, t)
    ensures var fits := -0x8000_0000 <= row.entity < 0x8000_0000;
            var s' := Next(w, s, AppendChain(t, row));
            && (RunAppendChain(w, s, t, row).Waits? <==> fits && LockTaken(s, t, row.entity))
            && (RunAppendChain(w, s, t, row).Done? <==>
                  !LockTaken(s, t, row.entity) && InsertChain(w, Visible(s, t), row).Ok?)
            && t in s'.txns
            && s'.txns[t].locks == s.txns[t].locks + if fits && !LockTaken(s, t, row.entity) then {row.entity} else {}
  {
    hide LastNumber, EntryAt, ChainOf;
  }

  /** The written address has been written by the other transaction too, or one of its keys is that of a row the other
      transaction has written, as it is now or as it was committed. */
  predicate AddressInTheWay(s: State, u: int, id: int, row: AddressRow)
    requires u in s.txns
  {
    var own := s.txns[u].own.addresses;
    || id in own
    || exists j :: j in own && (
         || SameText(own[j], row) || SameSharedContext(own[j], row)
         || (j in s.committed.addresses
             && (SameText(s.committed.addresses[j], row) || SameSharedContext(s.committed.addresses[j], row))))
  }

  /** An address waits exactly for such a transaction; it is written exactly when there is none and the tables
      take it. */
  lemma AddressWaits(w: World, s: State, t: int, id: int, row: AddressRow)
    requires Active(s, t)
    ensures var waits := exists u :: u in s.txns && u != t && AddressInTheWay(s, u, id, row);
            && (RunPutAddress(w, s, t, id, row).Waits? <==> waits)
            && (RunPutAddress(w, s, t, id, row).Done? <==> !waits && PutAddress(w, Visible(s, t), id, row).Ok?)
  {
    hide PutAddress, TextFree, ContextFree, TextIndex, ContextIndex, SameText, SameSharedContext;
    forall u | u in s.txns && u != t
      ensures AddressInTheWay(s, u, id, row) <==> (
                || id in s.txns[u].own.addresses
                || !TextFree(s.txns[u].own.addresses, id, row) || !ContextFree(s.txns[u].own.addresses, id, row)
                || exists k :: k in s.txns[u].own.addresses && k in s.committed.addresses && k != id &&
                     (TextIndex(s.committed.addresses[k]) == TextIndex(row)
                      || (ContextIndex(row).Some? && ContextIndex(s.committed.addresses[k]) == ContextIndex(row))))
    {
      AddressTextIndex(s.txns[u].own.addresses, id, row);
      SharedContextIndex(s.txns[u].own.addresses, id, row);
      forall k | k in s.committed.addresses
        ensures SameText(s.committed.addresses[k], row) <==> TextIndex(s.committed.addresses[k]) == TextIndex(row)
        ensures SameSharedContext(s.committed.addresses[k], row) <==>
                  ContextIndex(row).Some? && ContextIndex(s.committed.addresses[k]) == ContextIndex(row)
      {
        KeysAgree(s.committed.addresses[k], row);
      }
    }
  }

  lemma KeysAgree(a: AddressRow, b: AddressRow)
    ensures SameText(a, b) <==> TextIndex(a) == TextIndex(b)
    ensures SameSharedContext(a, b) <==> ContextIndex(b).Some? && ContextIndex(a) == ContextIndex(b)
  {
  }

  // The end of a transaction

  /** A transaction ends by its COMMIT or its rollback: it is gone with its locks, the others are as they were, and its
      rows are committed exactly by the COMMIT of a transaction in which no statement was refused. */
  lemma EndOf(w: World, s: State, t: int, end: Step)
    requires t in s.txns && (end == Commit(t) || end == Abort(t))
    ensures var s' := Next(w, s, end);
            && t !in s'.txns && (forall u :: u in s.txns && u != t ==> u in s'.txns && s'.txns[u] == s.txns[u])
            && s'.txns.Keys <= s.txns.Keys
            && s'.committed == (if end == Commit(t) && !s.txns[t].failed then Visible(s, t) else s.committed)
            && (forall u, entity :: u != t ==> (LockTaken(s', u, entity) <==>
                  exists v :: v in s.txns && v != u && v != t && entity in s.txns[v].locks))
  {
  }

  /** An UPDATE or DELETE of evidence is refused: no row changes, and the transaction can no longer commit. */
  lemma EvidenceIsImmutable(w: World, s: State, t: int)
    requires Active(s, t)
    ensures var s' := Next(w, s, ChangeEvidence(t));
            s'.committed == s.committed && s'.txns == s.txns[t := s.txns[t].(failed := true)]
  {
  }

  /** After a refused statement a transaction can only end: none of its steps changes a row, or the lock it holds. */
  lemma FailedOnlyEnds(w: World, s: State, step: Step)
    requires step.t in s.txns && s.txns[step.t].failed
    ensures var s' := Next(w, s, step);
            && s'.committed == s.committed
            && (step.t in s'.txns ==> s' == s)
            && (step.t !in s'.txns <==> step.Commit? || step.Abort?)
  {
  }

  /** Locks are held to the end: whatever steps are taken, a transaction that has not ended has every lock it had. */
  lemma {:induction false} LocksAreHeld(w: World, s: State, steps: seq<Step>, t: int)
    requires t in s.txns && forall i :: 0 <= i < |steps| ==> steps[i] != Commit(t) && steps[i] != Abort(t)
    ensures var s' := Run(w, s, steps); t in s'.txns && s.txns[t].locks <= s'.txns[t].locks
  {
    if steps != [] {
      var front := steps[..|steps| - 1];
      LocksAreHeld(w, s, front, t);
      LocksGrow(w, Run(w, s, front), steps[|steps| - 1], t);
    }
  }

  lemma LocksGrow(w: World, s: State, step: Step, t: int)
    requires t in s.txns && step != Commit(t) && step != Abort(t)
    ensures t in Next(w, s, step).txns && s.txns[t].locks <= Next(w, s, step).txns[t].locks
  {
    hide RunInsertRecord, RunAppendChain, RunPutAddress;
  }
}
