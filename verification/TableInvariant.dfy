/** What holds of the tables as a whole, kept by each statement and by merging transactions. */
module TableInvariant {
  import opened Results
  import opened Records
  import opened Tables
  import opened Integrity

  /** A unique index: no two rows have the same key, NULL keys aside. */
  ghost predicate Unique<R, K>(rows: map<int, R>, index: R -> Option<K>) {
    forall i, j :: i in rows && j in rows && i != j && index(rows[i]).Some? ==> index(rows[i]) != index(rows[j])
  }

  predicate RecordOk(w: World, row: CanonRow) {
    && w.platform.sha256(row.data) == row.sha && row.recordType in TYPE_NAMES && row.entity in w.entities
    && Storable(row.logicalKey)
  }

  /** A SHARED_ECDH address has its whole context and points at a KEY_DERIVATION record of its own entity that
      stands in that entity's chain. */
  ghost predicate AddressOk(t: Tables, row: AddressRow) {
    row.derivation == SHARED_ECDH ==>
      && row.counterparty.Some? && row.schemeVersion.Some? && row.domain.Some? && row.invoice.Some? && row.payment.Some?
      && row.saltCommitment.Some? && row.keyDerivationId.Some? && row.keyDerivationId.value in t.canonical
      && t.canonical[row.keyDerivationId.value].recordType == KEY_DERIVATION
      && t.canonical[row.keyDerivationId.value].entity == row.entity
      && exists link :: link in t.chain && link.entity == row.entity && link.canonicalId == row.keyDerivationId.value
  }

  /** Every chain row is for a present record of its own entity, whose id fits the lock key. */
  predicate RowsOwned(t: Tables) {
    forall i :: 0 <= i < |t.chain| ==>
      && t.chain[i].canonicalId in t.canonical && t.canonical[t.chain[i].canonicalId].entity == t.chain[i].entity
      && FitsInt(t.chain[i].entity)
  }

  ghost predicate ChainsIntact(p: Platform, t: Tables) {
    forall entity :: Intact(p, t.canonical, ChainOf(t.chain, entity))
  }

  ghost predicate TablesOk(w: World, t: Tables) {
    && (forall id :: id in t.canonical ==> RecordOk(w, t.canonical[id]))
    && Unique(t.canonical, CanonIndex)
    && RowsOwned(t)
    && ChainsIntact(w.platform, t)
    && (forall id :: id in t.addresses ==> AddressOk(t, t.addresses[id]))
    && Unique(t.addresses, TextIndex)
    && Unique(t.addresses, ContextIndex)
  }

  lemma EmptyOk(w: World)
    ensures TablesOk(w, EMPTY)
  {
  }

  /** `more` has every record and every chain row of `t`. */
  predicate Extends(t: Tables, more: Tables) {
    && (forall id :: id in t.canonical ==> id in more.canonical && more.canonical[id] == t.canonical[id])
    && (forall r :: r in t.chain ==> r in more.chain)
  }

  /** Evidence that is only added to never unbinds an address. */
  lemma AddressStaysOk(t: Tables, more: Tables, row: AddressRow)
    requires AddressOk(t, row) && Extends(t, more)
    ensures AddressOk(more, row)
  {
    if row.derivation == SHARED_ECDH {
      var link :| link in t.chain && link.entity == row.entity && link.canonicalId == row.keyDerivationId.value;
      assert link in more.chain;
    }
  }

  /** What the binding trigger and the completeness check let through is bound. */
  lemma CheckedAddressIsOk(w: World, t: Tables, id: int, row: AddressRow)
    requires RowsOwned(t) && CheckAddress(w, t, id, row).Ok?
    ensures AddressOk(t, row)
  {
    if row.derivation == SHARED_ECDH {
      var i :| 0 <= i < |t.chain| && t.chain[i].canonicalId == row.keyDerivationId.value;
      assert t.chain[i] in t.chain;
    }
  }

  lemma PutUnique<R, K>(rows: map<int, R>, id: int, row: R, index: R -> Option<K>)
    requires Unique(rows, index) && Free(rows, id, index(row), index)
    ensures Unique(rows[id := row], index)
  {
  }

  lemma InsertCanonicalKeeps(w: World, t: Tables, id: int, row: CanonRow)
    requires TablesOk(w, t) && id !in t.canonical && InsertCanonical(w, t, id, row).Ok?
    ensures TablesOk(w, InsertCanonical(w, t, id, row).value)
  {
    hide ChainOf, Intact;
    var t' := InsertCanonical(w, t, id, row).value;
    PutUnique(t.canonical, id, row, CanonIndex);
    forall entity ensures Intact(w.platform, t'.canonical, ChainOf(t'.chain, entity)) {
      IntactGrows(w.platform, t.canonical, t'.canonical, ChainOf(t.chain, entity));
    }
    forall a | a in t'.addresses ensures AddressOk(t', t'.addresses[a]) {
      AddressStaysOk(t, t', t.addresses[a]);
    }
  }

  lemma InsertChainKeeps(w: World, t: Tables, row: ChainRow)
    requires TablesOk(w, t) && InsertChain(w, t, row).Ok?
    ensures TablesOk(w, InsertChain(w, t, row).value)
  {
    hide ChainOf, Intact, AuditAppend;
    var t' := InsertChain(w, t, row).value;
    AppendIsOneMoreLink(w, t, row);
    forall entity ensures Intact(w.platform, t'.canonical, ChainOf(t'.chain, entity)) {
      ChainOfAppend(t.chain, row, entity);
      if entity != row.entity {
        assert ChainOf(t'.chain, entity) == ChainOf(t.chain, entity);
      }
    }
    forall a | a in t'.addresses ensures AddressOk(t', t'.addresses[a]) {
      AddressStaysOk(t, t', t.addresses[a]);
    }
  }

  lemma PutAddressKeeps(w: World, t: Tables, id: int, row: AddressRow)
    requires TablesOk(w, t) && PutAddress(w, t, id, row).Ok?
    ensures TablesOk(w, PutAddress(w, t, id, row).value)
  {
    hide ChainOf, Intact;
    var t' := PutAddress(w, t, id, row).value;
    CheckedAddressIsOk(w, t, id, row);
    PutUnique(t.addresses, id, row, TextIndex);
    PutUnique(t.addresses, id, row, ContextIndex);
    forall entity ensures Intact(w.platform, t'.canonical, ChainOf(t'.chain, entity)) {
      assert Intact(w.platform, t.canonical, ChainOf(t.chain, entity));
    }
    forall a | a in t'.addresses ensures AddressOk(t', t'.addresses[a]) {
      assert AddressOk(t, t'.addresses[a]);
    }
  }

  /** The derivation context of an address. */
  function ContextOf(a: AddressRow): (int, Option<int>, Option<int>, Option<int>, Option<int>, Option<int>) {
    (a.entity, a.counterparty, a.schemeVersion, a.domain, a.invoice, a.payment)
  }

  /** One-time addresses: two SHARED_ECDH rows never stand for one derivation context. */
  lemma OneTimeAddresses(w: World, t: Tables, i: int, j: int)
    requires TablesOk(w, t) && i in t.addresses && j in t.addresses && i != j
    requires t.addresses[i].derivation == SHARED_ECDH && t.addresses[j].derivation == SHARED_ECDH
    ensures ContextOf(t.addresses[i]) != ContextOf(t.addresses[j])
  {
    assert AddressOk(t, t.addresses[i]) && AddressOk(t, t.addresses[j]);
  }

  /** The index alone would not do: it admits a twin of a row exactly when a column of the context is NULL. */
  lemma IndexAdmitsTwinsIffIncomplete(row: AddressRow)
    requires row.derivation == SHARED_ECDH && row.keyDerivationId.Some? && row.saltCommitment.Some?
    ensures ContextFree(map[1 := row], 2, row) <==> !ContextComplete(row)
  {
    assert 1 in map[1 := row];
  }

  // Merging a transaction into the committed tables

  /** What a transaction with these changes sees: the committed rows and its own. */
  function View(committed: Tables, own: Tables): Tables {
    Tables(committed.canonical + own.canonical, committed.chain + own.chain, committed.addresses + own.addresses)
  }

  /** No key of one set of changes is a key of the other. */
  ghost predicate NoClash<R, K>(a: map<int, R>, b: map<int, R>, index: R -> Option<K>) {
    forall i, j :: i in a && j in b && index(a[i]).Some? ==> index(a[i]) != index(b[j])
  }

  /** Two transactions' changes that can both be committed, in either order. */
  ghost predicate Compatible(a: Tables, b: Tables) {
    && a.canonical.Keys !! b.canonical.Keys && a.addresses.Keys !! b.addresses.Keys
    && (forall entity :: ChainOf(a.chain, entity) == [] || ChainOf(b.chain, entity) == [])
    && NoClash(a.canonical, b.canonical, CanonIndex)
    && NoClash(a.addresses, b.addresses, TextIndex)
    && NoClash(a.addresses, b.addresses, ContextIndex)
  }

  lemma MergeUnique<R, K>(c: map<int, R>, a: map<int, R>, b: map<int, R>, index: R -> Option<K>)
    requires Unique(c + a, index) && Unique(c + b, index) && a.Keys !! b.Keys && NoClash(a, b, index)
    ensures Unique(c + a + b, index)
  {
    var m := c + a + b;
    forall i, j | i in m && j in m && i != j && index(m[i]).Some? ensures index(m[i]) != index(m[j]) {
      if (i in b && j !in a) || (j in b && i !in a) {
        assert (c + b)[i] == m[i] && (c + b)[j] == m[j];
      } else if i !in b && j !in b {
        assert (c + a)[i] == m[i] && (c + a)[j] == m[j];
      }
    }
  }

  lemma MergeChains(w: World, c: Tables, a: Tables, b: Tables)
    requires ChainsIntact(w.platform, View(c, a)) && ChainsIntact(w.platform, View(c, b)) && Compatible(a, b)
    requires Extends(View(c, a), View(View(c, a), b)) && Extends(View(c, b), View(View(c, a), b))
    ensures ChainsIntact(w.platform, View(View(c, a), b))
  {
    hide ChainOf, Intact;
    var ca, cb, cab := View(c, a), View(c, b), View(View(c, a), b);
    forall entity ensures Intact(w.platform, cab.canonical, ChainOf(cab.chain, entity)) {
      ChainOfConcat(ca.chain, b.chain, entity);
      ChainOfConcat(c.chain, a.chain, entity);
      ChainOfConcat(c.chain, b.chain, entity);
      if ChainOf(b.chain, entity) == [] {
        assert ChainOf(cab.chain, entity) == ChainOf(ca.chain, entity);
        IntactGrows(w.platform, ca.canonical, cab.canonical, ChainOf(ca.chain, entity));
      } else {
        assert ChainOf(cab.chain, entity) == ChainOf(cb.chain, entity);
        IntactGrows(w.platform, cb.canonical, cab.canonical, ChainOf(cb.chain, entity));
      }
    }
  }

  lemma MergeExtends(c: Tables, a: Tables, b: Tables)
    requires b.canonical.Keys !! (c.canonical + a.canonical).Keys && a.canonical.Keys !! c.canonical.Keys
    ensures Extends(View(c, a), View(View(c, a), b)) && Extends(View(c, b), View(View(c, a), b))
  {
  }

  /** Two compatible transactions that are each fine on the committed tables are fine one after the other. */
  lemma MergeOk(w: World, c: Tables, a: Tables, b: Tables)
    requires TablesOk(w, View(c, a)) && TablesOk(w, View(c, b)) && Compatible(a, b)
    requires b.canonical.Keys !! (c.canonical + a.canonical).Keys && a.canonical.Keys !! c.canonical.Keys
    ensures TablesOk(w, View(View(c, a), b))
  {
    hide ChainsIntact;
    var ca, cb, cab := View(c, a), View(c, b), View(View(c, a), b);
    MergeExtends(c, a, b);
    MergeChains(w, c, a, b);
    MergeUnique(c.canonical, a.canonical, b.canonical, CanonIndex);
    MergeUnique(c.addresses, a.addresses, b.addresses, TextIndex);
    MergeUnique(c.addresses, a.addresses, b.addresses, ContextIndex);
    MergeOwned(ca, cb, cab);
    forall id | id in cab.addresses ensures AddressOk(cab, cab.addresses[id]) {
      if id in b.addresses {
        AddressStaysOk(cb, cab, cb.addresses[id]);
      } else {
        AddressStaysOk(ca, cab, ca.addresses[id]);
      }
    }
    forall id | id in cab.canonical ensures RecordOk(w, cab.canonical[id]) {
      if id in b.canonical {
        assert cab.canonical[id] == cb.canonical[id];
      } else {
        assert cab.canonical[id] == ca.canonical[id];
      }
    }
  }

  lemma MergeOwned(ca: Tables, cb: Tables, cab: Tables)
    requires RowsOwned(ca) && RowsOwned(cb) && Extends(ca, cab) && Extends(cb, cab)
    requires forall r :: r in cab.chain ==> r in ca.chain || r in cb.chain
    ensures RowsOwned(cab)
  {
    forall i | 0 <= i < |cab.chain|
      ensures cab.chain[i].canonicalId in cab.canonical && FitsInt(cab.chain[i].entity)
      ensures cab.canonical[cab.chain[i].canonicalId].entity == cab.chain[i].entity
    {
      var r := cab.chain[i];
      assert r in cab.chain;
    }
  }
}
