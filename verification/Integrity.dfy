/** The invariant of the tables, kept by every accepted statement. */
module Integrity {
  import opened Bytes
  import opened Results
  import opened Sorting
  import opened Records
  import opened Tables
  import opened Verifier

  // One entity's chain

  /** The chain definition at place `i`: the row's record is present, and the row follows the one before. */
  predicate LinkedAt(p: Platform, canonical: map<int, CanonRow>, rows: seq<ChainRow>, i: int)
    requires 0 <= i < |rows|
  {
    && rows[i].canonicalId in canonical
    && Follows(p, JoinedRow(canonical, rows[i]), i + 1, if i == 0 then GENESIS_PREV else rows[i - 1].entry)
  }

  ghost predicate Intact(p: Platform, canonical: map<int, CanonRow>, rows: seq<ChainRow>) {
    forall i :: 0 <= i < |rows| ==> LinkedAt(p, canonical, rows, i)
  }

  /** The last entry hash of a chain; a chain without rows stands at the genesis value. */
  function Tip(rows: seq<ChainRow>): bytes {
    if rows == [] then GENESIS_PREV else rows[|rows| - 1].entry
  }

  lemma {:induction false} ChainOfConcat(a: seq<ChainRow>, b: seq<ChainRow>, entity: int)
    ensures ChainOf(a + b, entity) == ChainOf(a, entity) + ChainOf(b, entity)
  {
    if b == [] {
      assert a + b == a;
    } else {
      ChainOfConcat(a, b[..|b| - 1], entity);
      assert (a + b)[..|a + b| - 1] == a + b[..|b| - 1];
    }
  }

  lemma ChainOfAppend(chain: seq<ChainRow>, row: ChainRow, entity: int)
    ensures ChainOf(chain + [row], entity) == ChainOf(chain, entity) + if row.entity == entity then [row] else []
  {
    assert (chain + [row])[..|chain + [row]| - 1] == chain;
  }

  lemma {:induction false} ChainOfMembers(chain: seq<ChainRow>, entity: int, row: ChainRow)
    ensures row in ChainOf(chain, entity) <==> row in chain && row.entity == entity
  {
    if chain != [] {
      var front := chain[..|chain| - 1];
      ChainOfMembers(front, entity, row);
      assert chain == front + [chain[|chain| - 1]];
    }
  }

  // Reading a chain whose rows stand in any order

  predicate RowBefore(a: ChainRow, b: ChainRow) {
    a.number < b.number
  }

  lemma {:induction false} EntryAtMember(rows: seq<ChainRow>, n: int) returns (i: int)
    requires EntryAt(rows, n).Some?
    ensures 0 <= i < |rows| && rows[i].number == n && EntryAt(rows, n) == Some(rows[i].entry)
  {
    i := 0;
    if rows[0].number != n {
      i := EntryAtMember(rows[1..], n);
      i := i + 1;
    }
  }

  lemma {:induction false} EntryExists(rows: seq<ChainRow>, i: int)
    requires 0 <= i < |rows|
    ensures EntryAt(rows, rows[i].number).Some?
  {
    if i > 0 {
      EntryExists(rows[1..], i - 1);
    }
  }

  lemma {:induction false} LastNumberIndex(rows: seq<ChainRow>) returns (i: int)
    requires rows != []
    ensures 0 <= i < |rows| && rows[i].number == LastNumber(rows)
    ensures forall j :: 0 <= j < |rows| ==> rows[j].number <= LastNumber(rows)
  {
    i := |rows| - 1;
    if |rows| > 1 {
      var front := rows[..|rows| - 1];
      var k := LastNumberIndex(front);
      assert forall j :: 0 <= j < |front| ==> rows[j] == front[j];
      if LastNumber(front) >= rows[|rows| - 1].number {
        i := k;
      }
    }
  }

  /** In the order of their numbers, the rows of an intact chain are looked up by place. */
  lemma SortedEntryAt(p: Platform, canonical: map<int, CanonRow>, rows: seq<ChainRow>, n: int)
    requires Intact(p, canonical, Sort(rows, RowBefore))
    ensures EntryAt(rows, n) == if 1 <= n <= |rows| then Some(Sort(rows, RowBefore)[n - 1].entry) else None
  {
    var sorted := Sort(rows, RowBefore);
    SortMembers(rows, RowBefore);
    if 1 <= n <= |rows| {
      assert LinkedAt(p, canonical, sorted, n - 1);
      assert sorted[n - 1] in rows;
      var k :| 0 <= k < |rows| && rows[k] == sorted[n - 1];
      EntryExists(rows, k);
    }
    if EntryAt(rows, n).Some? {
      var i := EntryAtMember(rows, n);
      assert rows[i] in sorted;
      var j :| 0 <= j < |sorted| && sorted[j] == rows[i];
      assert LinkedAt(p, canonical, sorted, j);
    }
  }

  /** What the trigger reads of a chain that is intact in the order of its numbers. */
  lemma SortedEnd(p: Platform, canonical: map<int, CanonRow>, rows: seq<ChainRow>)
    requires Intact(p, canonical, Sort(rows, RowBefore))
    ensures LastNumber(rows) == |rows|
    ensures PreviousHash(rows) == Some(Tip(Sort(rows, RowBefore))) && |Tip(Sort(rows, RowBefore))| == 32
    ensures forall r :: r in rows ==> 1 <= r.number <= |rows|
  {
    var sorted := Sort(rows, RowBefore);
    SortMembers(rows, RowBefore);
    forall r | r in rows ensures 1 <= r.number <= |rows| {
      var j :| 0 <= j < |sorted| && sorted[j] == r;
      assert LinkedAt(p, canonical, sorted, j);
    }
    SortedEntryAt(p, canonical, rows, |rows|);
    if rows != [] {
      assert LinkedAt(p, canonical, sorted, |rows| - 1);
      assert sorted[|rows| - 1] in rows;
      var i := LastNumberIndex(rows);
    }
  }

  lemma IntactIsSorted(p: Platform, canonical: map<int, CanonRow>, rows: seq<ChainRow>)
    requires Intact(p, canonical, rows)
    ensures Sort(rows, RowBefore) == rows
  {
    forall i, j | 0 <= i < j < |rows| ensures !RowBefore(rows[j], rows[i]) {
      assert LinkedAt(p, canonical, rows, i) && LinkedAt(p, canonical, rows, j);
    }
    SortedIsFixed(rows, RowBefore);
  }

  lemma IntactEnd(p: Platform, canonical: map<int, CanonRow>, rows: seq<ChainRow>)
    requires Intact(p, canonical, rows)
    ensures LastNumber(rows) == |rows|
    ensures PreviousHash(rows) == Some(Tip(rows)) && |Tip(rows)| == 32
    ensures forall n :: EntryAt(rows, n) == if 1 <= n <= |rows| then Some(rows[n - 1].entry) else None
  {
    IntactIsSorted(p, canonical, rows);
    SortedEnd(p, canonical, rows);
    forall n ensures EntryAt(rows, n) == if 1 <= n <= |rows| then Some(rows[n - 1].entry) else None {
      SortedEntryAt(p, canonical, rows, n);
    }
  }

  /** Records that are only ever added keep an intact chain intact. */
  lemma IntactGrows(p: Platform, canonical: map<int, CanonRow>, more: map<int, CanonRow>, rows: seq<ChainRow>)
    requires Intact(p, canonical, rows)
    requires forall id :: id in canonical ==> id in more && more[id] == canonical[id]
    ensures Intact(p, more, rows)
  {
    forall i | 0 <= i < |rows| ensures LinkedAt(p, more, rows, i) {
      assert LinkedAt(p, canonical, rows, i);
    }
  }

  /** The trigger's local checks are exactly the chain rule for one more row, in whatever order the rows stand. */
  lemma TriggerTakesTheNextLink(w: World, t: Tables, row: ChainRow)
    requires Intact(w.platform, t.canonical, Sort(ChainOf(t.chain, row.entity), RowBefore))
    ensures var rows := ChainOf(t.chain, row.entity);
            AuditAppend(w, t, row).Ok? <==>
              && FitsInt(row.entity)
              && row.canonicalId in t.canonical && t.canonical[row.canonicalId].entity == row.entity
              && Follows(w.platform, JoinedRow(t.canonical, row), |rows| + 1, Tip(Sort(rows, RowBefore)))
  {
    SortedEnd(w.platform, t.canonical, ChainOf(t.chain, row.entity));
  }

  lemma AppendIsOneMoreLink(w: World, t: Tables, row: ChainRow)
    requires Intact(w.platform, t.canonical, ChainOf(t.chain, row.entity))
    ensures var rows := ChainOf(t.chain, row.entity);
            AuditAppend(w, t, row).Ok? <==>
              && FitsInt(row.entity)
              && row.canonicalId in t.canonical && t.canonical[row.canonicalId].entity == row.entity
              && row.number == |rows| + 1 && row.prev == Tip(rows)
              && row.entry == w.platform.sha256(row.prev + t.canonical[row.canonicalId].sha)
    ensures AuditAppend(w, t, row).Ok? ==>
              Intact(w.platform, t.canonical, ChainOf(t.chain + [row], row.entity))
  {
    hide AuditAppend, ChainOf, Intact;
    var rows := ChainOf(t.chain, row.entity);
    IntactIsSorted(w.platform, t.canonical, rows);
    TriggerTakesTheNextLink(w, t, row);
    ChainOfAppend(t.chain, row, row.entity);
    if row.canonicalId in t.canonical {
      IntactAppend(w.platform, t.canonical, rows, row);
    }
  }

  /** A chain with one row more is intact exactly when it was, and the new row follows its last one. */
  lemma IntactAppend(p: Platform, canonical: map<int, CanonRow>, rows: seq<ChainRow>, row: ChainRow)
    requires row.canonicalId in canonical
    ensures Intact(p, canonical, rows + [row]) <==>
              Intact(p, canonical, rows) && Follows(p, JoinedRow(canonical, row), |rows| + 1, Tip(rows))
  {
    var longer := rows + [row];
    forall i | 0 <= i < |rows| ensures LinkedAt(p, canonical, longer, i) <==> LinkedAt(p, canonical, rows, i) {
    }
    assert LinkedAt(p, canonical, longer, |rows|) <==> Follows(p, JoinedRow(canonical, row), |rows| + 1, Tip(rows));
  }

  /** The three statements of the hash rule agree: `entry_hash` gives the stored entry, and its length check
      never fires. */
  lemma EntryHashAgrees(p: Platform, canonical: map<int, CanonRow>, rows: seq<ChainRow>, i: int)
    requires Intact(p, canonical, rows) && 0 <= i < |rows|
    requires forall id :: id in canonical ==> canonical[id].sha == p.sha256(canonical[id].data)
    ensures rows[i].canonicalId in canonical
    ensures EntryHash(rows[i].prev, canonical[rows[i].canonicalId].sha, p) == Ok(rows[i].entry)
  {
    assert LinkedAt(p, canonical, rows, i);
    if i > 0 {
      assert LinkedAt(p, canonical, rows, i - 1);
    }
  }

  // What the verifier's verdict means

  /** The rows the verifier walks, in its order. */
  function Audited(t: Tables, entity: int): (rows: seq<ChainRow>)
    ensures forall i :: 0 <= i < |rows| ==> rows[i].canonicalId in t.canonical
  {
    var present := PresentRows(t.canonical, ChainOf(t.chain, entity));
    SortMembers(present, RowBefore);
    var rows := Sort(present, RowBefore);
    assert forall i :: 0 <= i < |rows| ==> rows[i] in present;
    rows
  }

  /** The joined row comes from this chain row. */
  predicate Joins(canonical: map<int, CanonRow>, row: ChainRow, joined: Joined) {
    row.canonicalId in canonical && joined == JoinedRow(canonical, row)
  }

  lemma OrdersAgree(canonical: map<int, CanonRow>)
    ensures AgreeOnOrder(RowBefore, NumberBefore, (row, joined) => Joins(canonical, row, joined))
  {
    forall x, y, x', y' | Joins(canonical, x, y) && Joins(canonical, x', y')
      ensures RowBefore(x, x') <==> NumberBefore(y, y')
    {
    }
  }

  lemma QueryIsAudited(t: Tables, entity: int)
    ensures var rows, query := Audited(t, entity), Query(t, entity);
            |query| == |rows| && forall i :: 0 <= i < |rows| ==> query[i] == JoinedRow(t.canonical, rows[i])
  {
    var rel := (row, joined) => Joins(t.canonical, row, joined);
    var present := PresentRows(t.canonical, ChainOf(t.chain, entity));
    OrdersAgree(t.canonical);
    assert Related(present, Join(t, entity), rel);
    SortRelated(present, Join(t, entity), RowBefore, NumberBefore, rel);
    var rows, query := Audited(t, entity), Query(t, entity);
    forall i | 0 <= i < |rows| ensures query[i] == JoinedRow(t.canonical, rows[i]) {
      assert rel(rows[i], query[i]);
    }
  }

  /** For every table, however it came about: the verifier returns NULL exactly when the rows it walks, in the
      order of their numbers, satisfy the chain definition. */
  lemma VerdictIsIntact(p: Platform, t: Tables, entity: int)
    ensures VerifyChain(p, t, entity) == None <==> Intact(p, t.canonical, Audited(t, entity))
  {
    hide Audited, Query, Follows;
    var rows, query := Audited(t, entity), Query(t, entity);
    QueryIsAudited(t, entity);
    WalkFindsFirstBreak(p, query, GENESIS_PREV, 1);
    forall i | 0 <= i < |rows|
      ensures LinkedAt(p, t.canonical, rows, i) <==> LinkAt(p, query, GENESIS_PREV, 1, i)
    {
    }
  }

  /** Every row's record is there, as the foreign key demands. */
  predicate RecordsPresent(canonical: map<int, CanonRow>, rows: seq<ChainRow>) {
    forall i :: 0 <= i < |rows| ==> rows[i].canonicalId in canonical
  }

  lemma {:induction false} PresentIsAll(canonical: map<int, CanonRow>, rows: seq<ChainRow>)
    requires RecordsPresent(canonical, rows)
    ensures PresentRows(canonical, rows) == rows
  {
    if rows != [] {
      PresentIsAll(canonical, rows[..|rows| - 1]);
      assert rows == rows[..|rows| - 1] + [rows[|rows| - 1]];
    }
  }

  lemma IntactVerifies(p: Platform, t: Tables, entity: int)
    requires Intact(p, t.canonical, ChainOf(t.chain, entity))
    ensures Audited(t, entity) == ChainOf(t.chain, entity) && VerifyChain(p, t, entity) == None
  {
    hide VerifyChain, ChainOf;
    var rows := ChainOf(t.chain, entity);
    forall i | 0 <= i < |rows| ensures rows[i].canonicalId in t.canonical {
      assert LinkedAt(p, t.canonical, rows, i);
    }
    PresentIsAll(t.canonical, rows);
    IntactIsSorted(p, t.canonical, rows);
    VerdictIsIntact(p, t, entity);
  }

  /** If the longer chain is intact in the order of its numbers, and the shorter one was, the new row comes last. */
  lemma NewRowIsLast(p: Platform, canonical: map<int, CanonRow>, rows: seq<ChainRow>, row: ChainRow)
    requires Intact(p, canonical, Sort(rows, RowBefore)) && Intact(p, canonical, Sort(rows + [row], RowBefore))
    ensures row.number == |rows| + 1
  {
    hide Intact, Sort, LastNumber, PreviousHash, Tip;
    var sorted := Sort(rows + [row], RowBefore);
    SortedEnd(p, canonical, rows);
    SortMembers(rows + [row], RowBefore);
    assert sorted[|rows|] in rows + [row];
    NumberAt(p, canonical, sorted, |rows|);
  }

  lemma OneMoreRow(p: Platform, canonical: map<int, CanonRow>, rows: seq<ChainRow>, row: ChainRow)
    requires Intact(p, canonical, Sort(rows, RowBefore)) && row.canonicalId in canonical
    ensures Intact(p, canonical, Sort(rows + [row], RowBefore)) <==>
              Follows(p, JoinedRow(canonical, row), |rows| + 1, Tip(Sort(rows, RowBefore)))
  {
    hide Intact, Tip, Sort, LastNumber, PreviousHash, Follows;
    SortedEnd(p, canonical, rows);
    if Intact(p, canonical, Sort(rows + [row], RowBefore)) {
      NewRowIsLast(p, canonical, rows, row);
    }
    FollowsNumber(p, JoinedRow(canonical, row), |rows| + 1, Tip(Sort(rows, RowBefore)));
    if row.number == |rows| + 1 {
      assert forall r :: r in rows ==> !RowBefore(row, r);
      SortKeepsLast(rows, row, RowBefore);
      IntactAppend(p, canonical, Sort(rows, RowBefore), row);
    }
  }

  lemma FollowsNumber(p: Platform, row: Joined, number: int, prev: bytes)
    ensures Follows(p, row, number, prev) ==> row.number == number
  {
  }

  /** The local check refines the global one. While the verifier returns NULL, the trigger accepts a row exactly
      when its entity id fits the lock key, it is for a present record of its entity, and the verifier returns
      NULL with the row added. */
  lemma LocalCheckIsGlobalCheck(w: World, t: Tables, row: ChainRow)
    requires RecordsPresent(t.canonical, ChainOf(t.chain, row.entity))
    requires VerifyChain(w.platform, t, row.entity) == None
    ensures AuditAppend(w, t, row).Ok? <==>
              && FitsInt(row.entity)
              && row.canonicalId in t.canonical && t.canonical[row.canonicalId].entity == row.entity
              && VerifyChain(w.platform, t.(chain := t.chain + [row]), row.entity) == None
  {
    hide AuditAppend, VerifyChain, ChainOf, Intact, Follows;
    var rows, longer := ChainOf(t.chain, row.entity), t.(chain := t.chain + [row]);
    VerdictIsIntact(w.platform, t, row.entity);
    PresentIsAll(t.canonical, rows);
    TriggerTakesTheNextLink(w, t, row);
    if row.canonicalId in t.canonical {
      ChainOfAppend(t.chain, row, row.entity);
      PresentIsAll(t.canonical, rows + [row]);
      OneMoreRow(w.platform, t.canonical, rows, row);
      VerdictIsIntact(w.platform, longer, row.entity);
    }
  }

  /** The exact limit of the verifier. If it returned NULL, and then rows are removed, it still returns NULL exactly
      when what is left of the entity's chain, in the order of its numbers, is a beginning of what there was: every
      removal is seen but that of a tail. */
  lemma RemovalIsSeenUnlessTail(p: Platform, t: Tables, left: seq<ChainRow>, entity: int)
    requires VerifyChain(p, t, entity) == None
    requires forall row :: row in left ==> row in t.chain
    ensures VerifyChain(p, t.(chain := left), entity) == None <==>
              Audited(t.(chain := left), entity) <= Audited(t, entity)
  {
    hide VerifyChain, Audited, Follows;
    var all, some := Audited(t, entity), Audited(t.(chain := left), entity);
    VerdictIsIntact(p, t, entity);
    VerdictIsIntact(p, t.(chain := left), entity);
    if Intact(p, t.canonical, some) {
      forall i | 0 <= i < |some| ensures i < |all| && some[i] == all[i] {
        AuditedMembers(t, entity, some[i]);
        AuditedMembers(t.(chain := left), entity, some[i]);
        var j :| 0 <= j < |all| && all[j] == some[i];
        NumberAt(p, t.canonical, some, i);
        NumberAt(p, t.canonical, all, j);
      }
      assert some == [] || some[|some| - 1] in some;
      assert some == all[..|some|];
    }
    if some <= all {
      assert Intact(p, t.canonical, all);
      forall i | 0 <= i < |some| ensures LinkedAt(p, t.canonical, some, i) {
        assert LinkedAt(p, t.canonical, all, i);
        assert some[i] == all[i] && (i > 0 ==> some[i - 1] == all[i - 1]);
      }
    }
  }

  lemma NumberAt(p: Platform, canonical: map<int, CanonRow>, rows: seq<ChainRow>, i: int)
    requires Intact(p, canonical, rows) && 0 <= i < |rows|
    ensures rows[i].number == i + 1
  {
    assert LinkedAt(p, canonical, rows, i);
  }

  lemma AuditedMembers(t: Tables, entity: int, row: ChainRow)
    ensures row in Audited(t, entity) <==> row in t.chain && row.entity == entity && row.canonicalId in t.canonical
  {
    SortMembers(PresentRows(t.canonical, ChainOf(t.chain, entity)), RowBefore);
    PresentMembers(t.canonical, ChainOf(t.chain, entity), row);
    ChainOfMembers(t.chain, entity, row);
  }

  lemma {:induction false} PresentMembers(canonical: map<int, CanonRow>, rows: seq<ChainRow>, row: ChainRow)
    ensures row in PresentRows(canonical, rows) <==> row in rows && row.canonicalId in canonical
  {
    if rows != [] {
      PresentMembers(canonical, rows[..|rows| - 1], row);
      assert rows == rows[..|rows| - 1] + [rows[|rows| - 1]];
    }
  }
}
