/** The walking verifier `fn_verify_chain`, and the chain definition it decides. */
module Verifier {
  import opened Bytes
  import opened Results
  import opened Sorting
  import opened Records
  import opened Tables

  /** A row of the verifier's query: the chain row and the sha of the canonical record it joins. */
  datatype Joined = Joined(number: int, prev: bytes, entry: bytes, sha: bytes)

  function JoinedRow(canonical: map<int, CanonRow>, row: ChainRow): Joined
    requires row.canonicalId in canonical
  {
    Joined(row.number, row.prev, row.entry, canonical[row.canonicalId].sha)
  }

  /** The rows whose canonical record is there; the inner join drops the others. */
  function PresentRows(canonical: map<int, CanonRow>, rows: seq<ChainRow>): (r: seq<ChainRow>)
    ensures forall i :: 0 <= i < |r| ==> r[i].canonicalId in canonical
  {
    if rows == [] then []
    else
      var front := PresentRows(canonical, rows[..|rows| - 1]);
      var last := rows[|rows| - 1];
      if last.canonicalId in canonical then front + [last] else front
  }

  /** The inner join for one entity. */
  function Join(t: Tables, entity: int): seq<Joined> {
    var rows := PresentRows(t.canonical, ChainOf(t.chain, entity));
    seq(|rows|, i requires 0 <= i < |rows| => JoinedRow(t.canonical, rows[i]))
  }

  predicate NumberBefore(a: Joined, b: Joined) {
    a.number < b.number
  }

  /** The cursor of the loop: `ORDER BY ac.seq`. */
  function Query(t: Tables, entity: int): seq<Joined> {
    Sort(Join(t, entity), NumberBefore)
  }

  /** The loop of `fn_verify_chain` from a row on, with its `prev` and `expected_seq`. */
  function Walk(p: Platform, rows: seq<Joined>, prev: bytes, expected: int): Option<int> {
    if rows == [] then None
    else if rows[0].number != expected then Some(expected)
    else if rows[0].prev != prev then Some(rows[0].number)
    else if rows[0].entry != p.sha256(rows[0].prev + rows[0].sha) then Some(rows[0].number)
    else Walk(p, rows[1..], rows[0].entry, expected + 1)
  }

  function VerifyChain(p: Platform, t: Tables, entity: int): Option<int> {
    Walk(p, Query(t, entity), GENESIS_PREV, 1)
  }

  /** `fn_verify_chain`: the first broken seq, or None for an intact chain. */
  method FnVerifyChain(p: Platform, t: Tables, entity: int) returns (broken: Option<int>)
    ensures broken == VerifyChain(p, t, entity)
  {
    var rows := Query(t, entity);
    var prev: bytes := GENESIS_PREV;
    var expected := 1;
    assert rows[0..] == rows;
    for i := 0 to |rows|
      invariant Walk(p, rows, GENESIS_PREV, 1) == Walk(p, rows[i..], prev, expected)
    {
      var r := rows[i];
      assert rows[i..][0] == r && rows[i..][1..] == rows[i + 1..];
      if r.number != expected {
        return Some(expected);
      }
      if r.prev != prev {
        return Some(r.number);
      }
      if r.entry != p.sha256(r.prev + r.sha) {
        return Some(r.number);
      }
      prev := r.entry;
      expected := expected + 1;
    }
    return None;
  }

  // What the walk decides

  /** The chain rule: the row has this number, links to this hash, and its entry hashes the link and its record. */
  predicate Follows(p: Platform, row: Joined, number: int, prev: bytes) {
    row.number == number && row.prev == prev && row.entry == p.sha256(row.prev + row.sha)
  }

  /** The row at place `i` continues the rows before it. */
  predicate LinkAt(p: Platform, rows: seq<Joined>, prev: bytes, expected: int, i: int)
    requires 0 <= i < |rows|
  {
    Follows(p, rows[i], expected + i, if i == 0 then prev else rows[i - 1].entry)
  }

  lemma {:induction false} WalkFindsFirstBreak(p: Platform, rows: seq<Joined>, prev: bytes, expected: int)
    ensures match Walk(p, rows, prev, expected)
            case None => forall i :: 0 <= i < |rows| ==> LinkAt(p, rows, prev, expected, i)
            case Some(k) =>
              && 0 <= k - expected < |rows| && !LinkAt(p, rows, prev, expected, k - expected)
              && forall i :: 0 <= i < k - expected ==> LinkAt(p, rows, prev, expected, i)
  {
    if rows != [] && LinkAt(p, rows, prev, expected, 0) {
      WalkFindsFirstBreak(p, rows[1..], rows[0].entry, expected + 1);
      forall i | 1 <= i < |rows|
        ensures LinkAt(p, rows, prev, expected, i) <==> LinkAt(p, rows[1..], rows[0].entry, expected + 1, i - 1)
      {
      }
    }
  }

  /** The joined row that has this number, if any. */
  function RowAt(rows: seq<Joined>, number: int): Option<Joined> {
    if rows == [] then None
    else if rows[0].number == number then Some(rows[0])
    else RowAt(rows[1..], number)
  }

  /** The chain rule at position `k`, read off the table: the row exists and follows the one before. */
  predicate GoodAt(p: Platform, rows: seq<Joined>, k: int) {
    && RowAt(rows, k).Some? && (k == 1 || RowAt(rows, k - 1).Some?)
    && Follows(p, RowAt(rows, k).value, k, if k == 1 then GENESIS_PREV else RowAt(rows, k - 1).value.entry)
  }

  predicate DistinctNumbers(rows: seq<Joined>) {
    forall i, j :: 0 <= i < j < |rows| ==> rows[i].number != rows[j].number
  }

  /** The primary key (entity_id, seq) of the chain table. */
  predicate PrimaryKey(chain: seq<ChainRow>) {
    forall i, j :: 0 <= i < j < |chain| ==> (chain[i].entity, chain[i].number) != (chain[j].entity, chain[j].number)
  }

  predicate OneEntity(rows: seq<ChainRow>, entity: int) {
    forall r :: r in rows ==> r.entity == entity
  }

  lemma PrimaryKeyOfMore(rows: seq<ChainRow>, last: ChainRow)
    requires PrimaryKey(rows) && forall r :: r in rows ==> (r.entity, r.number) != (last.entity, last.number)
    ensures PrimaryKey(rows + [last])
  {
    forall i | 0 <= i < |rows| ensures (rows[i].entity, rows[i].number) != (last.entity, last.number) {
      assert rows[i] in rows;
    }
  }

  lemma LastIsNew(rows: seq<ChainRow>)
    requires PrimaryKey(rows) && rows != []
    ensures var front, last := rows[..|rows| - 1], rows[|rows| - 1];
            PrimaryKey(front) && forall r :: r in front ==> (r.entity, r.number) != (last.entity, last.number)
  {
  }

  lemma {:induction false} ChainKeepsKey(chain: seq<ChainRow>, entity: int)
    requires PrimaryKey(chain)
    ensures var rows := ChainOf(chain, entity);
            PrimaryKey(rows) && OneEntity(rows, entity) && forall r :: r in rows ==> r in chain
  {
    hide PrimaryKey;
    if chain != [] {
      LastIsNew(chain);
      ChainKeepsKey(chain[..|chain| - 1], entity);
      if chain[|chain| - 1].entity == entity {
        PrimaryKeyOfMore(ChainOf(chain[..|chain| - 1], entity), chain[|chain| - 1]);
      }
    } else {
      NoRowsAreDistinct();
    }
  }

  lemma NoRowsAreDistinct()
    ensures PrimaryKey([])
  {
  }

  lemma {:induction false} PresentKeepsKey(canonical: map<int, CanonRow>, rows: seq<ChainRow>)
    requires PrimaryKey(rows)
    ensures var present := PresentRows(canonical, rows);
            PrimaryKey(present) && forall r :: r in present ==> r in rows
  {
    hide PrimaryKey;
    if rows != [] {
      LastIsNew(rows);
      PresentKeepsKey(canonical, rows[..|rows| - 1]);
      if rows[|rows| - 1].canonicalId in canonical {
        PrimaryKeyOfMore(PresentRows(canonical, rows[..|rows| - 1]), rows[|rows| - 1]);
      }
    }
  }

  /** Under the primary key no two rows of an entity that the verifier joins have the same number. */
  lemma KeyDistinguishes(t: Tables, entity: int)
    requires PrimaryKey(t.chain)
    ensures DistinctNumbers(Join(t, entity))
  {
    var rows := PresentRows(t.canonical, ChainOf(t.chain, entity));
    ChainKeepsKey(t.chain, entity);
    PresentKeepsKey(t.canonical, ChainOf(t.chain, entity));
    forall i, j | 0 <= i < j < |rows| ensures rows[i].number != rows[j].number {
      assert rows[i] in rows && rows[j] in rows;
    }
  }

  predicate PositiveNumbers(rows: seq<Joined>) {
    forall i :: 0 <= i < |rows| ==> rows[i].number >= 1
  }

  lemma {:induction false} RowAtMember(rows: seq<Joined>, i: int)
    requires DistinctNumbers(rows) && 0 <= i < |rows|
    ensures RowAt(rows, rows[i].number) == Some(rows[i])
  {
    if i > 0 {
      RowAtMember(rows[1..], i - 1);
    }
  }

  lemma {:induction false} RowAtFinds(rows: seq<Joined>, k: int)
    requires RowAt(rows, k).Some?
    ensures RowAt(rows, k).value in rows && RowAt(rows, k).value.number == k
  {
    if rows[0].number != k {
      RowAtFinds(rows[1..], k);
    }
  }

  /** Looking up a number does not depend on the order of the rows. */
  lemma RowAtSorted(rows: seq<Joined>, k: int)
    requires DistinctNumbers(rows)
    ensures DistinctNumbers(Sort(rows, NumberBefore)) && Ascending(Sort(rows, NumberBefore), NumberBefore)
    ensures RowAt(Sort(rows, NumberBefore), k) == RowAt(rows, k)
  {
    var sorted := Sort(rows, NumberBefore);
    SortAscends(rows, NumberBefore);
    SortMembers(rows, NumberBefore);
    forall i, j | 0 <= i < j < |sorted| ensures sorted[i].number < sorted[j].number {
      assert NumberBefore(sorted[i], sorted[j]);
    }
    if RowAt(rows, k).Some? {
      RowAtFinds(rows, k);
      var i :| 0 <= i < |sorted| && sorted[i] == RowAt(rows, k).value;
      RowAtMember(sorted, i);
    } else if RowAt(sorted, k).Some? {
      RowAtFinds(sorted, k);
      var i :| 0 <= i < |rows| && rows[i] == RowAt(sorted, k).value;
      RowAtMember(rows, i);
    }
  }

  /** In ascending positive rows linked up to `i`, the rule at position `i + 1` is the link at place `i`. */
  lemma GoodIsLink(p: Platform, rows: seq<Joined>, i: int)
    requires Ascending(rows, NumberBefore) && PositiveNumbers(rows) && DistinctNumbers(rows)
    requires 0 <= i < |rows| && forall j :: 0 <= j < i ==> LinkAt(p, rows, GENESIS_PREV, 1, j)
    ensures GoodAt(p, rows, i + 1) <==> LinkAt(p, rows, GENESIS_PREV, 1, i)
  {
    forall j | 0 <= j < i ensures rows[j].number == j + 1 {
      assert LinkAt(p, rows, GENESIS_PREV, 1, j);
    }
    forall j | i < j < |rows| ensures rows[i].number < rows[j].number {
      assert NumberBefore(rows[i], rows[j]);
    }
    if i > 0 {
      assert NumberBefore(rows[i - 1], rows[i]);
      RowAtMember(rows, i - 1);
    }
    if RowAt(rows, i + 1).Some? {
      RowAtFinds(rows, i + 1);
      assert rows[i].number == i + 1;
      RowAtMember(rows, i);
    }
    if LinkAt(p, rows, GENESIS_PREV, 1, i) {
      RowAtMember(rows, i);
    }
  }

  lemma GoodOrderFree(p: Platform, rows: seq<Joined>, k: int)
    requires DistinctNumbers(rows)
    ensures GoodAt(p, Sort(rows, NumberBefore), k) <==> GoodAt(p, rows, k)
  {
    RowAtSorted(rows, k);
    RowAtSorted(rows, k - 1);
  }

  /** Exactness: over distinct positive numbers the verifier returns the least position where the chain rule
      fails, and None exactly when it holds at every position the rows could fill. */
  lemma VerifierIsExact(p: Platform, t: Tables, entity: int)
    requires DistinctNumbers(Join(t, entity)) && PositiveNumbers(Join(t, entity))
    ensures var rows := Join(t, entity);
            && (VerifyChain(p, t, entity).None? <==> forall k :: 1 <= k <= |rows| ==> GoodAt(p, rows, k))
            && (forall k :: VerifyChain(p, t, entity) == Some(k) <==>
                  && 1 <= k <= |rows| && !GoodAt(p, rows, k)
                  && forall j :: 1 <= j < k ==> GoodAt(p, rows, j))
  {
    var rows, sorted := Join(t, entity), Query(t, entity);
    hide Join, RowAt, GoodAt, LinkAt;
    WalkFindsFirstBreak(p, sorted, GENESIS_PREV, 1);
    RowAtSorted(rows, 1);
    SortMembers(rows, NumberBefore);
    assert PositiveNumbers(sorted) by {
      forall i | 0 <= i < |sorted| ensures sorted[i].number >= 1 {
        assert sorted[i] in rows;
      }
    }
    var first := match VerifyChain(p, t, entity) case None => |sorted| case Some(k) => k - 1;
    forall k | 1 <= k <= first + 1 && k <= |rows|
      ensures GoodAt(p, rows, k) <==> LinkAt(p, sorted, GENESIS_PREV, 1, k - 1)
    {
      GoodIsLink(p, sorted, k - 1);
      GoodOrderFree(p, rows, k);
    }
    match VerifyChain(p, t, entity)
    case None =>
      assert forall k :: 1 <= k <= |rows| ==> GoodAt(p, rows, k);
    case Some(broken) =>
      assert !GoodAt(p, rows, broken);
      assert forall j :: 1 <= j < broken ==> GoodAt(p, rows, j);
  }

  /** A row numbered zero or less comes first in the query, and is reported as a break at 1. */
  lemma NonPositiveIsBroken(p: Platform, t: Tables, entity: int, i: int)
    requires DistinctNumbers(Join(t, entity))
    requires 0 <= i < |Join(t, entity)| && Join(t, entity)[i].number <= 0
    ensures VerifyChain(p, t, entity) == Some(1)
  {
    var rows, sorted := Join(t, entity), Query(t, entity);
    RowAtSorted(rows, 1);
    SortMembers(rows, NumberBefore);
    assert rows[i] in sorted;
    var j :| 0 <= j < |sorted| && sorted[j] == rows[i];
    if j > 0 {
      assert NumberBefore(sorted[0], sorted[j]);
    }
  }
}
