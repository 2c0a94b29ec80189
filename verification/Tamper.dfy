/** Tamper evidence: chains that end alike hold the same history, or the comparison names two colliding inputs. */
module Tamper {
  import opened Bytes
  import opened Results
  import opened CborModel
  import opened Records
  import opened RecordTheorems
  import opened Tables
  import opened Verifier
  import opened Integrity
  import opened TableInvariant
  import opened Transactions

  /** A chain, and the records its rows point at. */
  datatype History = History(canonical: map<int, CanonRow>, rows: seq<ChainRow>)

  predicate Whole(h: History) {
    RecordsPresent(h.canonical, h.rows)
  }

  function RecordOf(h: History, i: int): CanonRow
    requires Whole(h) && 0 <= i < |h.rows|
  {
    h.canonical[h.rows[i].canonicalId]
  }

  /** What was hashed into the entry at place `i`. */
  function InputOf(h: History, i: int): bytes
    requires Whole(h) && 0 <= i < |h.rows|
  {
    h.rows[i].prev + RecordOf(h, i).sha
  }

  function Front(h: History): History
    requires h.rows != []
  {
    h.(rows := h.rows[..|h.rows| - 1])
  }

  /** Each record's sha is the hash of its bytes, as `fn_canonical_check` demands of every insert. */
  predicate ShasPass(p: Platform, h: History)
    requires Whole(h)
  {
    forall i :: 0 <= i < |h.rows| ==> RecordOf(h, i).sha == p.sha256(RecordOf(h, i).data)
  }

  /** An intact chain of records that pass the sha check. */
  ghost predicate Sealed(p: Platform, h: History) {
    Whole(h) && Intact(p, h.canonical, h.rows) && ShasPass(p, h)
  }

  /** The rows agree in number, hashes, and the bytes of their records. */
  predicate SameHistories(a: History, b: History)
    requires Whole(a) && Whole(b)
  {
    && |a.rows| == |b.rows|
    && forall i :: 0 <= i < |a.rows| ==>
         && a.rows[i].number == b.rows[i].number && a.rows[i].prev == b.rows[i].prev
         && a.rows[i].entry == b.rows[i].entry
         && RecordOf(a, i).data == RecordOf(b, i).data && RecordOf(a, i).sha == RecordOf(b, i).sha
  }

  /** What the comparison of two chains finds. */
  datatype Verdict = OneHistory | Collision(x: bytes, y: bytes) | ZeroPreimage(x: bytes)

  /** Walk both chains back from their ends until they part. */
  function Compare(a: History, b: History): Verdict
    requires Whole(a) && Whole(b)
    decreases |a.rows|
  {
    var m, n := |a.rows|, |b.rows|;
    if m == 0 && n == 0 then OneHistory
    else if m == 0 then ZeroPreimage(InputOf(b, n - 1))
    else if n == 0 then ZeroPreimage(InputOf(a, m - 1))
    else if InputOf(a, m - 1) != InputOf(b, n - 1) then Collision(InputOf(a, m - 1), InputOf(b, n - 1))
    else if RecordOf(a, m - 1).data != RecordOf(b, n - 1).data
    then Collision(RecordOf(a, m - 1).data, RecordOf(b, n - 1).data)
    else Compare(Front(a), Front(b))
  }

  lemma CompareStep(a: History, b: History)
    requires Whole(a) && Whole(b) && a.rows != [] && b.rows != []
    ensures var m, n := |a.rows| - 1, |b.rows| - 1;
            var x, y := RecordOf(a, m).data, RecordOf(b, n).data;
            Compare(a, b) == if InputOf(a, m) != InputOf(b, n) then Collision(InputOf(a, m), InputOf(b, n))
                             else if x != y then Collision(x, y)
                             else Compare(Front(a), Front(b))
  {
  }

  /** The byte strings that were hashed to build a chain. */
  ghost predicate HashedIn(h: History, x: bytes)
    requires Whole(h)
  {
    exists i :: 0 <= i < |h.rows| && (x == RecordOf(h, i).data || x == InputOf(h, i))
  }

  lemma LastIsSealed(p: Platform, h: History)
    requires Sealed(p, h) && h.rows != []
    ensures var n := |h.rows|;
            var row, record := h.rows[n - 1], RecordOf(h, n - 1);
            && Sealed(p, Front(h)) && Tip(Front(h).rows) == row.prev && row.number == n
            && |row.prev| == 32 && record.sha == p.sha256(record.data) && row.entry == p.sha256(InputOf(h, n - 1))
            && HashedIn(h, record.data) && HashedIn(h, InputOf(h, n - 1))
            && forall x :: HashedIn(Front(h), x) ==> HashedIn(h, x)
  {
    var n := |h.rows|;
    var front := Front(h);
    assert LinkedAt(p, h.canonical, h.rows, n - 1);
    forall i | 0 <= i < |front.rows|
      ensures LinkedAt(p, h.canonical, front.rows, i) && RecordOf(front, i) == RecordOf(h, i) {
      assert LinkedAt(p, h.canonical, h.rows, i);
    }
    IntactEnd(p, h.canonical, front.rows);
    forall x | HashedIn(front, x) ensures HashedIn(h, x) {
      var i :| 0 <= i < |front.rows| && (x == RecordOf(front, i).data || x == InputOf(front, i));
      assert InputOf(front, i) == InputOf(h, i);
    }
  }

  lemma SplitAt32(a: bytes, b: bytes, c: bytes, d: bytes)
    requires |a| == 32 && |c| == 32 && a + b == c + d
    ensures a == c && b == d
  {
    assert a == (a + b)[..32] && c == (c + d)[..32];
    assert b == (a + b)[32..] && d == (c + d)[32..];
  }

  lemma SameWithLast(a: History, b: History)
    requires Whole(a) && Whole(b) && a.rows != [] && b.rows != [] && SameHistories(Front(a), Front(b))
    requires var x, y := a.rows[|a.rows| - 1], b.rows[|b.rows| - 1];
             x.number == |a.rows| && y.number == |b.rows| && x.prev == y.prev && x.entry == y.entry
    requires var x, y := RecordOf(a, |a.rows| - 1), RecordOf(b, |b.rows| - 1); x.data == y.data && x.sha == y.sha
    ensures SameHistories(a, b)
  {
    forall i | 0 <= i < |a.rows| - 1
      ensures RecordOf(Front(a), i) == RecordOf(a, i) && RecordOf(Front(b), i) == RecordOf(b, i)
      ensures Front(a).rows[i] == a.rows[i] && Front(b).rows[i] == b.rows[i]
    {
    }
  }

  /** Two sealed chains with the same end: one history, or an explicit collision of SHA-256 among the inputs hashed
      for these chains, or - only if their lengths differ - an explicit preimage of the zero hash among them. */
  ghost predicate Tells(p: Platform, a: History, b: History)
    requires Whole(a) && Whole(b)
  {
    match Compare(a, b)
    case OneHistory => SameHistories(a, b)
    case Collision(x, y) => x != y && p.sha256(x) == p.sha256(y) && HashedIn(a, x) && HashedIn(b, y)
    case ZeroPreimage(x) =>
      |a.rows| != |b.rows| && AllZero(p.sha256(x)) && (HashedIn(a, x) || HashedIn(b, x))
  }

  lemma {:induction false} EqualEndsTell(p: Platform, a: History, b: History)
    requires Sealed(p, a) && Sealed(p, b) && Tip(a.rows) == Tip(b.rows)
    ensures Tells(p, a, b)
    decreases |a.rows|
  {
    assert Whole(a) && Whole(b);
    hide Sealed, HashedIn;
    GenesisIsZero(GENESIS_PREV);
    hide AllZero;
    if a.rows != [] {
      LastIsSealed(p, a);
    }
    if b.rows != [] {
      LastIsSealed(p, b);
    }
    if a.rows != [] && b.rows != [] {
      hide SameHistories, Compare;
      CompareStep(a, b);
      var m, n := |a.rows|, |b.rows|;
      if InputOf(a, m - 1) == InputOf(b, n - 1) {
        SplitAt32(a.rows[m - 1].prev, RecordOf(a, m - 1).sha, b.rows[n - 1].prev, RecordOf(b, n - 1).sha);
        if RecordOf(a, m - 1).data == RecordOf(b, n - 1).data {
          EqualEndsTell(p, Front(a), Front(b));
          if Compare(Front(a), Front(b)) == OneHistory {
            SameWithLast(a, b);
          }
        }
      }
    }
  }

  /** The row holds the canonical bytes of the record. */
  predicate StandsFor(p: Platform, record: Value, row: CanonRow) {
    CanonicalBytes(record, p) == Ok(row.data)
  }

  /** To record level: rows at equal places of one history stand for equal records. */
  lemma EqualEndsEqualRecords(p: Platform, a: History, b: History, i: int, r: Value, s: Value)
    requires Sealed(p, a) && Sealed(p, b) && Tip(a.rows) == Tip(b.rows) && Compare(a, b) == OneHistory
    requires 0 <= i < |a.rows|
    ensures |a.rows| == |b.rows|
    ensures StandsFor(p, r, RecordOf(a, i)) && StandsFor(p, s, RecordOf(b, i)) ==> Same(r, s)
  {
    hide Same, CanonicalBytes;
    EqualEndsTell(p, a, b);
    if StandsFor(p, r, RecordOf(a, i)) && StandsFor(p, s, RecordOf(b, i)) {
      BytesDecideRecords(r, s, p);
    }
  }

  // Over whole tables

  /** The chain of one entity, as the verifier walks it. */
  function HistoryOf(t: Tables, entity: int): (h: History)
    ensures Whole(h)
  {
    History(t.canonical, Audited(t, entity))
  }

  /** A NULL verdict and the sha check are all the evidence there is of a table; they make its chain sealed. */
  lemma VerdictSeals(p: Platform, t: Tables, entity: int)
    ensures VerifyChain(p, t, entity) == None && ShasPass(p, HistoryOf(t, entity)) <==> Sealed(p, HistoryOf(t, entity))
  {
    hide VerifyChain, Audited, Intact;
    VerdictIsIntact(p, t, entity);
  }

  /** Tamper evidence. For any two tables, whatever was done to them: if the verifier returns NULL on both, the sha
      checks pass and the last entry hashes are equal, they hold one history, or the comparison returns a collision
      or, for different lengths, a preimage of the zero hash. In one history, records behind equal places are equal. */
  lemma VerifiedTablesTell(p: Platform, t: Tables, e: int, u: Tables, f: int)
    requires VerifyChain(p, t, e) == None && VerifyChain(p, u, f) == None
    requires ShasPass(p, HistoryOf(t, e)) && ShasPass(p, HistoryOf(u, f))
    requires Tip(Audited(t, e)) == Tip(Audited(u, f))
    ensures var a, b := HistoryOf(t, e), HistoryOf(u, f);
            && Tells(p, a, b)
            && (Compare(a, b) == OneHistory ==>
                  forall i, r, s ::
                    0 <= i < |a.rows| && StandsFor(p, r, RecordOf(a, i)) && StandsFor(p, s, RecordOf(b, i)) ==>
                      Same(r, s))
  {
    hide VerifyChain, Audited, Intact, StandsFor, Same, HashedIn;
    var a, b := HistoryOf(t, e), HistoryOf(u, f);
    VerdictSeals(p, t, e);
    VerdictSeals(p, u, f);
    EqualEndsTell(p, a, b);
    if Compare(a, b) == OneHistory {
      forall i, r, s | 0 <= i < |a.rows| && StandsFor(p, r, RecordOf(a, i)) && StandsFor(p, s, RecordOf(b, i))
        ensures Same(r, s)
      {
        EqualEndsEqualRecords(p, a, b, i, r, s);
      }
    }
  }

  lemma OkTablesAreSealed(w: World, t: Tables, entity: int)
    requires TablesOk(w, t)
    ensures VerifyChain(w.platform, t, entity) == None && ShasPass(w.platform, HistoryOf(t, entity))
    ensures Audited(t, entity) == ChainOf(t.chain, entity)
  {
    hide ChainOf, Audited, Unique, RowsOwned, VerifyChain;
    IntactVerifies(w.platform, t, entity);
    var h := HistoryOf(t, entity);
    forall i | 0 <= i < |h.rows| ensures RecordOf(h, i).sha == w.platform.sha256(RecordOf(h, i).data) {
      assert RecordOk(w, RecordOf(h, i));
    }
  }

  /** In every reachable state the verdict is NULL and the sha checks pass, so all of them can be so compared. */
  lemma RunsAreSealed(w: World, steps: seq<Step>, entity: int)
    ensures var c := Run(w, START, steps).committed;
            && VerifyChain(w.platform, c, entity) == None && ShasPass(w.platform, HistoryOf(c, entity))
            && Audited(c, entity) == ChainOf(c.chain, entity)
  {
    hide TablesOk, ShasPass, VerifyChain, Audited, ChainOf;
    StartInv(w);
    RunKeepsInv(w, START, steps);
    OkTablesAreSealed(w, Run(w, START, steps).committed, entity);
  }
}
