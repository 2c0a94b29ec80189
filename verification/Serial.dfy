/** Interleaved writers and one connection working alone commit the same evidence: each run has a serial order. */
module Serial {
  import opened Results
  import opened CborModel
  import opened Records
  import opened Tables
  import opened Integrity
  import opened Guards
  import opened TableInvariant
  import opened Linkage
  import opened Session
  import opened Writers
  import opened Bookkeeping

  /** One call of `record_canonical_and_chain`, and the id the sequence hands it. */
  datatype Job = Job(id: int, entity: int, logicalKey: string, record: Value)

  predicate Fits(w: World, t: Tables, job: Job) {
    job.id !in t.canonical && Recordable(w, t, job.id, job.entity, job.logicalKey, job.record)
  }

  /** What a connection working alone makes of the tables with this call; see `Session.Connection`. */
  function AfterJob(w: World, t: Tables, job: Job): Tables
    requires Fits(w, t, job)
  {
    WithRecord(w, t, job.id, RowFor(w.platform, job.entity, job.logicalKey, job.record).value)
  }

  /** The calls one after the other, from empty tables; none may be refused. */
  function OneByOne(w: World, jobs: seq<Job>): Option<Tables> {
    if jobs == [] then Some(EMPTY)
    else
      match OneByOne(w, jobs[..|jobs| - 1])
      case None => None
      case Some(t) =>
        var job := jobs[|jobs| - 1];
        if Fits(w, t, job) then Some(AfterJob(w, t, job)) else None
  }

  // Every committed state has a serial order

  /** The evidence as it was when the chains had `k` rows. */
  function Upto(c: Tables, k: nat): Tables
    requires k <= |c.chain|
  {
    Tables(map id | id in c.canonical && Times(c.chain[..k], id) > 0 :: c.canonical[id], c.chain[..k], map[])
  }

  lemma {:induction false} NoPlace(chain: seq<ChainRow>, id: int)
    requires forall i :: 0 <= i < |chain| ==> chain[i].canonicalId != id
    ensures Times(chain, id) == 0
  {
    if chain != [] {
      NoPlace(chain[..|chain| - 1], id);
    }
  }

  lemma UptoNext(c: Tables, k: nat)
    requires k < |c.chain| && c.chain[k].canonicalId in c.canonical
    ensures Upto(c, k + 1).chain == Upto(c, k).chain + [c.chain[k]]
    ensures var id := c.chain[k].canonicalId; Upto(c, k + 1).canonical == Upto(c, k).canonical[id := c.canonical[id]]
  {
    assert c.chain[..k + 1] == c.chain[..k] + [c.chain[k]];
    forall id ensures Times(c.chain[..k + 1], id)
                      == Times(c.chain[..k], id) + if c.chain[k].canonicalId == id then 1 else 0
    {
      TimesAppend(c.chain[..k], c.chain[k], id);
    }
  }

  /** In intact chains each row is the link that continues the rows before it in the table. */
  lemma RowIsNext(w: World, c: Tables, k: nat)
    requires k < |c.chain| && c.chain[k].canonicalId in c.canonical
    requires c.canonical[c.chain[k].canonicalId].entity == c.chain[k].entity
    requires Intact(w.platform, c.canonical, ChainOf(c.chain, c.chain[k].entity))
    ensures c.chain[k] == NextRow(w, c.chain[..k], c.chain[k].canonicalId, c.canonical[c.chain[k].canonicalId])
  {
    hide ChainOf, Intact;
    var row := c.chain[k];
    var all, before := ChainOf(c.chain, row.entity), ChainOf(c.chain[..k], row.entity);
    assert c.chain == (c.chain[..k] + [row]) + c.chain[k + 1..];
    ChainOfConcat(c.chain[..k] + [row], c.chain[k + 1..], row.entity);
    ChainOfAppend(c.chain[..k], row, row.entity);
    assert all[|before|] == row && all[..|before|] == before;
    RowAtPlace(w.platform, c.canonical, all, |before|);
  }

  lemma RowAtPlace(p: Platform, canonical: map<int, CanonRow>, rows: seq<ChainRow>, i: nat)
    requires Intact(p, canonical, rows) && i < |rows|
    ensures rows[i].canonicalId in canonical && rows[i].number == i + 1 && rows[i].prev == Tip(rows[..i])
    ensures rows[i].entry == p.sha256(rows[i].prev + canonical[rows[i].canonicalId].sha)
  {
    assert LinkedAt(p, canonical, rows, i);
  }

  /** Each row of the chains, with its record, is one call that a connection alone could make at that moment. */
  lemma RowIsJob(w: World, c: Tables, k: nat) returns (job: Job)
    requires TablesOk(w, c) && Balanced(w.platform, c, None) && k < |c.chain|
    ensures Fits(w, Upto(c, k), job) && Upto(c, k + 1) == AfterJob(w, Upto(c, k), job)
  {
    hide ChainOf, Intact, RowFor, HasRecord;
    var id := c.chain[k].canonicalId;
    var row := c.canonical[id];
    var place := ThePlace(c.chain, id);
    assert place == k;
    NoPlace(c.chain[..k], id);
    UptoNext(c, k);
    RowIsNext(w, c, k);
    assert RecordOk(w, row);
    var record := RecordOfRow(w.platform, row);
    job := Job(id, row.entity, row.logicalKey, record);
    RecordIndex(Upto(c, k).canonical, id, row);
  }

  lemma RecordOfRow(p: Platform, row: CanonRow) returns (record: Value)
    requires HasRecord(p, row)
    ensures RowFor(p, row.entity, row.logicalKey, record) == Ok(row)
  {
    record :| RowFor(p, row.entity, row.logicalKey, record) == Ok(row);
  }

  lemma {:induction false} UptoIsSerial(w: World, c: Tables, k: nat) returns (jobs: seq<Job>)
    requires TablesOk(w, c) && Balanced(w.platform, c, None) && k <= |c.chain|
    ensures OneByOne(w, jobs) == Some(Upto(c, k)) && |jobs| == k
  {
    hide TablesOk, Balanced, Fits, AfterJob, Upto;
    if k == 0 {
      jobs := [];
      UptoNothing(c);
    } else {
      var front := UptoIsSerial(w, c, k - 1);
      var job := RowIsJob(w, c, k - 1);
      jobs := front + [job];
      assert jobs[..|jobs| - 1] == front;
    }
  }

  lemma UptoNothing(c: Tables)
    ensures Upto(c, 0) == EMPTY
  {
  }

  lemma UptoAll(p: Platform, c: Tables)
    requires Balanced(p, c, None)
    ensures Upto(c, |c.chain|) == Tables(c.canonical, c.chain, map[])
  {
    hide HasRecord;
    assert c.chain[..|c.chain|] == c.chain;
  }

  /** Serial order. Whatever interleaving of writers led to it, the committed evidence is what one connection alone
      makes of empty tables with some list of calls, one after the other, none refused: one call for each chain row,
      in the order of the chains. */
  lemma RunIsSerial(w: World, steps: seq<DbCall>) returns (jobs: seq<Job>)
    ensures var c := RunSystem(w, START_SYSTEM, steps).db.committed;
            OneByOne(w, jobs) == Some(Tables(c.canonical, c.chain, map[])) && |jobs| == |c.chain|
  {
    hide TablesOk, Balanced, FieldsBound, Upto, OneByOne;
    RunBalances(w, steps);
    var c := RunSystem(w, START_SYSTEM, steps).db.committed;
    jobs := UptoIsSerial(w, c, |c.chain|);
    UptoAll(w.platform, c);
  }
}
