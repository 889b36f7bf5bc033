/**
  The retention sweep: bounded delete batches, drained until nothing is
  eligible. Batching must come to the same thing as one unbounded delete.
*/
module OutboxPrune {
  import opened Prelude
  import opened OutboxModel
  import OrderedSelect

  datatype Kind = DeliveredRows | FailedRows | ProcessedMarks

  datatype Tables = Tables(rows: Table, marks: Marks)

  /** The rows a delete of this kind may remove. */
  function Eligible(t: Tables, kind: Kind, cutoff: Instant): set<Id> {
    match kind
    case DeliveredRows =>
      set id | id in t.rows && t.rows[id].status == Delivered
               && t.rows[id].deliveredAt.Some? && t.rows[id].deliveredAt.value < cutoff
    case FailedRows =>
      set id | id in t.rows && t.rows[id].status == Failed
               && t.rows[id].failedAt.Some? && t.rows[id].failedAt.value < cutoff
    case ProcessedMarks => set k | k in t.marks && t.marks[k] < cutoff
  }

  /** The timestamp the batch is ordered by. */
  function Stamped(t: Tables, kind: Kind, id: Id): Instant {
    match kind
    case DeliveredRows => if id in t.rows && t.rows[id].deliveredAt.Some? then t.rows[id].deliveredAt.value else 0
    case FailedRows => if id in t.rows && t.rows[id].failedAt.Some? then t.rows[id].failedAt.value else 0
    case ProcessedMarks => if id in t.marks then t.marks[id] else 0
  }

  function Without(t: Tables, kind: Kind, victims: set<Id>): Tables {
    if kind == ProcessedMarks then t.(marks := t.marks - victims) else t.(rows := t.rows - victims)
  }

  /** `victims` is one batch: as many eligible rows as fit, oldest first, ties in any order. */
  ghost predicate IsBatch(t: Tables, kind: Kind, eligible: set<Id>, limit: int, victims: set<Id>) {
    && victims <= eligible
    && |victims| == Min(limit, |eligible|)
    && forall x, y :: x in victims && y in eligible - victims ==> Stamped(t, kind, x) <= Stamped(t, kind, y)
  }

  function AgeRank(t: Tables, kind: Kind): Id -> OrderedSelect.Rank {
    (id: Id) => (Stamped(t, kind, id), id)
  }

  /** SELECT id ... ORDER BY the timestamp LIMIT :limit */
  function OldestBatch(t: Tables, kind: Kind, eligible: set<Id>, limit: nat): (victims: set<Id>)
    ensures IsBatch(t, kind, eligible, limit, victims)
  {
    var rank := AgeRank(t, kind);
    var s := OrderedSelect.Select(rank, eligible, limit);
    OrderedSelect.AscendingDistinct(rank, s);
    assert forall x, y :: x in Elements(s) && y in eligible - Elements(s) ==>
             OrderedSelect.Less(rank(x), rank(y));
    Elements(s)
  }

  /** A batch takes the oldest first, by the column its delete filters on. */
  lemma OldestFirst(t: Tables, kind: Kind, cutoff: Instant, limit: int, victims: set<Id>, x: Id, y: Id)
    requires IsBatch(t, kind, Eligible(t, kind, cutoff), limit, victims)
    requires x in victims && y in Eligible(t, kind, cutoff) && y !in victims
    ensures match kind
            case DeliveredRows => x in t.rows && y in t.rows
                                  && t.rows[x].deliveredAt.Some? && t.rows[y].deliveredAt.Some?
                                  && t.rows[x].deliveredAt.value <= t.rows[y].deliveredAt.value
            case FailedRows => x in t.rows && y in t.rows && t.rows[x].failedAt.Some? && t.rows[y].failedAt.Some?
                               && t.rows[x].failedAt.value <= t.rows[y].failedAt.value
            case ProcessedMarks => x in t.marks && y in t.marks && t.marks[x] <= t.marks[y]
  {
    assert Stamped(t, kind, x) <= Stamped(t, kind, y);
  }

  lemma WithoutTwice(t: Tables, kind: Kind, a: set<Id>, b: set<Id>)
    ensures Without(Without(t, kind, a), kind, b) == Without(t, kind, a + b)
  {
    assert t.rows - a - b == t.rows - (a + b);
    assert t.marks - a - b == t.marks - (a + b);
  }

  /** Deleting rows changes the eligibility of no other row. */
  lemma WithoutEligible(t: Tables, kind: Kind, cutoff: Instant, gone: set<Id>)
    ensures Eligible(Without(t, kind, gone), kind, cutoff) == Eligible(t, kind, cutoff) - gone
  {}

  /** Everything eligible is gone and counted; a batch size that allows no deletion changes nothing. */
  ghost predicate Drained(t: Tables, kind: Kind, cutoff: Instant, limit: int, t': Tables, total: nat) {
    if limit <= 0 then t' == t && total == 0
    else t' == Without(t, kind, Eligible(t, kind, cutoff)) && total == |Eligible(t, kind, cutoff)|
  }

  class OutboxTables {
    var tables: Tables

    constructor (tables: Tables)
      ensures this.tables == tables
    {
      this.tables := tables;
    }

    /** One bounded transaction. */
    method DeleteBatch(kind: Kind, cutoff: Instant, limit: int) returns (deleted: nat, ghost victims: set<Id>)
      modifies this
      ensures deleted == |victims| && tables == Without(old(tables), kind, victims)
      ensures if limit <= 0 then victims == {}
              else IsBatch(old(tables), kind, Eligible(old(tables), kind, cutoff), limit, victims)
    {
      if limit <= 0 {
        assert tables == Without(tables, kind, {});
        return 0, {};
      }
      var batch := OldestBatch(tables, kind, Eligible(tables, kind, cutoff), limit);
      deleted, victims := |batch|, batch;
      tables := Without(tables, kind, batch);
    }

    /** Repeat the batch until one comes back empty. */
    method Drain(kind: Kind, cutoff: Instant, limit: int) returns (total: nat)
      modifies this
      ensures Drained(old(tables), kind, cutoff, limit, tables, total)
    {
      total := 0;
      ghost var t0, gone := tables, {};
      assert tables == Without(tables, kind, {});
      while true
        invariant Draining(t0, kind, cutoff, limit, gone, tables, total)
        decreases |Eligible(t0, kind, cutoff) - gone|
      {
        ghost var t := tables;
        var deleted, victims := DeleteBatch(kind, cutoff, limit);
        DrainStep(t0, kind, cutoff, limit, gone, t, total, victims, tables);
        if deleted <= 0 { return; }
        total, gone := total + deleted, gone + victims;
      }
    }
  }

  /** Part way through: `gone` has been deleted from `t0` and counted. */
  ghost predicate Draining(t0: Tables, kind: Kind, cutoff: Instant, limit: int, gone: set<Id>, t: Tables, total: nat) {
    && gone <= Eligible(t0, kind, cutoff) && total == |gone| && t == Without(t0, kind, gone)
    && (limit <= 0 ==> gone == {})
  }

  lemma DrainStep(t0: Tables, kind: Kind, cutoff: Instant, limit: int, gone: set<Id>, t: Tables, total: nat,
                  victims: set<Id>, t': Tables)
    requires Draining(t0, kind, cutoff, limit, gone, t, total) && t' == Without(t, kind, victims)
    requires if limit <= 0 then victims == {} else IsBatch(t, kind, Eligible(t, kind, cutoff), limit, victims)
    ensures Draining(t0, kind, cutoff, limit, gone + victims, t', total + |victims|)
    ensures victims == {} ==> Drained(t0, kind, cutoff, limit, t', total)
    ensures victims != {} ==> |Eligible(t0, kind, cutoff) - (gone + victims)| < |Eligible(t0, kind, cutoff) - gone|
  {
    var all := Eligible(t0, kind, cutoff);
    WithoutEligible(t0, kind, cutoff, gone);
    WithoutTwice(t0, kind, gone, victims);
    assert all - (gone + victims) == (all - gone) - victims;
    if victims == {} {
      assert gone + victims == gone;
      if limit > 0 { assert gone == all; }
    }
  }

  datatype PruneSummary = PruneSummary(delivered: nat, failed: nat, marks: nat)

  lemma RowsSwept(rows: Table, dc: Instant, fc: Instant, d: set<Id>, f: set<Id>)
    requires d == set id | id in rows && rows[id].status == Delivered && PrunableRow(rows[id], dc, fc)
    requires f == set id | id in rows && rows[id].status == Failed && PrunableRow(rows[id], dc, fc)
    ensures rows - d - f == PruneRows(rows, dc, fc)
  {
    var kept, p := rows - d - f, PruneRows(rows, dc, fc);
    forall id ensures id in kept <==> id in p {
      if id in rows { assert PrunableRow(rows[id], dc, fc) <==> id in d || id in f; }
    }
  }

  lemma MarksSwept(marks: Marks, mc: Instant, m: set<Id>)
    requires m == set k | k in marks && marks[k] < mc
    ensures marks - m == PruneMarks(marks, mc)
  {
  }

  /** The sweep from `t` to `t'` is one unbounded delete per table, and the summary counts what it removed by kind. A
      batch size that allows no deletion changes nothing. */
  ghost predicate Swept(t: Tables, dc: Instant, fc: Instant, mc: Instant, limit: int, t': Tables, sum: PruneSummary) {
    if limit <= 0 then t' == t && sum == PruneSummary(0, 0, 0)
    else
      && t'.rows == PruneRows(t.rows, dc, fc)
      && t'.marks == PruneMarks(t.marks, mc)
      && sum.delivered == |Eligible(t, DeliveredRows, dc)|
      && sum.failed == |Eligible(t, FailedRows, fc)|
      && sum.marks == |Eligible(t, ProcessedMarks, mc)|
  }

  /** Deleting the old delivered rows leaves the same failed rows to delete. */
  lemma FailedUnaffected(t0: Tables, t1: Tables, dc: Instant, fc: Instant)
    requires t1.rows == t0.rows - Eligible(t0, DeliveredRows, dc)
    ensures Eligible(t1, FailedRows, fc) == Eligible(t0, FailedRows, fc)
  {
  }

  lemma EligibleRows(t: Tables, dc: Instant, fc: Instant)
    ensures Eligible(t, DeliveredRows, dc)
            == set id | id in t.rows && t.rows[id].status == Delivered && PrunableRow(t.rows[id], dc, fc)
    ensures Eligible(t, FailedRows, fc)
            == set id | id in t.rows && t.rows[id].status == Failed && PrunableRow(t.rows[id], dc, fc)
  {
  }

  lemma RowDrains(t0: Tables, t1: Tables, t2: Tables, dc: Instant, fc: Instant)
    requires t1 == Without(t0, DeliveredRows, Eligible(t0, DeliveredRows, dc))
    requires t2 == Without(t1, FailedRows, Eligible(t1, FailedRows, fc))
    ensures t2.marks == t0.marks && t2.rows == PruneRows(t0.rows, dc, fc)
    ensures Eligible(t1, FailedRows, fc) == Eligible(t0, FailedRows, fc)
  {
    var d, f := Eligible(t0, DeliveredRows, dc), Eligible(t0, FailedRows, fc);
    FailedUnaffected(t0, t1, dc, fc);
    assert t2.rows == t0.rows - d - f;
    EligibleRows(t0, dc, fc);
    RowsSwept(t0.rows, dc, fc, d, f);
  }

  lemma MarkDrain(t0: Tables, t2: Tables, t3: Tables, mc: Instant)
    requires t2.marks == t0.marks && t3 == Without(t2, ProcessedMarks, Eligible(t2, ProcessedMarks, mc))
    ensures t3.rows == t2.rows && t3.marks == PruneMarks(t0.marks, mc)
    ensures Eligible(t2, ProcessedMarks, mc) == Eligible(t0, ProcessedMarks, mc)
  {
    MarksSwept(t0.marks, mc, Eligible(t0, ProcessedMarks, mc));
  }

  lemma DrainsSweep(t0: Tables, t1: Tables, t2: Tables, t3: Tables, dc: Instant, fc: Instant, mc: Instant, limit: int,
                    sum: PruneSummary)
    requires Drained(t0, DeliveredRows, dc, limit, t1, sum.delivered)
    requires Drained(t1, FailedRows, fc, limit, t2, sum.failed)
    requires Drained(t2, ProcessedMarks, mc, limit, t3, sum.marks)
    ensures Swept(t0, dc, fc, mc, limit, t3, sum)
  {
    if limit > 0 {
      RowDrains(t0, t1, t2, dc, fc);
      MarkDrain(t0, t2, t3, mc);
    }
  }

  /** The three drains, each until nothing of its kind is older than its cutoff. */
  method DrainAll(store: OutboxTables, dc: Instant, fc: Instant, mc: Instant, batchSize: int)
    returns (summary: PruneSummary)
    modifies store
    ensures Swept(old(store.tables), dc, fc, mc, batchSize, store.tables, summary)
  {
    ghost var t0 := store.tables;
    var delivered := store.Drain(DeliveredRows, dc, batchSize);
    ghost var t1 := store.tables;
    var failed := store.Drain(FailedRows, fc, batchSize);
    ghost var t2 := store.tables;
    var marks := store.Drain(ProcessedMarks, mc, batchSize);
    summary := PruneSummary(delivered, failed, marks);
    DrainsSweep(t0, t1, t2, store.tables, dc, fc, mc, batchSize, summary);
  }

  /**
    The whole sweep, with the three retention windows counted back from now. Whatever the batch size, if
    it is positive, it comes to one delete per table of exactly what is older than its window.
  */
  method PruneOutbox(store: OutboxTables, now: Instant, keepDelivered: Instant, keepFailed: Instant,
                     dedupRetention: Instant, batchSize: int) returns (summary: PruneSummary)
    modifies store
    ensures Swept(old(store.tables), now - keepDelivered, now - keepFailed, now - dedupRetention, batchSize,
                  store.tables, summary)
  {
    summary := DrainAll(store, now - keepDelivered, now - keepFailed, now - dedupRetention, batchSize);
  }

  /** What a sweep removes: exactly the rows delivered or failed before their cutoffs, never a pending row, and exactly
      the marks written before theirs. What it keeps is unchanged. */
  lemma PruneKeepsPending(rows: Table, dc: Instant, fc: Instant, id: Id)
    requires id in rows
    ensures id in PruneRows(rows, dc, fc) ==> PruneRows(rows, dc, fc)[id] == rows[id]
    ensures rows[id].status == Pending ==> id in PruneRows(rows, dc, fc)
    ensures rows[id].status == Delivered && rows[id].deliveredAt.Some? ==>
              (id in PruneRows(rows, dc, fc) <==> dc <= rows[id].deliveredAt.value)
    ensures rows[id].status == Failed && rows[id].failedAt.Some? ==>
              (id in PruneRows(rows, dc, fc) <==> fc <= rows[id].failedAt.value)
    ensures rows[id].status == Delivered && rows[id].deliveredAt.None? ==> id in PruneRows(rows, dc, fc)
    ensures rows[id].status == Failed && rows[id].failedAt.None? ==> id in PruneRows(rows, dc, fc)
  {
  }

  lemma PruneKeepsYoungMarks(marks: Marks, mc: Instant, k: Id)
    requires k in marks
    ensures k in PruneMarks(marks, mc) <==> mc <= marks[k]
    ensures k in PruneMarks(marks, mc) ==> PruneMarks(marks, mc)[k] == marks[k]
  {
  }

  /** The counts are the numbers of rows and marks that go. */
  lemma CountsRemoved(t: Tables, dc: Instant, fc: Instant, mc: Instant, t': Tables, sum: PruneSummary, limit: int)
    requires limit > 0 && Swept(t, dc, fc, mc, limit, t', sum)
    ensures t'.rows.Keys <= t.rows.Keys && t'.marks.Keys <= t.marks.Keys
    ensures sum.delivered == |set id | id in t.rows && id !in t'.rows && t.rows[id].status == Delivered|
    ensures sum.failed == |set id | id in t.rows && id !in t'.rows && t.rows[id].status == Failed|
    ensures sum.marks == |t.marks.Keys - t'.marks.Keys|
  {
    assert Eligible(t, DeliveredRows, dc) == set id | id in t.rows && id !in t'.rows && t.rows[id].status == Delivered;
    assert Eligible(t, FailedRows, fc) == set id | id in t.rows && id !in t'.rows && t.rows[id].status == Failed;
    assert Eligible(t, ProcessedMarks, mc) == t.marks.Keys - t'.marks.Keys;
  }
}
